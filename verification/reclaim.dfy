/** The demo quota: before provisioning, the oldest active demo identities of a
    provider are retired until there is room for one more. */
module Reclaim {
  import opened Wrappers
  import opened Text
  import opened Sorting
  import opened Protocol
  import opened Sections
  import opened Operations
  import opened Persistence
  import opened Restart
  import opened Lifecycle

  const DEMO_PREFIX := "mutandae-demo-"

  predicate IsDemo(v: Identity, provider: string) {
    v.provider == provider && v.state == Active && DEMO_PREFIX <= v.name
  }

  function DemoIds(identities: map<string, Identity>, provider: string): set<string> {
    set id | id in identities && IsDemo(identities[id], provider)
  }

  /** What the collaborators answer to one Retire. */
  datatype RetireAnswers = RetireAnswers(adapter: AdapterAnswer, native: VaultAnswer, common: VaultAnswer,
    save: SaveAnswer)

  predicate Succeeds(answers: RetireAnswers) { answers.adapter.View? && answers.save.Saved? }

  /** Retiring `gone` turned before into after: those records are retired, they
      were the oldest, and no other record changed. */
  ghost predicate Reclaimed(before: map<string, Identity>, after: map<string, Identity>, provider: string,
      gone: set<string>) {
    && OnlyChanged(before, after, gone) && gone <= DemoIds(before, provider)
    && DemoIds(after, provider) == DemoIds(before, provider) - gone
    && (forall id :: id in gone ==> id in after && after[id].state == Retired)
    && Older(before, gone, DemoIds(after, provider))
  }

  /** The same ids, and the same records outside `gone`. */
  ghost predicate OnlyChanged<V>(before: map<string, V>, after: map<string, V>, gone: set<string>) {
    after.Keys == before.Keys && forall id :: id in before && id !in gone ==> after[id] == before[id]
  }

  lemma OnlyChangedOneMore<V>(before: map<string, V>, mid: map<string, V>, gone: set<string>, id: string, record: V)
    requires OnlyChanged(before, mid, gone) && id in mid
    ensures OnlyChanged(before, mid[id := record], gone + {id})
  {
  }

  /** Nothing that is gone was created after anything kept. */
  ghost predicate Older(before: map<string, Identity>, gone: set<string>, kept: set<string>) {
    forall id, k :: id in gone && k in kept && id in before && k in before
      ==> before[id].createdAt <= before[k].createdAt
  }

  lemma OlderOneMore(before: map<string, Identity>, gone: set<string>, kept: set<string>, id: string)
    requires Older(before, gone, kept) && id in before
    requires forall k :: k in kept && k in before ==> before[id].createdAt <= before[k].createdAt
    ensures Older(before, gone + {id}, kept - {id})
  {
  }

  lemma NothingReclaimed(before: map<string, Identity>, provider: string)
    ensures Reclaimed(before, before, provider, {})
  {
  }

  lemma DemoLess(mid: map<string, Identity>, provider: string, id: string, record: Identity)
    requires id in DemoIds(mid, provider) && record.state == Retired
    ensures DemoIds(mid[id := record], provider) == DemoIds(mid, provider) - {id}
    ensures |DemoIds(mid[id := record], provider)| == |DemoIds(mid, provider)| - 1
  {
    assert DemoIds(mid[id := record], provider) == DemoIds(mid, provider) - {id};
  }

  /** One more reclaimed, oldest first. */
  lemma ReclaimedOneMore(before: map<string, Identity>, mid: map<string, Identity>, provider: string, gone: set<string>,
                         id: string, record: Identity)
    requires Reclaimed(before, mid, provider, gone) && id in DemoIds(mid, provider)
    requires forall other :: other in DemoIds(mid, provider) ==> mid[id].createdAt <= mid[other].createdAt
    requires record.state == Retired
    ensures Reclaimed(before, mid[id := record], provider, gone + {id})
  {
    DemoLess(mid, provider, id, record);
    OnlyChangedOneMore(before, mid, gone, id, record);
    forall k | k in DemoIds(mid, provider) && k in before ensures before[id].createdAt <= before[k].createdAt {
      assert before[k] == mid[k] && before[id] == mid[id];
    }
    OlderOneMore(before, gone, DemoIds(mid, provider), id);
  }

  /** The reclaimed so far, and no more of them than the quota asks for. */
  ghost predicate Underway(before: map<string, Identity>, now: map<string, Identity>, provider: string,
                           gone: set<string>, limit: nat) {
    && Reclaimed(before, now, provider, gone)
    && |DemoIds(now, provider)| + |gone| == |DemoIds(before, provider)|
    && (gone != {} ==> |DemoIds(now, provider)| >= limit - 1)
  }

  lemma UnderwayStep(before: map<string, Identity>, mid: map<string, Identity>, provider: string, gone: set<string>,
      limit: nat, id: string, record: Identity)
    requires Underway(before, mid, provider, gone, limit) && |DemoIds(mid, provider)| >= limit
    requires id in DemoIds(mid, provider) && record.state == Retired
    requires forall other :: other in DemoIds(mid, provider) ==> mid[id].createdAt <= mid[other].createdAt
    ensures Underway(before, mid[id := record], provider, gone + {id}, limit)
    ensures |DemoIds(mid[id := record], provider)| < |DemoIds(mid, provider)|
  {
    ReclaimedOneMore(before, mid, provider, gone, id, record);
    DemoLess(mid, provider, id, record);
    assert id !in gone;
  }

  /** Every Retire of a demo identity will succeed. */
  ghost predicate AllSucceed(retire: nat -> RetireAnswers, identities: map<string, Identity>, provider: string) {
    (forall n :: Succeeds(retire(n))) && (forall id :: id in DemoIds(identities, provider) ==> !Blank(id))
  }

  lemma RetireTouches(st: StoreState, req: RetireRequest, now: int, answer: AdapterAnswer, native: VaultAnswer,
      common: VaultAnswer)
    ensures var (locked, outcome) := Sections.RetireLocked(st, req, now, answer);
            var record := if outcome.RetireDone? then Some(outcome.identity) else None;
            && locked.identities == WithRecord(st.identities, record)
            && RetireOp(st, req, now, answer, native, common).identities == WithRecord(st.identities, record)
  {
    RetireRecords(st, req, now, answer, native, common);
  }

  class Server {
    const store: Store
    const demoLimit: int

    constructor (store: Store, demoLimit: int)
      ensures this.store == store && this.demoLimit == demoLimit
    {
      this.store, this.demoLimit := store, demoLimit;
    }

    function Limit(): nat { if demoLimit <= 0 then 40 else demoLimit }

    method ActiveDemo(provider: string) returns (demo: seq<Identity>)
      requires store.Valid()
      ensures DistinctBy(IdentityKey, demo) && AllDemo(demo, store.identities, provider)
      ensures forall v :: v in demo <==>
                && v.id in store.identities && store.identities[v.id] == v
                && v.provider == provider && v.state == Active && "mutandae-demo-" <= v.name
    {
      var all := store.List(false);
      demo := FilterDemo(all, provider);
    }

    /** One reclaiming Retire: it changes the one record or nothing. */
    method RetireOldest(id: string, now: int, answers: RetireAnswers) returns (ok: bool)
      requires store.Valid() && id in store.identities && store.identities[id].state == Active
      modifies store
      ensures store.Valid()
      ensures store.identities == old(store.identities) ||
              exists record: Identity :: record.state == Retired
                && store.identities == old(store.identities)[id := record]
      ensures ok ==> store.identities != old(store.identities)
      ensures Succeeds(answers) && !Blank(id) ==> ok
    {
      var request := RetireRequest(id, "demo-reclaim", true, false);
      RetireTouches(store.View(), request, now, answers.adapter, answers.native, answers.common);
      var r := store.Retire(request, now, answers.adapter, answers.native, answers.common, answers.save);
      ok := r.Ok?;
    }

    /** Whatever Retire answers, only the oldest active demo identities of this
        provider are retired and never more than the quota asks for; and if every
        Retire succeeds, min(initial, limit - 1) of them are left. */
    method ReclaimDemo(provider: string, now: int, retire: nat -> RetireAnswers) returns (ghost gone: set<string>)
      requires store.Valid()
      modifies store
      ensures store.Valid() && Underway(old(store.identities), store.identities, provider, gone, Limit())
      ensures var initial, left := |DemoIds(old(store.identities), provider)|, |DemoIds(store.identities, provider)|;
              var limit := if demoLimit <= 0 then 40 else demoLimit;
              && (initial < limit ==> gone == {})
              && (AllSucceed(retire, old(store.identities), provider) ==>
                left == if initial < limit then initial else limit - 1)
    {
      var limit := demoLimit;
      if limit <= 0 { limit := 40; }
      gone := {};
      NothingReclaimed(store.identities, provider);
      var n := 0;
      while true
        invariant store.Valid() && Underway(old(store.identities), store.identities, provider, gone, limit)
        decreases |DemoIds(store.identities, provider)|
      {
        ghost var mid := store.identities;
        var demo := ActiveDemo(provider);
        DemoCount(mid, demo, provider);
        if |demo| < limit { return; }
        var oldest := Oldest(demo);
        OldestOfAll(mid, demo, oldest, provider);
        var ok := RetireOldest(oldest.id, now, retire(n));
        gone := NextGone(old(store.identities), mid, store.identities, provider, gone, limit, oldest.id);
        if !ok { return; }
        n := n + 1;
      }
    }
  }

  /** What one Retire, successful or not, does to the reclaimed so far. */
  lemma NextGone(before: map<string, Identity>, mid: map<string, Identity>, after: map<string, Identity>,
      provider: string, gone: set<string>, limit: nat, id: string)
    returns (more: set<string>)
    requires Underway(before, mid, provider, gone, limit) && |DemoIds(mid, provider)| >= limit
      && id in DemoIds(mid, provider)
    requires forall other :: other in DemoIds(mid, provider) ==> mid[id].createdAt <= mid[other].createdAt
    requires after == mid || exists record: Identity :: record.state == Retired && after == mid[id := record]
    ensures Underway(before, after, provider, more, limit) && id in DemoIds(before, provider)
    ensures after != mid ==> |DemoIds(after, provider)| < |DemoIds(mid, provider)|
  {
    more := gone;
    if after != mid {
      var record: Identity :| record.state == Retired && after == mid[id := record];
      UnderwayStep(before, mid, provider, gone, limit, id, record);
      more := gone + {id};
    }
  }

  /** The provider's active demo identities, each once. */
  ghost predicate AllDemo(demo: seq<Identity>, identities: map<string, Identity>, provider: string) {
    forall v :: v in demo <==> Listed(identities, false, v) && IsDemo(v, provider)
  }

  method FilterDemo(all: seq<Identity>, provider: string) returns (demo: seq<Identity>)
    requires DistinctBy(IdentityKey, all)
    ensures DistinctBy(IdentityKey, demo) && forall v :: v in demo <==> v in all && IsDemo(v, provider)
  {
    demo := [];
    for i := 0 to |all|
      invariant DistinctBy(IdentityKey, demo)
      invariant forall v :: v in demo <==> v in all[..i] && IsDemo(v, provider)
    {
      var identity := all[i];
      if identity.provider == provider && identity.state == Active && DEMO_PREFIX <= identity.name {
        forall j | 0 <= j < |demo| ensures IdentityKey(demo[j]) != IdentityKey(identity) {
          assert demo[j] in all[..i];
          var k :| 0 <= k < i && all[k] == demo[j];
        }
        demo := demo + [identity];
      }
      assert all[..i + 1] == all[..i] + [all[i]];
    }
    assert all[..|all|] == all;
  }

  method Oldest(demo: seq<Identity>) returns (oldest: Identity)
    requires demo != []
    ensures oldest in demo && forall i :: 0 <= i < |demo| ==> oldest.createdAt <= demo[i].createdAt
  {
    oldest := demo[0];
    for i := 1 to |demo|
      invariant oldest in demo && forall j :: 0 <= j < i ==> oldest.createdAt <= demo[j].createdAt
    {
      if demo[i].createdAt < oldest.createdAt { oldest := demo[i]; }
    }
  }

  lemma DemoKeys(identities: map<string, Identity>, demo: seq<Identity>, provider: string)
    requires KeyedById(identities) && AllDemo(demo, identities, provider)
    ensures KeySet(IdentityKey, demo) == DemoIds(identities, provider)
  {
    forall id ensures id in KeySet(IdentityKey, demo) <==> id in DemoIds(identities, provider) {
      if id in KeySet(IdentityKey, demo) {
        var i := KeyAt(IdentityKey, demo, id);
        assert demo[i] in demo;
      }
      if id in DemoIds(identities, provider) {
        assert identities[id] in demo;
        var i :| 0 <= i < |demo| && demo[i] == identities[id];
        KeySetHas(IdentityKey, demo, i);
      }
    }
  }

  lemma DemoCount(identities: map<string, Identity>, demo: seq<Identity>, provider: string)
    requires KeyedById(identities) && DistinctBy(IdentityKey, demo) && AllDemo(demo, identities, provider)
    ensures |demo| == |DemoIds(identities, provider)|
  {
    DemoKeys(identities, demo, provider);
    KeysCount(IdentityKey, demo);
  }

  lemma OldestOfAll(identities: map<string, Identity>, demo: seq<Identity>, oldest: Identity, provider: string)
    requires KeyedById(identities) && AllDemo(demo, identities, provider)
    requires oldest in demo && forall i :: 0 <= i < |demo| ==> oldest.createdAt <= demo[i].createdAt
    ensures oldest.id in DemoIds(identities, provider)
    ensures forall id :: id in DemoIds(identities, provider) ==>
      identities[oldest.id].createdAt <= identities[id].createdAt
  {
    forall id | id in DemoIds(identities, provider)
      ensures identities[oldest.id].createdAt <= identities[id].createdAt
    {
      assert identities[id] in demo;
    }
  }
}
