/** Snapshots of the store and what restoring them brings back. */
module Persistence {
  import opened Wrappers
  import opened Text
  import opened Sorting
  import opened Protocol
  import opened Sections
  import opened Numbered
  import opened StoreInvariants

  datatype Snapshot = Snapshot(
    identities: seq<Identity>, events: seq<Event>, runs: seq<Run>, nextEvent: nat, nextRun: nat)

  function IdentityKey(v: Identity): string { v.id }
  function EventKey(e: Event): string { e.Id() }
  function RunKey(r: Run): string { r.Id() }

  /** `all` is sorted by key and holds exactly the filed records. */
  ghost predicate Flattened<T(!new)>(key: T -> string, owner: T -> string, m: map<string, seq<T>>, all: seq<T>) {
    && StrictlySortedBy(key, all)
    && (forall x :: x in all <==> x in Lookup(m, owner(x)))
  }

  /** `snapshot` is what the store's state serializes to. */
  ghost predicate IsSnapshot(st: StoreState, snapshot: Snapshot) {
    && StrictlySortedBy(IdentityKey, snapshot.identities)
    && (forall v :: v in snapshot.identities <==> v.id in st.identities && st.identities[v.id] == v)
    && Flattened(EventKey, EventOwner, st.events, snapshot.events)
    && Flattened(RunKey, RunOwner, st.runs, snapshot.runs)
    && snapshot.nextEvent == st.nextEvent && snapshot.nextRun == st.nextRun
  }

  /** Index records by their id; a later record with the same id wins. */
  function Index(all: seq<Identity>): map<string, Identity> {
    if all == [] then map[]
    else
      var last := all[|all| - 1];
      Index(all[..|all| - 1])[last.id := last]
  }

  /** Restoring overwrites maps and counters; the audit sink is a collaborator and stays. */
  function Restore(st: StoreState, snapshot: Snapshot): StoreState {
    StoreState(Index(snapshot.identities), Group(EventOwner, snapshot.events), Group(RunOwner, snapshot.runs),
               snapshot.nextEvent, snapshot.nextRun, st.sink)
  }

  // ------------------------------------------------------------- taking one

  /** Concatenate the lists in whatever order the map yields them. */
  method Concatenate<T(!new)>(m: map<string, seq<T>>, ghost num: T -> nat, ghost owner: T -> string, ghost counter: nat)
    returns (all: seq<T>)
    requires Filed(num, owner, counter, m)
    ensures forall x :: x in all <==> x in Lookup(m, owner(x))
    ensures forall i, j :: 0 <= i < j < |all| ==> num(all[i]) != num(all[j])
  {
    all := [];
    var keys := m.Keys;
    while keys != {}
      invariant keys <= m.Keys
      invariant forall x :: x in all <==> owner(x) !in keys && x in Lookup(m, owner(x))
      invariant forall i, j :: 0 <= i < j < |all| ==> num(all[i]) != num(all[j])
      decreases keys
    {
      var k :| k in keys;
      ghost var before := all;
      all := all + m[k];
      keys := keys - {k};
      DistinctExtend(num, owner, counter, m, k, before);
      forall x ensures x in all <==> owner(x) !in keys && x in Lookup(m, owner(x)) {
        assert ListOk(num, owner, counter, k, m[k]);
        if x in Lookup(m, owner(x)) { assert owner(x) in m; }
      }
    }
  }

  lemma DistinctExtend<T(!new)>(num: T -> nat, owner: T -> string, counter: nat, m: map<string, seq<T>>, k: string,
      before: seq<T>)
    requires Filed(num, owner, counter, m) && k in m
    requires forall x <- before :: owner(x) != k && x in Lookup(m, owner(x))
    requires forall i, j :: 0 <= i < j < |before| ==> num(before[i]) != num(before[j])
    ensures var all := before + m[k]; forall i, j :: 0 <= i < j < |all| ==> num(all[i]) != num(all[j])
  {
    var all := before + m[k];
    forall i, j | 0 <= i < j < |all| ensures num(all[i]) != num(all[j]) {
      if i < |before| && j >= |before| {
        var x, y := before[i], m[k][j - |before|];
        assert x in before && y in m[k] && Apart(num, m[owner(x)], m[k]);
      } else if i >= |before| {
        assert ListOk(num, owner, counter, k, m[k]);
        assert num(m[k][i - |before|]) != num(m[k][j - |before|]);
      }
    }
  }

  /** Sorting what `Concatenate` collected. */
  lemma SortFlattens<T(!new)>(num: T -> nat, key: T -> string, owner: T -> string, m: map<string, seq<T>>, all: seq<T>)
    requires forall x, y :: key(x) == key(y) ==> num(x) == num(y)
    requires forall x :: x in all <==> x in Lookup(m, owner(x))
    requires forall i, j :: 0 <= i < j < |all| ==> num(all[i]) != num(all[j])
    ensures Flattened(key, owner, m, Sort(key, all))
  {
    var sorted := Sort(key, all);
    assert DistinctBy(key, all);
    DistinctPermutation(key, all, sorted);
    SortedDistinct(key, sorted);
    forall x ensures x in sorted <==> x in Lookup(m, owner(x)) {
      assert x in multiset(sorted) <==> x in multiset(all);
    }
  }

  lemma KeysFollowNumbers()
    ensures forall x, y :: EventKey(x) == EventKey(y) ==> EventNum(x) == EventNum(y)
    ensures forall x, y :: RunKey(x) == RunKey(y) ==> RunNum(x) == RunNum(y)
  {
    forall x, y ensures EventKey(x) == EventKey(y) ==> EventNum(x) == EventNum(y) { IdsInjective(x.num, y.num); }
    forall x, y ensures RunKey(x) == RunKey(y) ==> RunNum(x) == RunNum(y) { IdsInjective(x.num, y.num); }
  }

  method CollectIdentities(identities: map<string, Identity>) returns (all: seq<Identity>)
    requires KeyedById(identities)
    ensures forall v :: v in all <==> v.id in identities && identities[v.id] == v
    ensures DistinctBy(IdentityKey, all)
  {
    all := [];
    var keys := identities.Keys;
    while keys != {}
      invariant keys <= identities.Keys
      invariant forall v :: v in all <==> v.id !in keys && v.id in identities && identities[v.id] == v
      invariant DistinctBy(IdentityKey, all)
      decreases keys
    {
      var k :| k in keys;
      forall i | 0 <= i < |all| ensures IdentityKey(all[i]) != k { assert all[i] in all; }
      all := all + [identities[k]];
      keys := keys - {k};
    }
  }

  lemma SortIdentities(identities: map<string, Identity>, all: seq<Identity>)
    requires DistinctBy(IdentityKey, all)
    requires forall v :: v in all <==> v.id in identities && identities[v.id] == v
    ensures var sorted := Sort(IdentityKey, all);
            StrictlySortedBy(IdentityKey, sorted)
            && forall v :: v in sorted <==> v.id in identities && identities[v.id] == v
  {
    var sorted := Sort(IdentityKey, all);
    DistinctPermutation(IdentityKey, all, sorted);
    SortedDistinct(IdentityKey, sorted);
    forall v ensures v in sorted <==> v.id in identities && identities[v.id] == v {
      assert v in multiset(sorted) <==> v in multiset(all);
    }
  }

  /** Whatever order the maps are walked in, the result is the one snapshot. */
  method TakeSnapshot(st: StoreState) returns (snapshot: Snapshot)
    requires StoreOk(st)
    ensures IsSnapshot(st, snapshot)
  {
    var identities := CollectIdentities(st.identities);
    SortIdentities(st.identities, identities);
    var events := Concatenate(st.events, EventNum, EventOwner, st.nextEvent);
    var runs := Concatenate(st.runs, RunNum, RunOwner, st.nextRun);
    KeysFollowNumbers();
    SortFlattens(EventNum, EventKey, EventOwner, st.events, events);
    SortFlattens(RunNum, RunKey, RunOwner, st.runs, runs);
    snapshot := Snapshot(Sort(IdentityKey, identities), Sort(EventKey, events), Sort(RunKey, runs), st.nextEvent,
      st.nextRun);
  }

  lemma StrictDistinct<T(!new)>(key: T -> string, s: seq<T>)
    requires StrictlySortedBy(key, s)
    ensures NoDuplicates(s)
  {
    forall i, j | 0 <= i < j < |s| ensures s[i] != s[j] {
      LessIrreflexive(key(s[i]));
    }
  }

  lemma SameElementsEqual<T(!new)>(key: T -> string, a: seq<T>, b: seq<T>)
    requires StrictlySortedBy(key, a) && StrictlySortedBy(key, b)
    requires forall x :: x in a <==> x in b
    ensures a == b
  {
    StrictDistinct(key, a);
    StrictDistinct(key, b);
    EnumerationMultiset(a, b);
    SortUnique(key, a, b);
  }

  /** A state has one snapshot. */
  lemma SnapshotUnique(st: StoreState, a: Snapshot, b: Snapshot)
    requires IsSnapshot(st, a) && IsSnapshot(st, b)
    ensures a == b
  {
    SameElementsEqual(IdentityKey, a.identities, b.identities);
    SameElementsEqual(EventKey, a.events, b.events);
    SameElementsEqual(RunKey, a.runs, b.runs);
  }

  // -------------------------------------------------------------- restoring

  lemma {:induction false} IndexHolds(all: seq<Identity>, id: string)
    ensures id in Index(all) ==> Index(all)[id] in all && Index(all)[id].id == id
  {
    if all != [] {
      var n := |all| - 1;
      IndexHolds(all[..n], id);
      assert all == all[..n] + [all[n]];
    }
  }

  lemma {:induction false} IndexFinds(all: seq<Identity>, v: Identity)
    requires v in all
    ensures v.id in Index(all)
  {
    var n := |all| - 1;
    assert all == all[..n] + [all[n]];
    if v != all[n] { IndexFinds(all[..n], v); }
  }

  lemma IdentitiesRoundTrip(st: StoreState, snapshot: Snapshot)
    requires KeyedById(st.identities) && IsSnapshot(st, snapshot)
    ensures Index(snapshot.identities) == st.identities
  {
    var m := Index(snapshot.identities);
    forall id ensures (id in m <==> id in st.identities) && (id in m ==> m[id] == st.identities[id]) {
      IndexHolds(snapshot.identities, id);
      if id in st.identities { IndexFinds(snapshot.identities, st.identities[id]); }
    }
  }

  /** Projecting a strictly sorted log leaves it strictly sorted. */
  lemma {:induction false} ProjectSorted<T(!new)>(key: T -> string, owner: T -> string, log: seq<T>, id: string)
    requires StrictlySortedBy(key, log)
    ensures StrictlySortedBy(key, Project(owner, log, id))
  {
    if log != [] {
      var n := |log| - 1;
      ProjectSorted(key, owner, log[..n], id);
      ProjectElements(owner, log[..n], id);
      var before, last := Project(owner, log[..n], id), log[n];
      if owner(last) == id {
        forall i | 0 <= i < |before| ensures Less(key(before[i]), key(last)) {
          assert before[i] in log[..n];
          var k :| 0 <= k < n && log[k] == before[i];
        }
      }
    }
  }

  ghost predicate ListReturns<T(!new)>(key: T -> string, m: map<string, seq<T>>, back: map<string, seq<T>>,
      id: string) {
    && (id in back <==> id in m)
    && multiset(Lookup(back, id)) == multiset(Lookup(m, id))
    && (Lookup(back, id) == Lookup(m, id) <==> StrictlySortedBy(key, Lookup(m, id)))
  }

  /** Every list comes back with exactly its records, and in its own order
      exactly when that is the order of the identifiers. */
  lemma ListRoundTrip<T(!new)>(num: T -> nat, key: T -> string, owner: T -> string, counter: nat,
                               m: map<string, seq<T>>, all: seq<T>, id: string)
    requires Filed(num, owner, counter, m) && Flattened(key, owner, m, all)
    ensures ListReturns(key, m, Group(owner, all), id)
  {
    GroupIsProjection(owner, all, id);
    ProjectSorted(key, owner, all, id);
    ProjectElements(owner, all, id);
    var back, list := Project(owner, all, id), Lookup(m, id);
    if id in m { assert ListOk(num, owner, counter, id, m[id]) && m[id][0] in m[id]; }
    assert forall x :: x in back <==> x in list;
    assert NoDuplicates(list) by {
      forall i, j | 0 <= i < j < |list| ensures list[i] != list[j] {
        assert num(list[i]) != num(list[j]);
      }
    }
    StrictDistinct(key, back);
    EnumerationMultiset(back, list);
    if back != [] { assert back[0] in list; }
    if StrictlySortedBy(key, list) { SameElementsEqual(key, back, list); }
  }

  // ------------------------------------------------------------ main results

  /** The numbers in a list sort as strings the way they sort as numbers: no
      number exceeds the leading digits of a later one. */
  ghost predicate SortsAsText<T(!new)>(num: T -> nat, s: seq<T>) {
    forall i, j :: 0 <= i < j < |s| ==> num(s[i]) <= LeadOf(num(s[i]), num(s[j]))
  }

  /** The leading digits of b, as many as a is printed with. */
  function LeadOf(a: nat, b: nat): nat {
    if |Pad3(a)| <= |Pad3(b)| then Lead(b, |Pad3(a)|) else 0
  }

  lemma EventTextOrder(s: seq<Event>)
    requires Increasing(EventNum, s)
    ensures StrictlySortedBy(EventKey, s) <==> SortsAsText(EventNum, s)
  {
    forall i, j | 0 <= i < j < |s|
      ensures Less(EventKey(s[i]), EventKey(s[j])) <==> EventNum(s[i]) <= LeadOf(EventNum(s[i]), EventNum(s[j]))
    {
      assert EventNum(s[i]) < EventNum(s[j]);
      IdOrderExact(s[i].num, s[j].num);
    }
  }

  lemma RunTextOrder(s: seq<Run>)
    requires Increasing(RunNum, s)
    ensures StrictlySortedBy(RunKey, s) <==> SortsAsText(RunNum, s)
  {
    forall i, j | 0 <= i < j < |s|
      ensures Less(RunKey(s[i]), RunKey(s[j])) <==> RunNum(s[i]) <= LeadOf(RunNum(s[i]), RunNum(s[j]))
    {
      assert RunNum(s[i]) < RunNum(s[j]);
      IdOrderExact(s[i].num, s[j].num);
    }
  }

  /** Every list is in the string order of its identifiers. */
  ghost predicate OrderSurvives(st: StoreState) {
    && (forall id :: StrictlySortedBy(EventKey, Lookup(st.events, id)))
    && (forall id :: StrictlySortedBy(RunKey, Lookup(st.runs, id)))
  }

  /** st' is st with every list permuted. */
  ghost predicate SameUpToOrder(st: StoreState, st': StoreState) {
    && st'.identities == st.identities && st'.nextEvent == st.nextEvent && st'.nextRun == st.nextRun
    && st'.sink == st.sink
    && st'.events.Keys == st.events.Keys && st'.runs.Keys == st.runs.Keys
    && (forall id :: multiset(Lookup(st'.events, id)) == multiset(Lookup(st.events, id)))
    && (forall id :: multiset(Lookup(st'.runs, id)) == multiset(Lookup(st.runs, id)))
  }

  /** All lists of one map together. */
  lemma MapRoundTrip<T(!new)>(num: T -> nat, key: T -> string, owner: T -> string, counter: nat,
                              m: map<string, seq<T>>, all: seq<T>)
    requires Filed(num, owner, counter, m) && Flattened(key, owner, m, all)
    ensures var back := Group(owner, all);
            && back.Keys == m.Keys
            && (forall id :: multiset(Lookup(back, id)) == multiset(Lookup(m, id)))
            && (back == m <==> forall id :: StrictlySortedBy(key, Lookup(m, id)))
  {
    var back := Group(owner, all);
    forall id ensures ListReturns(key, m, back, id) { ListRoundTrip(num, key, owner, counter, m, all, id); }
    ListsReturn(key, m, back);
  }

  lemma ListsReturn<T(!new)>(key: T -> string, m: map<string, seq<T>>, back: map<string, seq<T>>)
    requires forall id :: ListReturns(key, m, back, id)
    ensures back.Keys == m.Keys && (forall id :: multiset(Lookup(back, id)) == multiset(Lookup(m, id)))
    ensures back == m <==> forall id :: StrictlySortedBy(key, Lookup(m, id))
  {
    forall id ensures id in back <==> id in m { assert ListReturns(key, m, back, id); }
    forall id ensures multiset(Lookup(back, id)) == multiset(Lookup(m, id)) { assert ListReturns(key, m, back, id); }
    if back == m {
      forall id ensures StrictlySortedBy(key, Lookup(m, id)) { assert ListReturns(key, m, back, id); }
    }
    if forall id :: StrictlySortedBy(key, Lookup(m, id)) {
      forall id ensures Lookup(back, id) == Lookup(m, id) { assert ListReturns(key, m, back, id); }
      MapsAgree(m, back);
    }
  }

  lemma MapsAgree<T>(a: map<string, seq<T>>, b: map<string, seq<T>>)
    requires a.Keys == b.Keys && forall id :: Lookup(a, id) == Lookup(b, id)
    ensures a == b
  {
    forall id | id in a ensures a[id] == b[id] { assert Lookup(a, id) == Lookup(b, id); }
  }

  lemma EventsRoundTrip(st: StoreState, snapshot: Snapshot)
    requires StoreOk(st) && IsSnapshot(st, snapshot)
    ensures var back := Group(EventOwner, snapshot.events);
            && back.Keys == st.events.Keys
            && (forall id :: multiset(Lookup(back, id)) == multiset(Lookup(st.events, id)))
            && (back == st.events <==> forall id :: StrictlySortedBy(EventKey, Lookup(st.events, id)))
  {
    MapRoundTrip(EventNum, EventKey, EventOwner, st.nextEvent, st.events, snapshot.events);
  }

  lemma RunsRoundTrip(st: StoreState, snapshot: Snapshot)
    requires StoreOk(st) && IsSnapshot(st, snapshot)
    ensures var back := Group(RunOwner, snapshot.runs);
            && back.Keys == st.runs.Keys
            && (forall id :: multiset(Lookup(back, id)) == multiset(Lookup(st.runs, id)))
            && (back == st.runs <==> forall id :: StrictlySortedBy(RunKey, Lookup(st.runs, id)))
  {
    MapRoundTrip(RunNum, RunKey, RunOwner, st.nextRun, st.runs, snapshot.runs);
  }

  /** Restoring a snapshot always gives the state back up to the order inside
      the lists, and gives it back exactly if and only if every list is in the
      string order of its identifiers. */
  lemma SnapshotRoundTrip(st: StoreState, snapshot: Snapshot)
    requires StoreOk(st) && IsSnapshot(st, snapshot)
    ensures SameUpToOrder(st, Restore(st, snapshot))
    ensures Restore(st, snapshot) == st <==> OrderSurvives(st)
  {
    IdentitiesRoundTrip(st, snapshot);
    EventsRoundTrip(st, snapshot);
    RunsRoundTrip(st, snapshot);
  }

  /** For lists in the order of their numbers that means that the numbers sort as
      text the way they sort as numbers. */
  lemma OrderSurvivesExactly(st: StoreState)
    requires InOrder(st)
    ensures OrderSurvives(st) <==>
            (forall id :: SortsAsText(EventNum, Lookup(st.events, id)) && SortsAsText(RunNum, Lookup(st.runs, id)))
  {
    forall id
      ensures StrictlySortedBy(EventKey, Lookup(st.events, id)) <==> SortsAsText(EventNum, Lookup(st.events, id))
      ensures StrictlySortedBy(RunKey, Lookup(st.runs, id)) <==> SortsAsText(RunNum, Lookup(st.runs, id))
    {
      assert Increasing(EventNum, EventsOf(st, id)) && Increasing(RunNum, RunsOf(st, id));
      EventTextOrder(Lookup(st.events, id));
      RunTextOrder(Lookup(st.runs, id));
    }
  }

  /** With both counters at most 999 the round trip is exact. */
  lemma SnapshotExactUpTo999(st: StoreState, snapshot: Snapshot)
    requires StoreOk(st) && InOrder(st) && IsSnapshot(st, snapshot) && st.nextEvent <= 999 && st.nextRun <= 999
    ensures Restore(st, snapshot) == st
  {
    forall id ensures SortsAsText(EventNum, Lookup(st.events, id)) && SortsAsText(RunNum, Lookup(st.runs, id)) {
      assert Increasing(EventNum, EventsOf(st, id)) && Increasing(RunNum, RunsOf(st, id));
      if id in st.events {
        assert ListOk(EventNum, EventOwner, st.nextEvent, id, st.events[id]);
        SmallNumbersSort(EventNum, st.events[id]);
      }
      if id in st.runs {
        assert ListOk(RunNum, RunOwner, st.nextRun, id, st.runs[id]);
        SmallNumbersSort(RunNum, st.runs[id]);
      }
    }
    OrderSurvivesExactly(st);
    SnapshotRoundTrip(st, snapshot);
  }

  lemma SmallNumbersSort<T(!new)>(num: T -> nat, s: seq<T>)
    requires Increasing(num, s) && forall x <- s :: num(x) <= 999
    ensures SortsAsText(num, s)
  {
    forall i, j | 0 <= i < j < |s| ensures num(s[i]) <= LeadOf(num(s[i]), num(s[j])) {
      IdOrderExact(num(s[i]), num(s[j]));
      IdOrderUpTo999(num(s[i]), num(s[j]));
    }
  }

  /** 999 is the last such bound: once an identity has events 999 and 1000,
      restoring swaps them. */
  lemma SnapshotOrderLostAt1000(st: StoreState, snapshot: Snapshot, id: string, i: nat)
    requires StoreOk(st) && IsSnapshot(st, snapshot)
    requires i + 1 < |Lookup(st.events, id)|
    requires Lookup(st.events, id)[i].num == 999 && Lookup(st.events, id)[i + 1].num == 1000
    ensures Restore(st, snapshot) != st
  {
    var s := Lookup(st.events, id);
    IdOrderBreaksAt1000();
    LessNotBoth(EventId(1000), EventId(999));
    assert !Less(EventKey(s[i]), EventKey(s[i + 1]));
    EventsRoundTrip(st, snapshot);
  }

  // -------------------------------------------------------- a restored store

  /** Strictly sorted by key means distinct numbers, as numbers determine keys. */
  lemma SortedNumbersDistinct<T(!new)>(num: T -> nat, key: T -> string, s: seq<T>)
    requires StrictlySortedBy(key, s) && forall x, y :: num(x) == num(y) ==> key(x) == key(y)
    ensures Distinct(num, s)
  {
    forall i, j | 0 <= i < j < |s| ensures num(s[i]) != num(s[j]) {
      LessIrreflexive(key(s[i]));
    }
  }

  /** Regrouping a flattened map files its records again, each list sorted by key. */
  lemma RegroupFiled<T(!new)>(num: T -> nat, key: T -> string, owner: T -> string, counter: nat,
                              m: map<string, seq<T>>, all: seq<T>)
    requires Filed(num, owner, counter, m) && Flattened(key, owner, m, all)
    requires forall x, y :: num(x) == num(y) ==> key(x) == key(y)
    ensures Filed(num, owner, counter, Group(owner, all))
    ensures forall id :: StrictlySortedBy(key, Lookup(Group(owner, all), id))
    ensures forall id, x :: x in Lookup(Group(owner, all), id) <==> x in Lookup(m, id)
  {
    var back := Group(owner, all);
    forall id
      ensures StrictlySortedBy(key, Lookup(back, id))
      ensures forall x :: x in Lookup(back, id) <==> x in Lookup(m, id)
      ensures id in back ==> ListOk(num, owner, counter, id, back[id])
    {
      RegroupedList(num, key, owner, counter, m, all, id);
    }
    forall a, b | a in back && b in back && a != b ensures Apart(num, back[a], back[b]) {
      assert back[a][0] in Lookup(m, a) && back[b][0] in Lookup(m, b);
      assert Apart(num, m[a], m[b]);
      forall x, y | x in back[a] && y in back[b] ensures num(x) != num(y) {
        assert x in Lookup(back, a) && y in Lookup(back, b);
      }
    }
  }

  lemma RegroupedList<T(!new)>(num: T -> nat, key: T -> string, owner: T -> string, counter: nat,
                               m: map<string, seq<T>>, all: seq<T>, id: string)
    requires Filed(num, owner, counter, m) && Flattened(key, owner, m, all)
    requires forall x, y :: num(x) == num(y) ==> key(x) == key(y)
    ensures var list := Lookup(Group(owner, all), id);
            && StrictlySortedBy(key, list)
            && (forall x :: x in list <==> x in Lookup(m, id))
            && (id in Group(owner, all) ==> ListOk(num, owner, counter, id, list))
  {
    GroupIsProjection(owner, all, id);
    ProjectSorted(key, owner, all, id);
    ProjectElements(owner, all, id);
    SortedNumbersDistinct(num, key, Project(owner, all, id));
    if id in m { assert ListOk(num, owner, counter, id, m[id]); }
  }

  /** Whatever a restore does to the order of lists, the restored store is sound,
      what was restored is its snapshot, and restoring that again changes nothing. */
  lemma RestoredIsSound(st: StoreState, snapshot: Snapshot)
    requires StoreOk(st) && IsSnapshot(st, snapshot)
    ensures var back := Restore(st, snapshot);
            StoreOk(back) && IsSnapshot(back, snapshot) && Restore(back, snapshot) == back
  {
    var back := Restore(st, snapshot);
    IdentitiesRoundTrip(st, snapshot);
    NumbersGiveKeys();
    RegroupFiled(EventNum, EventKey, EventOwner, st.nextEvent, st.events, snapshot.events);
    RegroupFiled(RunNum, RunKey, RunOwner, st.nextRun, st.runs, snapshot.runs);
    SnapshotOfRestored(st, snapshot);
    SnapshotRoundTrip(back, snapshot);
  }

  lemma NumbersGiveKeys()
    ensures forall x, y :: EventNum(x) == EventNum(y) ==> EventKey(x) == EventKey(y)
    ensures forall x, y :: RunNum(x) == RunNum(y) ==> RunKey(x) == RunKey(y)
  {
  }

  lemma SnapshotOfRestored(st: StoreState, snapshot: Snapshot)
    requires StoreOk(st) && IsSnapshot(st, snapshot) && Index(snapshot.identities) == st.identities
    requires forall id, x :: x in Lookup(Group(EventOwner, snapshot.events), id) <==> x in Lookup(st.events, id)
    requires forall id, x :: x in Lookup(Group(RunOwner, snapshot.runs), id) <==> x in Lookup(st.runs, id)
    ensures IsSnapshot(Restore(st, snapshot), snapshot)
  {
  }
}
