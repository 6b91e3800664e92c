/** Saving under interleaving. Every operation but Provision takes its snapshot
    and stores it while it holds the lock; Provision does so without. */
module Saving {
  import opened Wrappers
  import opened Protocol
  import opened Sections
  import opened Numbered
  import opened StoreInvariants
  import opened Audit
  import opened Machine
  import opened Interleaving
  import opened Persistence
  import Conservation
  import opened Restart

  /** The calls in flight and what the repository holds: `owing` are the Rotates
      with nothing left to do but save; `provisions` the Provisions that have not
      saved yet, with their snapshot once it is taken; `synced` says that the last
      save that was attempted got its snapshot stored. */
  datatype Disk = Disk(
    sys: System, owing: set<nat>, provisions: map<nat, Option<StoreState>>,
    saved: Option<StoreState>, synced: bool)

  /** A section of a call, with the answer to the save it may make under the lock;
      the save that ends a Rotate; the two halves of a Provision's save. */
  datatype Act =
    | Runs(step: Step, save: SaveAnswer)
    | SavesRotation(call: nat, save: SaveAnswer)
    | TakesSnapshot(call: nat)
    | StoresSnapshot(call: nat, save: SaveAnswer)

  /** The section saves before it releases the lock. */
  predicate SavesInside(parse: PeriodParser, sys: System, s: Step)
    requires KeyedById(sys.st.identities)
  {
    match s
    case RegisterNew(req, now) => Register(parse, sys.st, req, now).1.Ok?
    case Rotate(_, req, now, answer, _) => RotateLocked(parse, sys.st, req, now, answer).1.AdapterFailed?
    case Retire(_, req, now, answer) => RetireLocked(sys.st, req, now, answer).1.RetireDone?
    case Proceed(c, vault, _) => Purges(sys, s) || (c in sys.calls && sys.calls[c].Using? && vault.VaultDone?)
    case _ => false
  }

  /** After this section a Rotate has nothing left to do but save. */
  predicate Owes(parse: PeriodParser, d: Disk, s: Step)
    requires KeyedById(d.sys.st.identities)
  {
    match s
    case Rotate(_, req, now, answer, secret) =>
      RotateLocked(parse, d.sys.st, req, now, answer).1.Completed? && !secret
    case Proceed(c, _, _) => c in d.sys.calls && d.sys.calls[c].WritingBack? && c !in d.provisions
    case _ => false
  }

  predicate Possible(parse: PeriodParser, d: Disk, a: Act) {
    match a
    case Runs(s, save) =>
      && Enabled(parse, d.sys, s)
      && (match s
          case RegisterNew(_, _) => true
          case Proceed(_, _, saved) => saved == save.Saved?
          case _ => s.call !in d.owing && s.call !in d.provisions)
    case SavesRotation(c, _) => c in d.owing
    case TakesSnapshot(c) => c in d.provisions && d.provisions[c].None? && c !in d.sys.calls
    case StoresSnapshot(c, _) => c in d.provisions && d.provisions[c].Some?
  }

  /** The repository is handed a snapshot of this state. */
  function Stored(d: Disk, st: StoreState, save: SaveAnswer): Disk {
    if save.SetFailed? then d.(synced := false) else d.(saved := Some(st), synced := true)
  }

  function AfterStep(parse: PeriodParser, d: Disk, s: Step, save: SaveAnswer): Disk
    requires KeyedById(d.sys.st.identities)
  {
    var sys := Next(parse, d.sys, s);
    // a Retire that cannot save returns before it revokes anything
    var abandons := s.Retire? && SavesInside(parse, d.sys, s) && !save.Saved?;
    d.(sys := if abandons then sys.(calls := sys.calls - {s.call}) else sys,
       owing := if Owes(parse, d, s) then d.owing + {s.call} else d.owing,
       provisions := if s.Provision? then d.provisions[s.call := None] else d.provisions)
  }

  function Acted(parse: PeriodParser, d: Disk, a: Act): Disk
    requires KeyedById(d.sys.st.identities)
  {
    if !Possible(parse, d, a) then d
    else match a
      case Runs(s, save) =>
        var after := AfterStep(parse, d, s, save);
        if SavesInside(parse, d.sys, s) then Stored(after, after.sys.st, save) else after
      case SavesRotation(c, save) => Stored(d.(owing := d.owing - {c}), d.sys.st, save)
      case TakesSnapshot(c) => d.(provisions := d.provisions[c := Some(d.sys.st)])
      case StoresSnapshot(c, save) =>
        Stored(d.(provisions := d.provisions - {c}), d.provisions[c].value, save)
  }

  // ------------------------------------------------- what is not saved yet

  ghost predicate Revocations(more: seq<Event>) { forall e <- more :: e.kind == CredentialRevoked && e.run.None? }

  /** The events logged between two states. */
  function Later(saved: StoreState, st: StoreState): seq<Event> {
    if |saved.sink| <= |st.sink| then st.sink[|saved.sink|..] else []
  }

  /** st is saved plus revocation events, each at the end of its identity's list. */
  ghost predicate Since(saved: StoreState, st: StoreState) {
    var more := Later(saved, st);
    && saved.sink <= st.sink && Revocations(more)
    && st.identities == saved.identities && SameRuns(saved, st) && st.nextEvent == saved.nextEvent + |more|
    && (forall a :: EventsOf(st, a) == EventsOf(saved, a) + Conservation.EventsIn(more, a))
  }

  lemma SinceItself(st: StoreState)
    ensures Since(st, st)
  {
    assert Later(st, st) == [];
  }

  lemma ListRevoked(before: seq<Event>, more: seq<Event>, e: Event, a: string)
    ensures before + Conservation.EventsIn(more + [e], a) ==
            if e.identityId == a then (before + Conservation.EventsIn(more, a)) + [e]
            else before + Conservation.EventsIn(more, a)
  {
    assert (more + [e])[..|more|] == more;
    Conservation.Associates(before, Conservation.EventsIn(more, a), [e]);
  }

  lemma SinceNoted(saved: StoreState, st: StoreState, st': StoreState, e: Event)
    requires Since(saved, st) && Noted(st, st', e.identityId, [e])
    requires e.kind == CredentialRevoked && e.run.None? && st'.identities == st.identities
    ensures Since(saved, st')
  {
    var more := Later(saved, st);
    assert Later(saved, st') == more + [e];
    forall a ensures EventsOf(st', a) == EventsOf(saved, a) + Conservation.EventsIn(more + [e], a) {
      ListRevoked(EventsOf(saved, a), more, e, a);
    }
  }

  lemma SinceRevoked(saved: StoreState, st: StoreState, id: string, now: int, answer: VaultAnswer)
    requires Since(saved, st)
    ensures Since(saved, Sections.Revoke(st, id, now, answer))
  {
    if answer.NoVault? { return; }
    var outcome := if answer.VaultDone? then Success else NeedsAttention;
    AddEventNotes(st, id, now, CredentialRevoked, ACTOR_PROVIDER_ADAPTER, outcome);
    SinceNoted(saved, st, Sections.Revoke(st, id, now, answer),
               Event(st.nextEvent + 1, id, CredentialRevoked, ACTOR_PROVIDER_ADAPTER, outcome, now, None));
  }

  // -------------------------------------------------------------- invariant

  /** The call ends with a save of its own. */
  predicate EndsInSave(call: Call) { call.Delivering? || call.Mirroring? || call.WritingBack? }

  /** Some Rotate still has its save to come. */
  ghost predicate Busy(d: Disk) { d.owing != {} || exists c :: c in d.sys.calls && EndsInSave(d.sys.calls[c]) }

  ghost predicate Good(d: Disk) {
    && SystemOk(d.sys)
    && (d.saved.Some? ==> StoreOk(d.saved.value))
    && (d.synced ==> d.saved.Some? && (Busy(d) || Since(d.saved.value, d.sys.st)))
    && (forall c :: c in d.provisions && d.provisions[c].Some? ==>
         StoreOk(d.provisions[c].value) && d.provisions[c].value.sink <= d.sys.st.sink)
  }

  lemma StaysBusy(parse: PeriodParser, d: Disk, s: Step, save: SaveAnswer)
    requires SystemOk(d.sys) && Possible(parse, d, Runs(s, save)) && d.provisions == map[]
    requires Busy(d) || Owes(parse, d, s)
    ensures Busy(AfterStep(parse, d, s, save))
  {
    var after := AfterStep(parse, d, s, save);
    if d.owing == {} && !Owes(parse, d, s) {
      var c :| c in d.sys.calls && EndsInSave(d.sys.calls[c]);
      assert c in after.sys.calls && EndsInSave(after.sys.calls[c]);
    }
  }

  /** With no Rotate on its way to its save, a section that does not save logs
      nothing but revocations. */
  lemma NothingElseLogged(parse: PeriodParser, d: Disk, s: Step, save: SaveAnswer)
    requires SystemOk(d.sys) && Possible(parse, d, Runs(s, save)) && !s.Provision? && d.provisions == map[]
    requires !Busy(d) && !SavesInside(parse, d.sys, s) && !Owes(parse, d, s)
    ensures var after := AfterStep(parse, d, s, save);
            Busy(after) || forall saved :: Since(saved, d.sys.st) ==> Since(saved, after.sys.st)
  {
    var st, after := d.sys.st, AfterStep(parse, d, s, save);
    if s.Rotate? && RotateLocked(parse, st, s.rotation, s.now, s.answer).1.Completed? {
      assert s.call in after.sys.calls && EndsInSave(after.sys.calls[s.call]);
    } else if s.Proceed? && (d.sys.calls[s.call].Revoking? || d.sys.calls[s.call].RevokingCommon?) {
      var call := d.sys.calls[s.call];
      forall saved | Since(saved, st) ensures Since(saved, after.sys.st) {
        SinceRevoked(saved, st, call.identity.id, call.now, s.vault);
      }
    } else {
      assert s.Proceed? ==> !EndsInSave(d.sys.calls[s.call]);
      assert after.sys.st == st;
    }
  }

  lemma StepKeepsGood(parse: PeriodParser, d: Disk, s: Step, save: SaveAnswer)
    requires Good(d) && Possible(parse, d, Runs(s, save)) && !s.Provision? && d.provisions == map[]
    ensures Good(Acted(parse, d, Runs(s, save)))
  {
    StepKeeps(parse, d.sys, s);
    var after := AfterStep(parse, d, s, save);
    assert SystemOk(after.sys);
    if SavesInside(parse, d.sys, s) {
      SinceItself(after.sys.st);
    } else if Busy(d) || Owes(parse, d, s) {
      StaysBusy(parse, d, s, save);
    } else {
      NothingElseLogged(parse, d, s, save);
    }
  }

  /** Without Provisions, the repository is at most revocation events behind
      whenever no Rotate has its save still to come. */
  lemma ActKeepsGood(parse: PeriodParser, d: Disk, a: Act)
    requires Good(d) && d.provisions == map[] && !(a.Runs? && a.step.Provision?)
    ensures Good(Acted(parse, d, a)) && Acted(parse, d, a).provisions == map[]
  {
    if !Possible(parse, d, a) { return; }
    match a
    case Runs(s, save) => StepKeepsGood(parse, d, s, save);
    case SavesRotation(_, _) => SinceItself(d.sys.st);
  }

  lemma ActKeepsSystem(parse: PeriodParser, d: Disk, a: Act)
    requires SystemOk(d.sys)
    ensures SystemOk(Acted(parse, d, a).sys)
  {
    if a.Runs? { StepKeeps(parse, d.sys, a.step); }
  }

  function Perform(parse: PeriodParser, d: Disk, acts: seq<Act>): (end: Disk)
    requires SystemOk(d.sys)
    ensures SystemOk(end.sys)
    decreases |acts|
  {
    if acts == [] then d
    else
      ActKeepsSystem(parse, d, acts[0]);
      Perform(parse, Acted(parse, d, acts[0]), acts[1..])
  }

  ghost predicate NoProvisions(acts: seq<Act>) { forall a <- acts :: !(a.Runs? && a.step.Provision?) }

  lemma {:induction false} RunKeepsGood(parse: PeriodParser, d: Disk, acts: seq<Act>)
    requires Good(d) && d.provisions == map[] && NoProvisions(acts)
    ensures Good(Perform(parse, d, acts)) && Perform(parse, d, acts).provisions == map[]
    decreases |acts|
  {
    if acts != [] {
      assert acts[0] in acts;
      ActKeepsGood(parse, d, acts[0]);
      RunKeepsGood(parse, Acted(parse, d, acts[0]), acts[1..]);
    }
  }

  // ------------------------------------------------------------ main results

  /** A restart brings back st but for these events, up to list order. */
  ghost predicate BringsBack(st: StoreState, back: StoreState, lost: seq<Event>) {
    && back.identities == st.identities && back.nextRun == st.nextRun
    && back.nextEvent + |lost| == st.nextEvent
    && (forall a :: multiset(Lookup(back.runs, a)) == multiset(Lookup(st.runs, a)))
    && (forall a :: multiset(Lookup(st.events, a)) ==
                    multiset(Lookup(back.events, a)) + multiset(Conservation.EventsIn(lost, a)))
  }

  lemma SinceBringsBack(saved: StoreState, st: StoreState, snapshot: Snapshot)
    requires StoreOk(saved) && Since(saved, st) && IsSnapshot(saved, snapshot)
    ensures BringsBack(st, Restore(st, snapshot), Later(saved, st))
  {
    SnapshotRoundTrip(saved, snapshot);
    var back, lost := Restore(saved, snapshot), Later(saved, st);
    forall a
      ensures multiset(Lookup(st.events, a)) ==
              multiset(Lookup(back.events, a)) + multiset(Conservation.EventsIn(lost, a))
    {
      assert Lookup(st.events, a) == Lookup(saved.events, a) + Conservation.EventsIn(lost, a);
      assert multiset(Lookup(back.events, a)) == multiset(Lookup(saved.events, a));
    }
  }

  /** In every interleaving without Provisions, whenever no Rotate has its save
      still to come and the last attempted save was stored, a restart brings back
      exactly the records, the runs and the run counter, and each event list up to
      order and the revocation events logged since that save. */
  lemma RestartUnderInterleaving(parse: PeriodParser, d: Disk, acts: seq<Act>, snapshot: Snapshot)
    requires Good(d) && d.provisions == map[] && NoProvisions(acts)
    requires var end := Perform(parse, d, acts);
             end.synced && !Busy(end) && end.saved.Some? && IsSnapshot(end.saved.value, snapshot)
    ensures var end := Perform(parse, d, acts);
            var lost := Later(end.saved.value, end.sys.st);
            Revocations(lost) && BringsBack(end.sys.st, Restore(end.sys.st, snapshot), lost)
  {
    RunKeepsGood(parse, d, acts);
    var end := Perform(parse, d, acts);
    SinceBringsBack(end.saved.value, end.sys.st, snapshot);
  }

  // ------------------------------------------------------- Provisions in flight

  /** Nothing is in flight but Provisions that still have to save. */
  ghost predicate OnlyProvisions(d: Disk) { d.sys.calls == map[] && d.owing == {} }

  ghost predicate AtRest(d: Disk) { OnlyProvisions(d) && d.provisions == map[] }

  /** These acts end at rest with everything saved but revocations, if they end at
      rest with the last save stored. */
  ghost predicate EndsSaved(parse: PeriodParser, d: Disk, acts: seq<Act>)
    requires SystemOk(d.sys)
  {
    var end := Perform(parse, d, acts);
    AtRest(end) && end.synced ==> end.saved.Some? && Since(end.saved.value, end.sys.st)
  }

  lemma PerformCons(parse: PeriodParser, d: Disk, a: Act, rest: seq<Act>)
    requires SystemOk(d.sys)
    ensures SystemOk(Acted(parse, d, a).sys)
    ensures Perform(parse, d, [a] + rest) == Perform(parse, Acted(parse, d, a), rest)
  {
    ActKeepsSystem(parse, d, a);
    assert ([a] + rest)[1..] == rest;
  }

  ghost function Untaken(d: Disk): set<nat> { set k | k in d.provisions && d.provisions[k].None? }

  function NextSave(d: Disk, k: nat): Act
    requires k in d.provisions
  {
    if d.provisions[k].None? then TakesSnapshot(k) else StoresSnapshot(k, Saved)
  }

  lemma SaveAdvances(parse: PeriodParser, d: Disk, k: nat)
    requires SystemOk(d.sys) && OnlyProvisions(d) && k in d.provisions
    ensures var d' := Acted(parse, d, NextSave(d, k));
            && d'.sys == d.sys && d'.owing == d.owing
            && (if d.provisions[k].None? then
                  d'.provisions == d.provisions[k := Some(d.sys.st)] && Untaken(d') < Untaken(d)
                else d'.provisions == d.provisions - {k} && d'.saved == d.provisions[k] && d'.synced)
  {
    if d.provisions[k].None? {
      assert k in Untaken(d);
      assert Untaken(Acted(parse, d, TakesSnapshot(k))) == Untaken(d) - {k};
    }
  }

  /** All Provisions save, this one last. */
  lemma {:induction false} SavesLast(parse: PeriodParser, d: Disk, c: nat) returns (acts: seq<Act>)
    requires SystemOk(d.sys) && OnlyProvisions(d)
    requires c in d.provisions && d.provisions[c].Some?
    ensures NoProvisions(acts)
    ensures var end := Perform(parse, d, acts);
            AtRest(end) && end.sys == d.sys && end.synced && end.saved == d.provisions[c]
    decreases |d.provisions|, Untaken(d)
  {
    if k :| k in d.provisions && k != c {
      var next := NextSave(d, k);
      SaveAdvances(parse, d, k);
      var rest := SavesLast(parse, Acted(parse, d, next), c);
      acts := [next] + rest;
      PerformCons(parse, d, next, rest);
    } else {
      var last := NextSave(d, c);
      SaveAdvances(parse, d, c);
      acts := [last] + [];
      PerformCons(parse, d, last, []);
      assert d.provisions - {c} == map[];
    }
  }

  /** The snapshot of a Provision, taken now at the latest. */
  lemma TakenNow(parse: PeriodParser, d: Disk, c: nat) returns (acts: seq<Act>)
    requires SystemOk(d.sys) && OnlyProvisions(d) && c in d.provisions
    requires d.provisions[c].Some? ==> d.provisions[c].value.sink <= d.sys.st.sink
    ensures NoProvisions(acts)
    ensures var taken := Perform(parse, d, acts);
            && taken.sys == d.sys && taken.owing == d.owing && c in taken.provisions && taken.provisions[c].Some?
            && taken.provisions[c].value.sink <= d.sys.st.sink
  {
    if d.provisions[c].Some? { return []; }
    SaveAdvances(parse, d, c);
    acts := [TakesSnapshot(c)] + [];
    PerformCons(parse, d, TakesSnapshot(c), []);
  }

  lemma RegistrationLogged(parse: PeriodParser, d: Disk, req: RegisterRequest, now: int)
    requires SystemOk(d.sys) && OnlyProvisions(d) && Register(parse, d.sys.st, req, now).1.Ok?
    ensures var after := Acted(parse, d, Runs(RegisterNew(req, now), Saved));
            && OnlyProvisions(after) && after.provisions == d.provisions
            && |after.sys.st.sink| == |d.sys.st.sink| + 1 && d.sys.st.sink <= after.sys.st.sink
            && after.sys.st.sink[|d.sys.st.sink|].kind == IdentityRegistered
  {
  }

  lemma NotSince(saved: StoreState, st: StoreState, i: nat)
    requires |saved.sink| <= i < |st.sink| && st.sink[i].kind == IdentityRegistered
    ensures !Since(saved, st)
  {
    assert st.sink[i] == Later(saved, st)[i - |saved.sink|];
  }

  /** A registration that was saved is overwritten by an older snapshot. */
  lemma Overwritten(parse: PeriodParser, d: Disk, c: nat, req: RegisterRequest, now: int) returns (acts: seq<Act>)
    requires SystemOk(d.sys) && OnlyProvisions(d) && c in d.provisions && d.provisions[c].Some?
    requires d.provisions[c].value.sink <= d.sys.st.sink
    requires Register(parse, d.sys.st, req, now).1.Ok?
    ensures NoProvisions(acts) && !EndsSaved(parse, d, acts)
  {
    var registers := Runs(RegisterNew(req, now), Saved);
    RegistrationLogged(parse, d, req, now);
    ActKeepsSystem(parse, d, registers);
    var after := Acted(parse, d, registers);
    var rest := SavesLast(parse, after, c);
    acts := [registers] + rest;
    PerformCons(parse, d, registers, rest);
    NotSince(d.provisions[c].value, after.sys.st, |d.sys.st.sink|);
  }

  lemma {:induction false} PerformJoined(parse: PeriodParser, d: Disk, a: seq<Act>, b: seq<Act>)
    requires SystemOk(d.sys)
    ensures Perform(parse, d, a + b) == Perform(parse, Perform(parse, d, a), b)
    decreases |a|
  {
    if a == [] {
      assert a + b == b;
    } else {
      assert (a + b)[1..] == a[1..] + b;
      ActKeepsSystem(parse, d, a[0]);
      PerformJoined(parse, Acted(parse, d, a[0]), a[1..], b);
    }
  }

  /** From a state with nothing but Provisions in flight, every interleaving without
      a new Provision that comes to rest with its last save stored has everything
      saved, revocation events aside, if and only if no Provision has its save still
      to come: one that has can put its older snapshot over a newer one. */
  lemma SavedUnlessProvisioning(parse: PeriodParser, d: Disk, req: RegisterRequest, now: int)
    requires Good(d) && OnlyProvisions(d) && Register(parse, d.sys.st, req, now).1.Ok?
    ensures (forall acts :: NoProvisions(acts) ==> EndsSaved(parse, d, acts)) <==> d.provisions == map[]
  {
    if d.provisions == map[] {
      forall acts | NoProvisions(acts) ensures EndsSaved(parse, d, acts) { RunKeepsGood(parse, d, acts); }
    } else {
      var c :| c in d.provisions;
      var first := TakenNow(parse, d, c);
      var taken := Perform(parse, d, first);
      var rest := Overwritten(parse, taken, c, req, now);
      PerformJoined(parse, d, first, rest);
      assert !EndsSaved(parse, d, first + rest);
    }
  }
}
