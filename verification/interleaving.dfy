/** What every step of every interleaving keeps. */
module Interleaving {
  import opened Wrappers
  import opened Protocol
  import opened Sections
  import opened Numbered
  import opened StoreInvariants
  import opened Audit
  import opened Machine

  // ---------------------------------------------------- what a step changes

  /** What a step did to the log. */
  datatype Change =
    | Quiet
    | Note(id: string, more: seq<Event>)
    | NewRotation(id: string, run: Run, trail: seq<Event>)
    | Deletion(id: string, more: seq<Event>)

  ghost predicate SameLog(st: StoreState, st': StoreState) {
    && st'.events == st.events && st'.sink == st.sink && st'.nextEvent == st.nextEvent
    && SameRuns(st, st')
  }

  ghost predicate Changes(st: StoreState, st': StoreState, change: Change) {
    match change
    case Quiet => SameLog(st, st')
    case Note(id, more) => Noted(st, st', id, more)
    case NewRotation(id, run, trail) => Rotation(st, st', id, run, trail)
    case Deletion(id, more) =>
      var noted := Recorded(st, id, more);
      Noted(st, noted, id, more) && st' == Purge(noted, id)
  }

  /** st with `more` appended to one list. */
  function Recorded(st: StoreState, id: string, more: seq<Event>): StoreState {
    st.(events := st.events[id := EventsOf(st, id) + more], sink := st.sink + more, nextEvent := st.nextEvent + |more|)
  }

  lemma AddEventNotes(st: StoreState, id: string, at: int, kind: EventType, actor: string, outcome: Outcome)
    ensures Noted(st, AddEvent(st, id, at, kind, actor, outcome, None), id,
                  [Event(st.nextEvent + 1, id, kind, actor, outcome, at, None)])
  {
  }

  lemma VaultEventChanges(st: StoreState, id: string, kind: EventType, now: int, answer: VaultAnswer)
      returns (change: Change)
    ensures Changes(st, VaultEvent(st, id, kind, now, answer), change) && !change.Deletion?
    ensures VaultEvent(st, id, kind, now, answer).identities == st.identities
  {
    if answer.NoVault? { return Quiet; }
    var outcome := if answer.VaultDone? then Success else NeedsAttention;
    AddEventNotes(st, id, now, kind, ACTOR_PROVIDER_ADAPTER, outcome);
    change := Note(id, [Event(st.nextEvent + 1, id, kind, ACTOR_PROVIDER_ADAPTER, outcome, now, None)]);
  }

  lemma AdoptChanges(st: StoreState, identity: Identity, now: int, registrar: string) returns (change: Change)
    ensures Changes(st, Adopt(st, identity, now, registrar), change) && !change.Deletion?
    ensures Adopt(st, identity, now, registrar).identities == st.identities[identity.id := identity]
  {
    var id, put := identity.id, Put(st, identity.id, identity);
    var found := AddEvent(put, id, now, IdentityDiscovered, ACTOR_DISCOVERY, Success, None);
    var e1 := Event(st.nextEvent + 1, id, IdentityDiscovered, ACTOR_DISCOVERY, Success, now, None);
    var e2 := Event(st.nextEvent + 2, id, IdentityRegistered, registrar, Success, now, None);
    AddEventNotes(put, id, now, IdentityDiscovered, ACTOR_DISCOVERY, Success);
    AddEventNotes(found, id, now, IdentityRegistered, registrar, Success);
    AppendsTwice(put, found, Adopt(st, identity, now, registrar), id, [e1], [e2]);
    assert [e1] + [e2] == [e1, e2];
    change := Note(id, [e1, e2]);
  }

  lemma DeleteFinalChanges(st: StoreState, req: DeleteRequest, identity: Identity, now: int) returns (change: Change)
    requires req.id in st.identities
    ensures Changes(st, DeleteFinal(st, req, identity, now).0, change)
    ensures change.Deletion? && change.id == identity.id && |change.more| == 1
    ensures DeleteFinal(st, req, identity, now).0.identities == st.identities - {identity.id}
    ensures DeleteFinal(st, req, identity, now).1 == Ok(EventsOf(st, identity.id) + change.more)
  {
    var e := Event(st.nextEvent + 1, identity.id, IdentityDeleted, OrDefault(req.requestedBy, ACTOR_OPERATOR),
      Success, now, None);
    AddEventNotes(st, identity.id, now, IdentityDeleted, OrDefault(req.requestedBy, ACTOR_OPERATOR), Success);
    change := Deletion(identity.id, [e]);
  }

  /** Every step is one of four kinds of change to the log. */
  lemma StepChanges(parse: PeriodParser, sys: System, s: Step) returns (change: Change)
    requires KeyedById(sys.st.identities)
    ensures Changes(sys.st, Next(parse, sys, s).st, change)
    ensures change.Deletion? <==> Purges(sys, s)
    ensures change.Deletion? ==> change.id == sys.calls[s.call].identity.id && |change.more| == 1
  {
    var st := sys.st;
    if !Enabled(parse, sys, s) { return Quiet; }
    match s {
      case Provision(_, identity, now, requestedBy, _) =>
        change := AdoptChanges(st, Provisioned(identity, now), now, requestedBy);
      case RegisterNew(req, now) =>
        change := RegisterChanges(parse, st, req, now);
      case Rotate(_, req, now, answer, _) =>
        change := RotateChanges(parse, st, req, now, answer);
      case Retire(_, req, now, answer) =>
        change := RetireChanges(st, req, now, answer);
      case Delete(_, _, _) => change := Quiet;
      case Use(_, _, _) => change := Quiet;
      case Proceed(call, vault, _) =>
        change := SectionChanges(sys.st, sys.calls[call], vault);
    }
  }

  lemma RegisterChanges(parse: PeriodParser, st: StoreState, req: RegisterRequest, now: int) returns (change: Change)
    ensures Changes(st, Register(parse, st, req, now).0, change) && !change.Deletion?
  {
    change := Quiet;
    if RegisterConforms(parse, req) && RegisteredId(req) !in st.identities {
      var identity, actor := RegisteredIdentity(parse, req, now), OrDefault(req.requestedBy, ACTOR_CONTROL_PLANE);
      AddEventNotes(Put(st, identity.id, identity), identity.id, now, IdentityRegistered, actor, Success);
      change := Note(identity.id,
        [Event(st.nextEvent + 1, identity.id, IdentityRegistered, actor, Success, now, None)]);
    }
  }

  lemma RotateChanges(parse: PeriodParser, st: StoreState, req: RotateRequest, now: int, answer: AdapterAnswer)
    returns (change: Change)
    requires KeyedById(st.identities)
    ensures Changes(st, RotateLocked(parse, st, req, now, answer).0, change) && !change.Deletion?
  {
    change := Quiet;
    if RotationRefusal(st, req).None? && !req.dryRun {
      RotateEffect(parse, st, req, now, answer);
      change := NewRotation(req.id, FinalRun(parse, st, req, now, answer), TrailOf(st, req, now, answer));
    }
  }

  lemma RetireChanges(st: StoreState, req: RetireRequest, now: int, answer: AdapterAnswer) returns (change: Change)
    ensures Changes(st, RetireLocked(st, req, now, answer).0, change) && !change.Deletion?
  {
    change := Quiet;
    if RetireLocked(st, req, now, answer).1.RetireDone? {
      var retired, actor := RetiredRecord(answer.identity, req.id, now), OrDefault(req.requestedBy, ACTOR_OPERATOR);
      AddEventNotes(Put(st, req.id, retired), req.id, now, IdentityRetired, actor, Success);
      change := Note(req.id, [Event(st.nextEvent + 1, req.id, IdentityRetired, actor, Success, now, None)]);
    }
  }

  lemma SectionChanges(st: StoreState, call: Call, vault: VaultAnswer) returns (change: Change)
    ensures Changes(st, Section(st, call, vault), change)
    ensures change.Deletion? <==> call.Deleting? && call.req.id in st.identities
    ensures change.Deletion? ==> change.id == call.identity.id && |change.more| == 1
  {
    change := Quiet;
    match call {
      case Delivering(identity, now) => change := VaultEventChanges(st, identity.id, CredentialDelivered, now, vault);
      case Mirroring(identity, now, _) => change := VaultEventChanges(st, identity.id, CredentialDelivered, now, vault);
      case WritingBack(_, _, _, _) =>
      case Revoking(identity, now, _) => change := VaultEventChanges(st, identity.id, CredentialRevoked, now, vault);
      case RevokingCommon(identity, now, _) =>
        change := VaultEventChanges(st, identity.id, CredentialRevoked, now, vault);
      case Deleting(identity, now, req) =>
        if req.id in st.identities { change := DeleteFinalChanges(st, req, identity, now); }
      case Using(id, now, requestedBy) =>
        if vault.VaultDone? { change := UseChanges(st, id, requestedBy, now); }
    }
  }

  lemma UseChanges(st: StoreState, id: string, requestedBy: string, now: int) returns (change: Change)
    ensures Changes(st, RecordUse(st, id, requestedBy, now), change) && change.Note?
  {
    var actor := OrDefault(requestedBy, ACTOR_OPERATOR);
    AddEventNotes(st, id, now, CredentialUsed, actor, Success);
    change := Note(id, [Event(st.nextEvent + 1, id, CredentialUsed, actor, Success, now, None)]);
  }

  // -------------------------------------------------------------- invariant

  /** Copies waiting to be written back are active; records waiting to be purged are retired. */
  ghost predicate CallOk(call: Call) {
    match call
    case Delivering(identity, _) => identity.state == Active
    case Mirroring(identity, _, _) => identity.state == Active
    case WritingBack(identity, _, _, _) => identity.state == Active
    case Revoking(identity, _, ForDelete(req)) => identity.state == Retired && identity.id == req.id
    case RevokingCommon(identity, _, ForDelete(req)) => identity.state == Retired && identity.id == req.id
    case Deleting(identity, _, req) => identity.state == Retired && identity.id == req.id
    case _ => true
  }

  ghost predicate SystemOk(sys: System) {
    && StoreOk(sys.st)
    && (forall c :: c in sys.calls ==> CallOk(sys.calls[c]))
  }

  /** The lists are in order and every rotation has its trail. This is kept too,
      but unlike `SystemOk` it does not survive every restore. */
  ghost predicate TrailsOk(st: StoreState) { InOrder(st) && AuditShape(st) }

  lemma ChangeKeepsLists(st: StoreState, st': StoreState, change: Change)
    requires ListsOk(st) && Changes(st, st', change)
    ensures ListsOk(st')
  {
    match change
    case Quiet =>
    case Note(id, more) => AppendsKeeps(st, st', id, more);
    case NewRotation(id, run, trail) => RotationKeeps(st, st', id, run, trail);
    case Deletion(id, more) => AppendsKeeps(st, Recorded(st, id, more), id, more);
  }

  lemma ChangeKeepsOrder(st: StoreState, st': StoreState, change: Change)
    requires ListsOk(st) && InOrder(st) && Changes(st, st', change)
    ensures InOrder(st')
  {
    match change
    case Quiet => SameListsInOrder(st, st');
    case Note(id, more) => AppendsInOrder(st, st', id, more);
    case NewRotation(id, run, trail) => RotationInOrder(st, st', id, run, trail);
    case Deletion(id, more) =>
      var noted := Recorded(st, id, more);
      AppendsInOrder(st, noted, id, more);
      PurgeInOrder(noted, id);
  }

  lemma SameListsInOrder(st: StoreState, st': StoreState)
    requires InOrder(st) && SameLog(st, st')
    ensures InOrder(st')
  {
    forall a ensures Increasing(EventNum, EventsOf(st', a)) && Increasing(RunNum, RunsOf(st', a)) {
      assert Increasing(EventNum, EventsOf(st, a)) && Increasing(RunNum, RunsOf(st, a));
    }
  }

  lemma PurgeInOrder(st: StoreState, id: string)
    requires InOrder(st)
    ensures InOrder(Purge(st, id))
  {
    var st' := Purge(st, id);
    forall a ensures Increasing(EventNum, EventsOf(st', a)) && Increasing(RunNum, RunsOf(st', a)) {
      if a != id { assert Increasing(EventNum, EventsOf(st, a)) && Increasing(RunNum, RunsOf(st, a)); }
    }
  }

  lemma ChangeKeepsShape(st: StoreState, st': StoreState, change: Change)
    requires ListsOk(st) && AuditShape(st) && Changes(st, st', change)
    ensures AuditShape(st')
  {
    match change
    case Quiet =>
      forall a ensures ListShape(EventsOf(st', a), RunsOf(st', a)) { assert ListShape(EventsOf(st, a), RunsOf(st, a)); }
    case Note(id, more) => NotedKeepsShape(st, st', id, more);
    case NewRotation(id, run, trail) => RotationKeepsShape(st, st', id, run, trail);
    case Deletion(id, more) =>
      var noted := Recorded(st, id, more);
      NotedKeepsShape(st, noted, id, more);
      PurgeKeepsShape(noted, id);
  }

  lemma ChangeKeepsTrails(st: StoreState, st': StoreState, change: Change)
    requires ListsOk(st) && TrailsOk(st) && Changes(st, st', change)
    ensures TrailsOk(st')
  {
    ChangeKeepsOrder(st, st', change);
    ChangeKeepsShape(st, st', change);
  }

  // ---------------------------------------------- what a step does to records

  /** The one record a step writes or removes. */
  datatype Write = Nothing | Stores(record: Identity) | Removes(id: string)

  function WriteOf(parse: PeriodParser, sys: System, s: Step): Write
    requires KeyedById(sys.st.identities)
  {
    var st := sys.st;
    if !Enabled(parse, sys, s) then Nothing
    else match s
      case Provision(_, identity, now, _, _) => Stores(Provisioned(identity, now))
      case RegisterNew(req, now) =>
        var r := Register(parse, st, req, now).1;
        if r.Ok? then Stores(r.value) else Nothing
      case Rotate(_, req, now, answer, _) => RotateWrite(parse, st, req, now, answer)
      case Retire(_, req, now, answer) =>
        var r := RetireLocked(st, req, now, answer).1;
        if r.RetireDone? then Stores(r.identity) else Nothing
      case Proceed(call, _, _) => SectionWrite(st, sys.calls[call])
      case _ => Nothing
  }

  function SectionWrite(st: StoreState, call: Call): Write {
    match call
    case WritingBack(identity, now, native, common) =>
      if native.VaultDone? || common.VaultDone? then Stores(Sections.Delivered(identity, native, common, now))
      else Nothing
    case Deleting(identity, _, req) => if req.id in st.identities then Removes(identity.id) else Nothing
    case _ => Nothing
  }

  function RotateWrite(parse: PeriodParser, st: StoreState, req: RotateRequest, now: int, answer: AdapterAnswer): Write
    requires KeyedById(st.identities)
  {
    if RotationRefusal(st, req).Some? || req.dryRun then Nothing
    else Stores(match answer
                case AdapterError(_, _) => FailedRecord(st.identities[req.id])
                case View(view) => Rotated(parse, st.identities[req.id], view, req.id, now))
  }

  function Written(identities: map<string, Identity>, write: Write): map<string, Identity> {
    match write
    case Nothing => identities
    case Stores(record) => identities[record.id := record]
    case Removes(id) => identities - {id}
  }

  lemma StepWrites(parse: PeriodParser, sys: System, s: Step)
    requires KeyedById(sys.st.identities)
    ensures Next(parse, sys, s).st.identities == Written(sys.st.identities, WriteOf(parse, sys, s))
  {
    if !Enabled(parse, sys, s) { return; }
    match s {
      case Provision(_, identity, now, requestedBy, _) =>
        var change := AdoptChanges(sys.st, Provisioned(identity, now), now, requestedBy);
      case Rotate(_, req, now, answer, _) => RotateWrites(parse, sys.st, req, now, answer);
      case Proceed(call, vault, _) => SectionWrites(sys.st, sys.calls[call], vault);
      case _ =>
    }
  }

  lemma RotateWrites(parse: PeriodParser, st: StoreState, req: RotateRequest, now: int, answer: AdapterAnswer)
    requires KeyedById(st.identities)
    ensures RotateLocked(parse, st, req, now, answer).0.identities
      == Written(st.identities, RotateWrite(parse, st, req, now, answer))
  {
    if RotationRefusal(st, req).None? && !req.dryRun {
      var identity, operator := st.identities[req.id], OrDefault(req.requestedBy, ACTOR_OPERATOR);
      StartEffect(st, identity, operator, now);
      var started, run := StartRotation(st, identity, operator, now), FinalRun(parse, st, req, now, answer);
      var record := RotateWrite(parse, st, req, now, answer).record;
      FinishEffect(started, record, run, if answer.View? then RotationCompleted else RotationFailed,
                   if answer.View? then Success else Failure, now);
    }
  }

  lemma SectionWrites(st: StoreState, call: Call, vault: VaultAnswer)
    ensures Section(st, call, vault).identities == Written(st.identities, SectionWrite(st, call))
  {
  }

  /** Every record a step stores is keyed by its id and active or retired. */
  lemma WriteOk(parse: PeriodParser, sys: System, s: Step)
    requires KeyedById(sys.st.identities) && forall c :: c in sys.calls ==> CallOk(sys.calls[c])
    ensures var w := WriteOf(parse, sys, s); w.Stores? ==> w.record.state == Active || w.record.state == Retired
  {
    if s.Proceed? && s.call in sys.calls { assert CallOk(sys.calls[s.call]); }
  }

  lemma OpenedOk(parse: PeriodParser, sys: System, s: Step)
    requires KeyedById(sys.st.identities) && Opened(parse, sys, s).Some?
    ensures CallOk(Opened(parse, sys, s).value)
  {
  }

  lemma StepKeepsCalls(parse: PeriodParser, sys: System, s: Step)
    requires KeyedById(sys.st.identities) && Enabled(parse, sys, s)
    requires forall c :: c in sys.calls ==> CallOk(sys.calls[c])
    ensures forall c :: c in CallsAfter(parse, sys, s) ==> CallOk(CallsAfter(parse, sys, s)[c])
  {
    if s.Proceed? {
      assert CallOk(sys.calls[s.call]);
    } else if !s.RegisterNew? && Opened(parse, sys, s).Some? {
      OpenedOk(parse, sys, s);
    }
  }

  lemma WrittenOk(st: StoreState, st': StoreState, w: Write)
    requires RecordsOk(st) && st'.identities == Written(st.identities, w)
    requires w.Stores? ==> w.record.state == Active || w.record.state == Retired
    ensures RecordsOk(st')
  {
  }

  lemma StepKeepsRecords(parse: PeriodParser, sys: System, s: Step)
    requires RecordsOk(sys.st) && forall c :: c in sys.calls ==> CallOk(sys.calls[c])
    ensures RecordsOk(Next(parse, sys, s).st)
  {
    StepWrites(parse, sys, s);
    WriteOk(parse, sys, s);
    WrittenOk(sys.st, Next(parse, sys, s).st, WriteOf(parse, sys, s));
  }

  lemma StepKeeps(parse: PeriodParser, sys: System, s: Step)
    requires SystemOk(sys)
    ensures SystemOk(Next(parse, sys, s))
  {
    if Enabled(parse, sys, s) {
      var change := StepChanges(parse, sys, s);
      ChangeKeepsLists(sys.st, Next(parse, sys, s).st, change);
      StepKeepsRecords(parse, sys, s);
      StepKeepsCalls(parse, sys, s);
    }
  }

  // ------------------------------------------------------------------- runs

  /** A whole interleaving. */
  function Execute(parse: PeriodParser, sys: System, steps: seq<Step>): System
    requires SystemOk(sys)
    ensures SystemOk(Execute(parse, sys, steps))
    decreases |steps|
  {
    if steps == [] then sys
    else
      StepKeeps(parse, sys, steps[0]);
      Execute(parse, Next(parse, sys, steps[0]), steps[1..])
  }

  /** A store that has just been created or restored, with nothing in flight. */
  ghost predicate Initial(sys: System) {
    && StoreOk(sys.st) && sys.st.sink == []
    && sys.calls == map[] && sys.finished == [] && sys.marks == map[] && sys.purged == 0
  }

  lemma StepKeepsTrails(parse: PeriodParser, sys: System, s: Step)
    requires SystemOk(sys) && TrailsOk(sys.st)
    ensures TrailsOk(Next(parse, sys, s).st)
  {
    var change := StepChanges(parse, sys, s);
    ChangeKeepsTrails(sys.st, Next(parse, sys, s).st, change);
  }

  lemma {:induction false} ExecuteKeepsTrails(parse: PeriodParser, sys: System, steps: seq<Step>)
    requires SystemOk(sys) && TrailsOk(sys.st)
    ensures TrailsOk(Execute(parse, sys, steps).st)
    decreases |steps|
  {
    if steps != [] {
      StepKeeps(parse, sys, steps[0]);
      StepKeepsTrails(parse, sys, steps[0]);
      ExecuteKeepsTrails(parse, Next(parse, sys, steps[0]), steps[1..]);
    }
  }

  /** The run is finished, its list is in order, and the events naming it, in
      whatever list, are its three adjacent ones. */
  ghost predicate RunAudited(st: StoreState, id: string, run: Run) {
    && Finished(run) && HasShape(EventsOf(st, id), run)
    && Increasing(EventNum, EventsOf(st, id))
    && (forall other, j: nat :: j < |EventsOf(st, other)| && EventsOf(st, other)[j].run == Some(run.num) ==>
         other == id && exists i: nat :: ShapeAt(EventsOf(st, id), i, run) && i <= j < i + 3)
  }

  lemma TrailsAudited(st: StoreState, id: string, run: Run)
    requires ListsOk(st) && TrailsOk(st) && run in RunsOf(st, id)
    ensures RunAudited(st, id, run)
  {
    assert ListShape(EventsOf(st, id), RunsOf(st, id));
    forall other, j: nat | j < |EventsOf(st, other)| && EventsOf(st, other)[j].run == Some(run.num)
      ensures other == id && exists i: nat :: ShapeAt(EventsOf(st, id), i, run) && i <= j < i + 3
    {
      ShapeIsGlobal(st, id, run, other, j);
    }
  }

  /** Audit shape in every reachable state of every interleaving. */
  lemma RotationAuditShape(parse: PeriodParser, sys: System, steps: seq<Step>, id: string, run: Run)
    requires SystemOk(sys) && TrailsOk(sys.st)
    requires run in RunsOf(Execute(parse, sys, steps).st, id)
    ensures RunAudited(Execute(parse, sys, steps).st, id, run)
  {
    ExecuteKeepsTrails(parse, sys, steps);
    TrailsAudited(Execute(parse, sys, steps).st, id, run);
  }
}
