/** What every lock-protected section keeps. */
module StoreInvariants {
  import opened Wrappers
  import opened Protocol
  import opened Sections
  import opened Numbered

  function EventNum(e: Event): nat { e.num }
  function EventOwner(e: Event): string { e.identityId }
  function RunNum(r: Run): nat { r.num }
  function RunOwner(r: Run): string { r.identityId }

  /** Records are keyed by id and none is left renewing. */
  ghost predicate RecordsOk(st: StoreState) {
    && KeyedById(st.identities)
    && (forall id :: id in st.identities ==> st.identities[id].state == Active || st.identities[id].state == Retired)
  }

  /** Events and runs are each filed under their identity with unique numbers. */
  ghost predicate ListsOk(st: StoreState) {
    && Filed(EventNum, EventOwner, st.nextEvent, st.events)
    && Filed(RunNum, RunOwner, st.nextRun, st.runs)
  }

  /** Every list is in the order of its numbers. A restore can lose this, and
      nothing else of what is kept here. */
  ghost predicate InOrder(st: StoreState) {
    forall id :: Increasing(EventNum, EventsOf(st, id)) && Increasing(RunNum, RunsOf(st, id))
  }

  ghost predicate StoreOk(st: StoreState) { RecordsOk(st) && ListsOk(st) }

  lemma EmptyOk()
    ensures StoreOk(EMPTY) && InOrder(EMPTY)
  {
  }

  // ------------------------------------------------------------- primitives

  /** st' is st with the events `more` appended to one identity's list and to
      the sink, and nothing else in the event log changed. */
  ghost predicate Appends(st: StoreState, st': StoreState, id: string, more: seq<Event>) {
    && more != []
    && st'.events == st.events[id := EventsOf(st, id) + more]
    && st'.sink == st.sink + more
    && st'.nextEvent == st.nextEvent + |more|
    && NextFor(EventNum, EventOwner, st.nextEvent, id, more)
  }

  ghost predicate SameRuns(st: StoreState, st': StoreState) {
    st'.runs == st.runs && st'.nextRun == st.nextRun
  }

  /** Appending keeps the lists in order. */
  lemma AppendsKeeps(st: StoreState, st': StoreState, id: string, more: seq<Event>)
    requires ListsOk(st) && Appends(st, st', id, more) && SameRuns(st, st')
    ensures ListsOk(st')
  {
    FiledAppend(EventNum, EventOwner, st.nextEvent, st.events, id, more);
  }

  lemma AppendsInOrder(st: StoreState, st': StoreState, id: string, more: seq<Event>)
    requires ListsOk(st) && InOrder(st) && Appends(st, st', id, more) && SameRuns(st, st')
    ensures InOrder(st')
  {
    assert Increasing(EventNum, EventsOf(st, id));
    ListAppendInOrder(EventNum, EventOwner, st.nextEvent, id, EventsOf(st, id), more);
    forall a ensures Increasing(EventNum, EventsOf(st', a)) && Increasing(RunNum, RunsOf(st', a)) {
      assert Increasing(EventNum, EventsOf(st, a)) && Increasing(RunNum, RunsOf(st, a));
    }
  }

  lemma AppendsTwice(a: StoreState, b: StoreState, c: StoreState, id: string, x: seq<Event>, y: seq<Event>)
    requires Appends(a, b, id, x) && Appends(b, c, id, y)
    ensures Appends(a, c, id, x + y)
  {
    assert EventsOf(b, id) == EventsOf(a, id) + x;
    assert EventsOf(a, id) + x + y == EventsOf(a, id) + (x + y);
    assert a.sink + x + y == a.sink + (x + y);
  }

  // ---------------------------------------------------------------- rotation

  /** The terminal event's type for a run's final status. */
  function TerminalType(status: RunStatus): Option<EventType> {
    match status
    case Succeeded => Some(RotationCompleted)
    case FailedRun => Some(RotationFailed)
    case _ => None
  }

  /** Everything a started rotation leaves behind: one finished run and exactly
      its three events, in one piece. */
  ghost predicate Rotation(st: StoreState, st': StoreState, id: string, run: Run, trail: seq<Event>) {
    && Appends(st, st', id, trail)
    && st'.nextRun == st.nextRun + 1
    && st'.runs == st.runs[id := RunsOf(st, id) + [run]]
    && run.num == st'.nextRun && run.identityId == id
    && Trail(trail, run)
  }

  ghost predicate Trail(trail: seq<Event>, run: Run) {
    && |trail| == 3
    && trail[0].kind == RotationRequested && trail[1].kind == RotationStarted
    && Some(trail[2].kind) == TerminalType(run.status)
    && (forall e <- trail :: e.run == Some(run.num))
  }

  /** The run and the events the locked section of Rotate adds. */
  function FinalRun(parse: PeriodParser, st: StoreState, req: RotateRequest, now: int, answer: AdapterAnswer): Run
    requires req.id in st.identities
  {
    var identity := st.identities[req.id];
    var run := NewRun(st, identity.id, OrDefault(req.requestedBy, ACTOR_OPERATOR), now);
    match answer
    case AdapterError(_, message) => FailedRunOf(run, message, now)
    case View(view) => SucceededRun(run, Rotated(parse, identity, view, req.id, now), now)
  }

  function TrailOf(st: StoreState, req: RotateRequest, now: int, answer: AdapterAnswer): seq<Event> {
    var operator, run := OrDefault(req.requestedBy, ACTOR_OPERATOR), st.nextRun + 1;
    if answer.View? then ThreeEvents(st.nextEvent, req.id, operator, RotationCompleted, Success, now, run)
    else ThreeEvents(st.nextEvent, req.id, operator, RotationFailed, Failure, now, run)
  }

  function OpeningEvents(n: nat, id: string, operator: string, now: int, run: nat): seq<Event> {
    [Event(n + 1, id, RotationRequested, operator, InProgress, now, Some(run)),
     Event(n + 2, id, RotationStarted, WorkflowActor(operator), InProgress, now, Some(run))]
  }

  function ClosingEvent(n: nat, id: string, operator: string, kind: EventType, outcome: Outcome, now: int,
      run: nat): Event {
    Event(n + 1, id, kind, TerminalActor(operator), outcome, now, Some(run))
  }

  function ThreeEvents(n: nat, id: string, operator: string, kind: EventType, outcome: Outcome, now: int,
      run: nat): seq<Event> {
    OpeningEvents(n, id, operator, now, run) + [ClosingEvent(n + 2, id, operator, kind, outcome, now, run)]
  }

  lemma ThreeTrail(n: nat, id: string, operator: string, kind: EventType, outcome: Outcome, now: int, final: Run)
    requires Some(kind) == TerminalType(final.status)
    ensures Trail(ThreeEvents(n, id, operator, kind, outcome, now, final.num), final)
  {
  }

  /** The opening and the closing half of a rotation together. */
  lemma RotationFromParts(st: StoreState, started: StoreState, st': StoreState, id: string, run: Run, final: Run,
                          opening: seq<Event>, closing: seq<Event>)
    requires Appends(st, started, id, opening) && Appends(started, st', id, closing)
    requires started.nextRun == st.nextRun + 1 && started.runs == st.runs[id := RunsOf(st, id) + [run]]
    requires st'.nextRun == started.nextRun
    requires st'.runs == started.runs[id := started.runs[id][|started.runs[id]| - 1 := final]]
    requires final.num == started.nextRun && final.identityId == id && Trail(opening + closing, final)
    ensures Rotation(st, st', id, final, opening + closing)
  {
    AppendsTwice(st, started, st', id, opening, closing);
    var runs := RunsOf(st, id);
    assert (runs + [run])[|runs| := final] == runs + [final];
    assert st'.runs == st.runs[id := runs + [final]];
  }

  /** A rotation from start to finish, for any closing record and run. */
  lemma StartToFinish(st: StoreState, identity: Identity, operator: string, now: int,
                      record: Identity, final: Run, kind: EventType, outcome: Outcome)
    requires record.id == identity.id && final.num == st.nextRun + 1 && final.identityId == identity.id
    requires final.requestedBy == operator && Some(kind) == TerminalType(final.status)
    ensures var st' := FinishRotation(StartRotation(st, identity, operator, now), record, final, kind, outcome, now);
            && Rotation(st, st', identity.id, final,
                        ThreeEvents(st.nextEvent, identity.id, operator, kind, outcome, now, final.num))
            && st'.identities == st.identities[identity.id := record]
  {
    var id, started := identity.id, StartRotation(st, identity, operator, now);
    StartEffect(st, identity, operator, now);
    FinishEffect(started, record, final, kind, outcome, now);
    ThreeTrail(st.nextEvent, id, operator, kind, outcome, now, final);
    RotationFromParts(st, started, FinishRotation(started, record, final, kind, outcome, now), id,
                      NewRun(st, id, operator, now), final,
                      OpeningEvents(st.nextEvent, id, operator, now, final.num),
                      [ClosingEvent(st.nextEvent + 2, id, operator, kind, outcome, now, final.num)]);
  }

  /** The record both outcomes leave. */
  function ClosingRecord(parse: PeriodParser, st: StoreState, req: RotateRequest, now: int,
      answer: AdapterAnswer): Identity
    requires req.id in st.identities
  {
    match answer
    case AdapterError(_, _) => FailedRecord(st.identities[req.id])
    case View(view) => Rotated(parse, st.identities[req.id], view, req.id, now)
  }

  lemma RotateCloses(parse: PeriodParser, st: StoreState, req: RotateRequest, now: int, answer: AdapterAnswer)
    requires KeyedById(st.identities)
    requires RotationRefusal(st, req).None? && !req.dryRun
    ensures var started := StartRotation(st, st.identities[req.id], OrDefault(req.requestedBy, ACTOR_OPERATOR), now);
            var record, final := ClosingRecord(parse, st, req, now, answer), FinalRun(parse, st, req, now, answer);
            var (st', outcome) := RotateLocked(parse, st, req, now, answer);
            && record.id == req.id && record.state == Active && RunsOf(started, req.id) != []
            && st' == (if answer.View? then FinishRotation(started, record, final, RotationCompleted, Success, now)
                       else FinishRotation(started, record, final, RotationFailed, Failure, now))
            && (outcome.Completed? ==> outcome.identity == record)
  {
  }

  /** A rotation that gets past the checks leaves exactly one finished run with
      its three adjacent events and an active record, whatever the adapter says. */
  lemma RotateEffect(parse: PeriodParser, st: StoreState, req: RotateRequest, now: int, answer: AdapterAnswer)
    requires KeyedById(st.identities)
    requires RotationRefusal(st, req).None? && !req.dryRun
    ensures var (st', outcome) := RotateLocked(parse, st, req, now, answer);
            && Rotation(st, st', req.id, FinalRun(parse, st, req, now, answer), TrailOf(st, req, now, answer))
            && st'.identities == st.identities[req.id := st'.identities[req.id]]
            && st'.identities[req.id].id == req.id && st'.identities[req.id].state == Active
            && (outcome.Completed? ==> st'.identities[req.id] == outcome.identity)
  {
    var identity, operator := st.identities[req.id], OrDefault(req.requestedBy, ACTOR_OPERATOR);
    var record, final := ClosingRecord(parse, st, req, now, answer), FinalRun(parse, st, req, now, answer);
    RotateCloses(parse, st, req, now, answer);
    if answer.View? {
      StartToFinish(st, identity, operator, now, record, final, RotationCompleted, Success);
    } else {
      StartToFinish(st, identity, operator, now, record, final, RotationFailed, Failure);
    }
  }

  lemma StartEffect(st: StoreState, identity: Identity, operator: string, now: int)
    ensures var st' := StartRotation(st, identity, operator, now);
            var id, run := identity.id, NewRun(st, identity.id, operator, now);
            && Appends(st, st', id, OpeningEvents(st.nextEvent, id, operator, now, run.num))
            && st'.nextRun == st.nextRun + 1 && st'.runs == st.runs[id := RunsOf(st, id) + [run]]
            && st'.identities == st.identities[id := identity.(state := Renewing)]
  {
    var id, run := identity.id, NewRun(st, identity.id, operator, now);
    var s2 := Put(st.(nextRun := st.nextRun + 1, runs := st.runs[id := RunsOf(st, id) + [run]]), id,
      identity.(state := Renewing));
    var s3 := AddEvent(s2, id, now, RotationRequested, operator, InProgress, Some(run.num));
    var s4 := AddEvent(s3, id, now, RotationStarted, WorkflowActor(operator), InProgress, Some(run.num));
    var e1 := Event(st.nextEvent + 1, id, RotationRequested, operator, InProgress, now, Some(run.num));
    var e2 := Event(st.nextEvent + 2, id, RotationStarted, WorkflowActor(operator), InProgress, now, Some(run.num));
    assert Appends(s2, s3, id, [e1]) && Appends(s3, s4, id, [e2]);
    AppendsTwice(s2, s3, s4, id, [e1], [e2]);
    assert [e1] + [e2] == [e1, e2];
    assert s4 == StartRotation(st, identity, operator, now);
  }

  lemma FinishEffect(started: StoreState, record: Identity, run: Run, kind: EventType, outcome: Outcome, now: int)
    requires RunsOf(started, record.id) != []
    ensures var id, st' := record.id, FinishRotation(started, record, run, kind, outcome, now);
            && Appends(started, st', id,
              [ClosingEvent(started.nextEvent, id, run.requestedBy, kind, outcome, now, run.num)])
            && st'.nextRun == started.nextRun
            && st'.runs == started.runs[id := started.runs[id][|started.runs[id]| - 1 := run]]
            && st'.identities == started.identities[id := record]
  {
  }

  lemma RotationKeeps(st: StoreState, st': StoreState, id: string, run: Run, trail: seq<Event>)
    requires ListsOk(st) && Rotation(st, st', id, run, trail)
    ensures ListsOk(st')
  {
    RotationKeepsEvents(st, st', id, run, trail);
    RotationKeepsRuns(st, st', id, run, trail);
  }

  lemma RotationKeepsEvents(st: StoreState, st': StoreState, id: string, run: Run, trail: seq<Event>)
    requires Filed(EventNum, EventOwner, st.nextEvent, st.events) && Rotation(st, st', id, run, trail)
    ensures Filed(EventNum, EventOwner, st'.nextEvent, st'.events)
  {
    FiledAppend(EventNum, EventOwner, st.nextEvent, st.events, id, trail);
  }

  lemma RotationKeepsRuns(st: StoreState, st': StoreState, id: string, run: Run, trail: seq<Event>)
    requires Filed(RunNum, RunOwner, st.nextRun, st.runs) && Rotation(st, st', id, run, trail)
    ensures Filed(RunNum, RunOwner, st'.nextRun, st'.runs)
  {
    FiledAppend(RunNum, RunOwner, st.nextRun, st.runs, id, [run]);
  }

  lemma RotationInOrder(st: StoreState, st': StoreState, id: string, run: Run, trail: seq<Event>)
    requires ListsOk(st) && InOrder(st) && Rotation(st, st', id, run, trail)
    ensures InOrder(st')
  {
    assert Increasing(EventNum, EventsOf(st, id)) && Increasing(RunNum, RunsOf(st, id));
    ListAppendInOrder(EventNum, EventOwner, st.nextEvent, id, EventsOf(st, id), trail);
    ListAppendInOrder(RunNum, RunOwner, st.nextRun, id, RunsOf(st, id), [run]);
    forall a ensures Increasing(EventNum, EventsOf(st', a)) && Increasing(RunNum, RunsOf(st', a)) {
      assert Increasing(EventNum, EventsOf(st, a)) && Increasing(RunNum, RunsOf(st, a));
    }
  }
}
