/** What the repository holds after each operation, and what a restart brings back. */
module Restart {
  import opened Wrappers
  import opened Protocol
  import opened Sections
  import opened Numbered
  import opened StoreInvariants
  import opened Interleaving
  import opened Operations
  import opened Persistence

  /** How a Save ends: stored and announced, not stored, or stored but not announced. */
  datatype SaveAnswer = Saved | SetFailed | PublishFailed

  /** The state an operation hands to the repository; None when it returns earlier. */
  function PersistPoint(parse: PeriodParser, st: StoreState, op: Op): Option<StoreState>
    requires KeyedById(st.identities)
  {
    match op
    case Registers(req, now) =>
      if Register(parse, st, req, now).1.Ok? then Some(Register(parse, st, req, now).0) else None
    case Provisions(req, now, created, _, _) =>
      if ProvisionError(parse, req, now, created).None? then Some(Apply(parse, st, op)) else None
    case Rotates(req, _, _, _, _, _) =>
      if RotationRefusal(st, req).None? && !req.dryRun then Some(Apply(parse, st, op)) else None
    case Retires(req, now, answer, _, _) =>
      if RetireLocked(st, req, now, answer).1.RetireDone? then Some(RetireLocked(st, req, now, answer).0) else None
    case Deletes(req, _, _, _) =>
      if DeleteCheck(st, req).Ok? then Some(Apply(parse, st, op)) else None
    case Uses(req, _, native, common) =>
      if UseResult(st, req, native, common).Ok? then Some(Apply(parse, st, op)) else None
  }

  /** The store after an operation: a Retire that cannot save revokes nothing. */
  function StoreAfterOp(parse: PeriodParser, st: StoreState, op: Op, save: SaveAnswer): StoreState
    requires KeyedById(st.identities)
  {
    var point := PersistPoint(parse, st, op);
    if op.Retires? && point.Some? && !save.Saved? then point.value else Apply(parse, st, op)
  }

  /** The store, the state whose snapshot the repository holds if it holds one, and
      whether the last save that was attempted got its snapshot there. */
  datatype Durable = Durable(st: StoreState, saved: Option<StoreState>, synced: bool)

  function Persist(parse: PeriodParser, d: Durable, op: Op, save: SaveAnswer): Durable
    requires KeyedById(d.st.identities)
  {
    var after, point := StoreAfterOp(parse, d.st, op, save), PersistPoint(parse, d.st, op);
    if point.None? then d.(st := after)
    else if save.SetFailed? then Durable(after, d.saved, false)
    else Durable(after, point, true)
  }

  /** st is saved plus at most two trailing revocation records of one identity. */
  ghost predicate Trails(saved: StoreState, st: StoreState, id: string, extra: seq<Event>) {
    && |extra| <= 2
    && (forall e <- extra :: e.kind == CredentialRevoked && e.identityId == id && e.run.None?)
    && (if extra == [] then st == saved
        else Appends(saved, st, id, extra) && SameRuns(saved, st) && st.identities == saved.identities)
  }

  ghost predicate Behind(saved: StoreState, st: StoreState) { exists id, extra :: Trails(saved, st, id, extra) }

  lemma RevokeTrails(st: StoreState, id: string, now: int, answer: VaultAnswer)
    ensures Trails(st, Sections.Revoke(st, id, now, answer), id,
                   VaultEvents(st.nextEvent, id, CredentialRevoked, now, answer))
  {
  }

  lemma RevokeAllTrails(st: StoreState, id: string, now: int, native: VaultAnswer, common: VaultAnswer)
    ensures Trails(st, RevokeAll(st, id, now, native, common), id,
                   BothVaults(st.nextEvent, id, CredentialRevoked, now, native, common))
  {
    var mid := Sections.Revoke(st, id, now, native);
    var x := VaultEvents(st.nextEvent, id, CredentialRevoked, now, native);
    var y := VaultEvents(mid.nextEvent, id, CredentialRevoked, now, common);
    RevokeTrails(st, id, now, native);
    RevokeTrails(mid, id, now, common);
    if x == [] { assert x + y == y; }
    else if y == [] { assert x + y == x; }
    else { AppendsTwice(st, mid, RevokeAll(st, id, now, native, common), id, x, y); }
  }

  /** An operation that returns before saving leaves the store alone. */
  lemma EarlyReturn(parse: PeriodParser, st: StoreState, op: Op)
    requires KeyedById(st.identities) && PersistPoint(parse, st, op).None?
    ensures Apply(parse, st, op) == st
  {
  }

  // --------------------------------------- the save point of each operation

  /** An operation that leaves `after` and, if it gets that far, saves `point`. */
  ghost predicate Saves(parse: PeriodParser, st: StoreState, op: Op, save: SaveAnswer, after: StoreState,
      point: Option<StoreState>)
    requires KeyedById(st.identities)
  {
    StoreAfterOp(parse, st, op, save) == after && PersistPoint(parse, st, op) == point
  }

  lemma RegisterSaves(parse: PeriodParser, st: StoreState, req: RegisterRequest, now: int, save: SaveAnswer)
    requires KeyedById(st.identities)
    ensures var (after, r) := Register(parse, st, req, now);
            Saves(parse, st, Registers(req, now), save, after, if r.Ok? then Some(after) else None)
  {
  }

  lemma ProvisionSaves(parse: PeriodParser, st: StoreState, req: ProvisionRequest, now: int, created: CreateAnswer,
                       native: VaultAnswer, common: VaultAnswer, save: SaveAnswer)
    requires KeyedById(st.identities)
    ensures var after := ProvisionOp(parse, st, req, now, created, native, common);
            Saves(parse, st, Provisions(req, now, created, native, common), save, after,
                  if ProvisionError(parse, req, now, created).None? then Some(after) else None)
  {
  }

  lemma RotateReached(parse: PeriodParser, st: StoreState, req: RotateRequest, now: int, answer: AdapterAnswer)
    requires KeyedById(st.identities)
    ensures var outcome := RotateLocked(parse, st, req, now, answer).1;
            outcome.AdapterFailed? || outcome.Completed? <==> RotationRefusal(st, req).None? && !req.dryRun
  {
  }

  lemma RotateSaves(parse: PeriodParser, st: StoreState, req: RotateRequest, now: int, answer: AdapterAnswer,
                    secret: bool, native: VaultAnswer, common: VaultAnswer, save: SaveAnswer)
    requires KeyedById(st.identities)
    ensures var outcome := RotateLocked(parse, st, req, now, answer).1;
            var after := RotateOp(parse, st, req, now, answer, secret, native, common);
            Saves(parse, st, Rotates(req, now, answer, secret, native, common), save, after,
                  if outcome.AdapterFailed? || outcome.Completed? then Some(after) else None)
  {
    RotateReached(parse, st, req, now, answer);
  }

  lemma RetireSaves(parse: PeriodParser, st: StoreState, req: RetireRequest, now: int, answer: AdapterAnswer,
                    native: VaultAnswer, common: VaultAnswer, save: SaveAnswer)
    requires KeyedById(st.identities)
    ensures var (locked, outcome) := RetireLocked(st, req, now, answer);
            Saves(parse, st, Retires(req, now, answer, native, common), save,
                  if save.Saved? then RetireOp(st, req, now, answer, native, common) else locked,
                  if outcome.RetireDone? then Some(locked) else None)
  {
  }

  lemma DeleteSaves(parse: PeriodParser, st: StoreState, req: DeleteRequest, now: int, native: VaultAnswer,
      common: VaultAnswer, save: SaveAnswer)
    requires KeyedById(st.identities)
    ensures var after := DeleteOp(st, req, now, native, common);
            Saves(parse, st, Deletes(req, now, native, common), save, after,
                  if DeleteCheck(st, req).Ok? then Some(after) else None)
  {
  }

  lemma UseSaves(parse: PeriodParser, st: StoreState, req: UseRequest, now: int, native: ReadAnswer, common: ReadAnswer,
                 save: SaveAnswer)
    requires KeyedById(st.identities)
    ensures var after := UseOp(st, req, now, native, common);
            Saves(parse, st, Uses(req, now, native, common), save, after,
                  if UseResult(st, req, native, common).Ok? then Some(after) else None)
  {
  }

  // ------------------------------------------------------------- agreement

  /** What an operation that saved left in the repository: the store itself,
      except that a Retire's revocations come after its save. */
  lemma RestartAgreement(parse: PeriodParser, d: Durable, op: Op, save: SaveAnswer)
    requires KeyedById(d.st.identities) && PersistPoint(parse, d.st, op).Some? && !save.SetFailed?
    ensures var after := Persist(parse, d, op, save);
            && after.saved.Some? && Behind(after.saved.value, after.st)
            && (!op.Retires? || save.PublishFailed? ==> after.saved.value == after.st)
            && (save.Saved? ==> after.st == Apply(parse, d.st, op))
  {
    var after := Persist(parse, d, op, save);
    if op.Retires? && save.Saved? {
      RevokeAllTrails(after.saved.value, op.retirement.id, op.now, op.native, op.common);
    } else {
      assert Trails(after.saved.value, after.st, "", []);
    }
  }

  ghost predicate Sound(d: Durable) {
    && StoreOk(d.st) && (d.saved.Some? ==> StoreOk(d.saved.value))
    && (d.synced ==> d.saved.Some? && Behind(d.saved.value, d.st))
  }

  lemma PersistPointOk(parse: PeriodParser, st: StoreState, op: Op)
    requires StoreOk(st) && PersistPoint(parse, st, op).Some?
    ensures StoreOk(PersistPoint(parse, st, op).value)
    ensures TrailsOk(st) ==> TrailsOk(PersistPoint(parse, st, op).value)
  {
    if op.Retires? {
      var alone := Retires(op.retirement, op.now, op.answer, NoVault, NoVault);
      assert Apply(parse, st, alone) == RetireLocked(st, op.retirement, op.now, op.answer).0;
      OpKeeps(parse, st, alone);
    } else {
      OpKeeps(parse, st, op);
    }
  }

  lemma StoreAfterOpOk(parse: PeriodParser, st: StoreState, op: Op, save: SaveAnswer)
    requires StoreOk(st)
    ensures StoreOk(StoreAfterOp(parse, st, op, save))
    ensures TrailsOk(st) ==> TrailsOk(StoreAfterOp(parse, st, op, save))
  {
    if op.Retires? && PersistPoint(parse, st, op).Some? && !save.Saved? {
      PersistPointOk(parse, st, op);
    } else {
      OpKeeps(parse, st, op);
    }
  }

  lemma PersistKeeps(parse: PeriodParser, d: Durable, op: Op, save: SaveAnswer)
    requires Sound(d)
    ensures Sound(Persist(parse, d, op, save))
  {
    StoreAfterOpOk(parse, d.st, op, save);
    if PersistPoint(parse, d.st, op).Some? {
      PersistPointOk(parse, d.st, op);
      if !save.SetFailed? { RestartAgreement(parse, d, op, save); }
    } else {
      EarlyReturn(parse, d.st, op);
    }
  }

  // ------------------------------------------------------------- whole runs

  /** An operation with the answer its save gets, or a restart from what the
      repository holds. */
  datatype Move = Does(op: Op, save: SaveAnswer) | Restarts(snapshot: Snapshot)

  ghost predicate Holding(d: Durable, snapshot: Snapshot) { d.saved.Some? && IsSnapshot(d.saved.value, snapshot) }

  /** A restart that names anything but the repository's content changes nothing. */
  ghost function Moved(parse: PeriodParser, d: Durable, move: Move): Durable
    requires KeyedById(d.st.identities)
  {
    match move
    case Does(op, save) => Persist(parse, d, op, save)
    case Restarts(snapshot) =>
      if Holding(d, snapshot) then
        Durable(Restore(d.st, snapshot), Some(Restore(d.st, snapshot)), true)
      else d
  }

  lemma RestartKeeps(d: Durable, snapshot: Snapshot)
    requires Sound(d) && Holding(d, snapshot)
    ensures StoreOk(Restore(d.st, snapshot)) && IsSnapshot(Restore(d.st, snapshot), snapshot)
  {
    RestoredIsSound(d.saved.value, snapshot);
    var a, b := Restore(d.saved.value, snapshot), Restore(d.st, snapshot);
    assert b == a.(sink := d.st.sink);
  }

  lemma MoveKeeps(parse: PeriodParser, d: Durable, move: Move)
    requires Sound(d)
    ensures Sound(Moved(parse, d, move))
  {
    match move
    case Does(op, save) => PersistKeeps(parse, d, op, save);
    case Restarts(snapshot) =>
      if Holding(d, snapshot) {
        RestartKeeps(d, snapshot);
        assert Trails(Restore(d.st, snapshot), Restore(d.st, snapshot), "", []);
      }
  }

  /** Any operations, any answers of their saves, any restarts in between: the
      repository stays as far behind the store as the last attempted save left it. */
  ghost function Run(parse: PeriodParser, d: Durable, moves: seq<Move>): (end: Durable)
    requires Sound(d)
    ensures Sound(end)
    decreases |moves|
  {
    if moves == [] then d
    else
      MoveKeeps(parse, d, moves[0]);
      Run(parse, Moved(parse, d, moves[0]), moves[1..])
  }

  /** back has st's records and runs, and its events except the trailing ones, up to order. */
  ghost predicate LosesOnly(st: StoreState, back: StoreState, id: string, extra: seq<Event>) {
    && back.identities == st.identities && back.nextRun == st.nextRun
    && back.nextEvent + |extra| == st.nextEvent
    && (forall a :: multiset(Lookup(back.runs, a)) == multiset(Lookup(st.runs, a)))
    && (forall a :: multiset(Lookup(st.events, a)) ==
                    multiset(Lookup(back.events, a)) + (if a == id then multiset(extra) else multiset{}))
  }

  lemma RestoreBehind(saved: StoreState, st: StoreState, snapshot: Snapshot, id: string, extra: seq<Event>)
    requires StoreOk(saved) && Trails(saved, st, id, extra) && IsSnapshot(saved, snapshot)
    ensures LosesOnly(st, Restore(st, snapshot), id, extra)
  {
    SnapshotRoundTrip(saved, snapshot);
    var back := Restore(saved, snapshot);
    forall a ensures multiset(Lookup(st.events, a)) ==
                     multiset(Lookup(back.events, a)) + (if a == id then multiset(extra) else multiset{}) {
      assert Lookup(st.events, a) == if a == id then Lookup(saved.events, a) + extra else Lookup(saved.events, a);
      assert multiset(Lookup(back.events, a)) == multiset(Lookup(saved.events, a));
    }
  }

  ghost predicate Recovers(st: StoreState, saved: StoreState, back: StoreState) {
    exists id, extra :: Trails(saved, st, id, extra) && LosesOnly(st, back, id, extra)
  }

  lemma RestartRecovers(saved: StoreState, st: StoreState, snapshot: Snapshot)
    requires StoreOk(saved) && Behind(saved, st) && IsSnapshot(saved, snapshot)
    ensures Recovers(st, saved, Restore(st, snapshot))
  {
    var id, extra :| Trails(saved, st, id, extra);
    RestoreBehind(saved, st, snapshot, id, extra);
  }

  /** A restart after any run whose last attempted save got its snapshot stored
      brings back exactly the records, the runs and the run counter, and each event
      list up to order and at most two trailing revocation records of one identity. */
  lemma RestartAfterRun(parse: PeriodParser, d: Durable, moves: seq<Move>, snapshot: Snapshot)
    requires Sound(d)
    requires var end := Run(parse, d, moves); end.synced && Holding(end, snapshot)
    ensures var end := Run(parse, d, moves); Recovers(end.st, end.saved.value, Restore(end.st, snapshot))
  {
    var end := Run(parse, d, moves);
    RestartRecovers(end.saved.value, end.st, snapshot);
  }

  /** The lifecycle is safe across restarts too: at every point of every such run a
      record is keyed by its id, active or retired, and the next operation changes
      it only along the state machine. */
  lemma SafeAcrossRestarts(parse: PeriodParser, d: Durable, moves: seq<Move>, next: Op, id: string)
    requires Sound(d)
    ensures var at := Run(parse, d, moves).st;
            && (id in at.identities ==> at.identities[id].id == id && at.identities[id].state != Renewing)
            && LegalChange(parse, at, next, id)
  {
    OpIsLegal(parse, Run(parse, d, moves).st, next, id);
  }
}
