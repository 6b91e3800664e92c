/** Whole store operations run one after the other, and what any sequence of
    them keeps, whatever the adapter and the vaults answer. */
module Operations {
  import opened Wrappers
  import opened Text
  import opened Protocol
  import opened Sections
  import opened StoreInvariants
  import opened Audit
  import opened Interleaving

  // ------------------------------------------------------- operations in full

  datatype CreateAnswer = Created(identity: Identity, secret: bool) | CreateError(forbidden: bool)

  datatype ProvisionRequest = ProvisionRequest(provider: string, requestedBy: string)

  /** The tail Provision and Rotate share: deliver, mirror, write back. */
  function DeliverAll(st: StoreState, identity: Identity, now: int, native: VaultAnswer,
      common: VaultAnswer): StoreState {
    WriteBack(Deliver(Deliver(st, identity.id, now, native), identity.id, now, common), identity, native, common, now)
  }

  /** The events of one vault call, numbered from n: none where there is no vault. */
  function VaultEvents(n: nat, id: string, kind: EventType, now: int, answer: VaultAnswer): seq<Event> {
    match answer
    case NoVault => []
    case VaultFailed => [Event(n + 1, id, kind, ACTOR_PROVIDER_ADAPTER, NeedsAttention, now, None)]
    case VaultDone(_) => [Event(n + 1, id, kind, ACTOR_PROVIDER_ADAPTER, Success, now, None)]
  }

  function BothVaults(n: nat, id: string, kind: EventType, now: int, native: VaultAnswer, common: VaultAnswer)
    : seq<Event>
  {
    var first := VaultEvents(n, id, kind, now, native);
    first + VaultEvents(n + |first|, id, kind, now, common)
  }

  function RevokeAll(st: StoreState, id: string, now: int, native: VaultAnswer, common: VaultAnswer): StoreState {
    Sections.Revoke(Sections.Revoke(st, id, now, native), id, now, common)
  }

  function ProvisionError(parse: PeriodParser, req: ProvisionRequest, now: int,
      answer: CreateAnswer): Option<LifecycleError> {
    if Blank(req.provider) then Some(Conformance)
    else match answer
      case CreateError(forbidden) => Some(if forbidden then Forbidden else ProviderFailure)
      case Created(identity, _) =>
        if identity.name == "" then Some(ProviderFailure)
        else if !ValidIdentity(parse, Provisioned(identity, now)) then Some(Conformance)
        else None
  }

  function ProvisionOp(parse: PeriodParser, st: StoreState, req: ProvisionRequest, now: int, answer: CreateAnswer,
                       native: VaultAnswer, common: VaultAnswer): StoreState {
    if ProvisionError(parse, req, now, answer).Some? then st
    else
      var identity := Provisioned(answer.identity, now);
      var adopted := Adopt(st, identity, now, OrDefault(req.requestedBy, ACTOR_CONTROL_PLANE));
      if answer.secret then DeliverAll(adopted, identity, now, native, common) else adopted
  }

  function RotateOp(parse: PeriodParser, st: StoreState, req: RotateRequest, now: int, answer: AdapterAnswer,
                    secret: bool, native: VaultAnswer, common: VaultAnswer): StoreState
    requires KeyedById(st.identities)
  {
    var (s1, outcome) := RotateLocked(parse, st, req, now, answer);
    if outcome.Completed? && secret then DeliverAll(s1, outcome.identity, now, native, common) else s1
  }

  function RetireOp(st: StoreState, req: RetireRequest, now: int, answer: AdapterAnswer,
                    native: VaultAnswer, common: VaultAnswer): StoreState {
    var (s1, outcome) := RetireLocked(st, req, now, answer);
    if outcome.RetireDone? then RevokeAll(s1, req.id, now, native, common) else s1
  }

  function DeleteOp(st: StoreState, req: DeleteRequest, now: int, native: VaultAnswer,
      common: VaultAnswer): StoreState {
    if DeleteCheck(st, req).Err? then st
    else DeleteFinal(RevokeAll(st, DeleteCheck(st, req).value.id, now, native, common), req,
      DeleteCheck(st, req).value, now).0
  }

  function UseResult(st: StoreState, req: UseRequest, native: ReadAnswer, common: ReadAnswer)
    : Result<(string, VaultReference), LifecycleError>
  {
    match UseCheck(st, req.id)
    case Err(e) => Err(e)
    case Ok(_) => UseSource(native, common)
  }

  function UseOp(st: StoreState, req: UseRequest, now: int, native: ReadAnswer, common: ReadAnswer): StoreState {
    if UseResult(st, req, native, common).Ok? then RecordUse(st, req.id, req.requestedBy, now) else st
  }

  /** One operation with everything its collaborators answer. */
  datatype Op =
    | Registers(registration: RegisterRequest, now: int)
    | Provisions(provision: ProvisionRequest, now: int, created: CreateAnswer, native: VaultAnswer, common: VaultAnswer)
    | Rotates(rotation: RotateRequest, now: int, answer: AdapterAnswer, secret: bool, native: VaultAnswer,
      common: VaultAnswer)
    | Retires(retirement: RetireRequest, now: int, answer: AdapterAnswer, native: VaultAnswer, common: VaultAnswer)
    | Deletes(deletion: DeleteRequest, now: int, native: VaultAnswer, common: VaultAnswer)
    | Uses(use: UseRequest, now: int, read: ReadAnswer, readCommon: ReadAnswer)

  function Apply(parse: PeriodParser, st: StoreState, op: Op): StoreState
    requires KeyedById(st.identities)
  {
    match op
    case Registers(req, now) => Register(parse, st, req, now).0
    case Provisions(req, now, created, native, common) => ProvisionOp(parse, st, req, now, created, native, common)
    case Rotates(req, now, answer, secret, native, common) => RotateOp(parse, st, req, now, answer, secret, native,
      common)
    case Retires(req, now, answer, native, common) => RetireOp(st, req, now, answer, native, common)
    case Deletes(req, now, native, common) => DeleteOp(st, req, now, native, common)
    case Uses(req, now, read, readCommon) => UseOp(st, req, now, read, readCommon)
  }

  // ----------------------------------------------------- the log is kept sound

  /** The lists are filed; with `trails`, they are also in order and every
      rotation has its trail. */
  ghost predicate LogOk(st: StoreState, trails: bool) { ListsOk(st) && (trails ==> TrailsOk(st)) }

  lemma ChangeKeepsLog(st: StoreState, st': StoreState, change: Change, trails: bool)
    requires LogOk(st, trails) && Changes(st, st', change)
    ensures LogOk(st', trails)
  {
    ChangeKeepsLists(st, st', change);
    if trails { ChangeKeepsTrails(st, st', change); }
  }

  lemma VaultEventLog(st: StoreState, id: string, kind: EventType, now: int, answer: VaultAnswer, trails: bool)
    requires LogOk(st, trails)
    ensures LogOk(VaultEvent(st, id, kind, now, answer), trails)
  {
    var change := VaultEventChanges(st, id, kind, now, answer);
    ChangeKeepsLog(st, VaultEvent(st, id, kind, now, answer), change, trails);
  }

  lemma DeliverAllLog(st: StoreState, identity: Identity, now: int, native: VaultAnswer, common: VaultAnswer,
      trails: bool)
    requires LogOk(st, trails)
    ensures LogOk(DeliverAll(st, identity, now, native, common), trails)
  {
    var s1 := Deliver(st, identity.id, now, native);
    VaultEventLog(st, identity.id, CredentialDelivered, now, native, trails);
    var s2 := Deliver(s1, identity.id, now, common);
    VaultEventLog(s1, identity.id, CredentialDelivered, now, common, trails);
    ChangeKeepsLog(s2, WriteBack(s2, identity, native, common, now), Quiet, trails);
  }

  lemma RevokeAllLog(st: StoreState, id: string, now: int, native: VaultAnswer, common: VaultAnswer, trails: bool)
    requires LogOk(st, trails)
    ensures LogOk(RevokeAll(st, id, now, native, common), trails)
  {
    VaultEventLog(st, id, CredentialRevoked, now, native, trails);
    VaultEventLog(Sections.Revoke(st, id, now, native), id, CredentialRevoked, now, common, trails);
  }

  lemma ProvisionLog(parse: PeriodParser, st: StoreState, req: ProvisionRequest, now: int, answer: CreateAnswer,
                     native: VaultAnswer, common: VaultAnswer, trails: bool)
    requires LogOk(st, trails)
    ensures LogOk(ProvisionOp(parse, st, req, now, answer, native, common), trails)
  {
    if ProvisionError(parse, req, now, answer).None? {
      var identity, registrar := Provisioned(answer.identity, now), OrDefault(req.requestedBy, ACTOR_CONTROL_PLANE);
      var adopted := Adopt(st, identity, now, registrar);
      var change := AdoptChanges(st, identity, now, registrar);
      ChangeKeepsLog(st, adopted, change, trails);
      DeliverAllLog(adopted, identity, now, native, common, trails);
    }
  }

  lemma RotateLog(parse: PeriodParser, st: StoreState, req: RotateRequest, now: int, answer: AdapterAnswer,
                  secret: bool, native: VaultAnswer, common: VaultAnswer, trails: bool)
    requires LogOk(st, trails) && KeyedById(st.identities)
    ensures LogOk(RotateOp(parse, st, req, now, answer, secret, native, common), trails)
  {
    var (s1, outcome) := RotateLocked(parse, st, req, now, answer);
    var change := RotateChanges(parse, st, req, now, answer);
    ChangeKeepsLog(st, s1, change, trails);
    if outcome.Completed? { DeliverAllLog(s1, outcome.identity, now, native, common, trails); }
  }

  lemma RetireLog(st: StoreState, req: RetireRequest, now: int, answer: AdapterAnswer, native: VaultAnswer,
      common: VaultAnswer, trails: bool)
    requires LogOk(st, trails)
    ensures LogOk(RetireLocked(st, req, now, answer).0, trails)
      && LogOk(RetireOp(st, req, now, answer, native, common), trails)
  {
    var s1 := RetireLocked(st, req, now, answer).0;
    var change := RetireChanges(st, req, now, answer);
    ChangeKeepsLog(st, s1, change, trails);
    RevokeAllLog(s1, req.id, now, native, common, trails);
  }

  lemma DeleteLog(st: StoreState, req: DeleteRequest, now: int, native: VaultAnswer, common: VaultAnswer, trails: bool)
    requires LogOk(st, trails)
    ensures LogOk(DeleteOp(st, req, now, native, common), trails)
  {
    if DeleteCheck(st, req).Ok? {
      var identity := DeleteCheck(st, req).value;
      var revoked := RevokeAll(st, identity.id, now, native, common);
      RevokeAllLog(st, identity.id, now, native, common, trails);
      RevokeAllRecords(st, identity.id, now, native, common);
      var change := DeleteFinalChanges(revoked, req, identity, now);
      ChangeKeepsLog(revoked, DeleteFinal(revoked, req, identity, now).0, change, trails);
    }
  }

  lemma OpLog(parse: PeriodParser, st: StoreState, op: Op, trails: bool)
    requires LogOk(st, trails) && KeyedById(st.identities)
    ensures LogOk(Apply(parse, st, op), trails)
  {
    match op
    case Registers(req, now) =>
      var change := RegisterChanges(parse, st, req, now);
      ChangeKeepsLog(st, Register(parse, st, req, now).0, change, trails);
    case Provisions(req, now, created, native, common) => ProvisionLog(parse, st, req, now, created, native, common,
      trails);
    case Rotates(req, now, answer, secret, native, common) => RotateLog(parse, st, req, now, answer, secret, native,
      common, trails);
    case Retires(req, now, answer, native, common) => RetireLog(st, req, now, answer, native, common, trails);
    case Deletes(req, now, native, common) => DeleteLog(st, req, now, native, common, trails);
    case Uses(req, now, read, readCommon) =>
      var change := UseChanges(st, req.id, req.requestedBy, now);
      ChangeKeepsLog(st, RecordUse(st, req.id, req.requestedBy, now), change, trails);
  }

  // ------------------------------------------------ what happens to the records

  lemma RevokeAllRecords(st: StoreState, id: string, now: int, native: VaultAnswer, common: VaultAnswer)
    ensures RevokeAll(st, id, now, native, common).identities == st.identities
  {
  }

  function RotationRecord(parse: PeriodParser, st: StoreState, req: RotateRequest, now: int, answer: AdapterAnswer,
                          secret: bool, native: VaultAnswer, common: VaultAnswer): Option<Identity> {
    if RotationRefusal(st, req).Some? || req.dryRun then None
    else match answer
      case AdapterError(_, _) => Some(FailedRecord(st.identities[req.id]))
      case View(view) =>
        var rotated := Rotated(parse, st.identities[req.id], view, req.id, now);
        Some(if secret then Sections.Delivered(rotated, native, common, now) else rotated)
  }

  /** The one record an operation leaves written; None when it writes none. */
  function FinalRecord(parse: PeriodParser, st: StoreState, op: Op): Option<Identity>
    requires KeyedById(st.identities)
  {
    match op
    case Registers(req, now) =>
      var r := Register(parse, st, req, now).1;
      if r.Ok? then Some(r.value) else None
    case Provisions(req, now, created, native, common) =>
      if ProvisionError(parse, req, now, created).Some? then None
      else if created.secret then Some(Sections.Delivered(Provisioned(created.identity, now), native, common, now))
      else Some(Provisioned(created.identity, now))
    case Rotates(req, now, answer, secret, native, common) =>
      RotationRecord(parse, st, req, now, answer, secret, native, common)
    case Retires(req, now, answer, _, _) =>
      var r := RetireLocked(st, req, now, answer).1;
      if r.RetireDone? then Some(r.identity) else None
    case _ => None
  }

  function WithRecord(identities: map<string, Identity>, record: Option<Identity>): map<string, Identity> {
    match record
    case Some(v) => identities[v.id := v]
    case None => identities
  }

  /** Every operation writes at most one record, and only a Delete removes one. */
  lemma OpRecords(parse: PeriodParser, st: StoreState, op: Op)
    requires KeyedById(st.identities)
    ensures Apply(parse, st, op).identities ==
            if op.Deletes? && DeleteCheck(st, op.deletion).Ok? then st.identities - {op.deletion.id}
            else WithRecord(st.identities, FinalRecord(parse, st, op))
  {
    match op
    case Registers(_, _) =>
    case Provisions(req, now, created, native, common) => ProvisionRecords(parse, st, req, now, created, native,
      common);
    case Rotates(req, now, answer, secret, native, common) => RotateRecords(parse, st, req, now, answer, secret,
      native, common);
    case Retires(req, now, answer, native, common) => RetireRecords(st, req, now, answer, native, common);
    case Deletes(req, now, native, common) => DeleteRecords(st, req, now, native, common);
    case Uses(_, _, _, _) =>
  }

  lemma DeliverAllRecords(st: StoreState, identity: Identity, now: int, native: VaultAnswer, common: VaultAnswer)
    requires identity.id in st.identities && st.identities[identity.id] == identity
    ensures DeliverAll(st, identity, now, native, common).identities ==
            st.identities[identity.id := Sections.Delivered(identity, native, common, now)]
  {
  }

  lemma AdoptRecords(st: StoreState, identity: Identity, now: int, registrar: string)
    ensures Adopt(st, identity, now, registrar).identities == st.identities[identity.id := identity]
  {
  }

  lemma ProvisionRecords(parse: PeriodParser, st: StoreState, req: ProvisionRequest, now: int, created: CreateAnswer,
                         native: VaultAnswer, common: VaultAnswer)
    ensures ProvisionOp(parse, st, req, now, created, native, common).identities ==
            WithRecord(st.identities, if ProvisionError(parse, req, now, created).Some? then None
                                   else if created.secret then
                                     Some(Sections.Delivered(Provisioned(created.identity, now), native, common, now))
                                   else Some(Provisioned(created.identity, now)))
  {
    if ProvisionError(parse, req, now, created).None? {
      var identity, registrar := Provisioned(created.identity, now), OrDefault(req.requestedBy, ACTOR_CONTROL_PLANE);
      AdoptRecords(st, identity, now, registrar);
      DeliverAllRecords(Adopt(st, identity, now, registrar), identity, now, native, common);
    }
  }

  lemma RotateRecords(parse: PeriodParser, st: StoreState, req: RotateRequest, now: int, answer: AdapterAnswer,
                      secret: bool, native: VaultAnswer, common: VaultAnswer)
    requires KeyedById(st.identities)
    ensures RotateOp(parse, st, req, now, answer, secret, native, common).identities ==
            WithRecord(st.identities, RotationRecord(parse, st, req, now, answer, secret, native, common))
  {
    if RotationRefusal(st, req).Some? || req.dryRun { return; }
    RotateLockedRecord(parse, st, req, now, answer);
    var (s1, outcome) := RotateLocked(parse, st, req, now, answer);
    if outcome.Completed? { DeliverAllRecords(s1, outcome.identity, now, native, common); }
  }

  lemma RotateLockedRecord(parse: PeriodParser, st: StoreState, req: RotateRequest, now: int, answer: AdapterAnswer)
    requires KeyedById(st.identities) && RotationRefusal(st, req).None? && !req.dryRun
    ensures var (s1, outcome) := RotateLocked(parse, st, req, now, answer);
            var record := RotationRecord(parse, st, req, now, answer, false, NoVault, NoVault).value;
            && s1.identities == st.identities[req.id := record] && record.id == req.id
            && outcome == match answer
                          case AdapterError(_, _) => AdapterFailed(ProviderOperationError(answer))
                          case View(_) => Completed(record, FinalRun(parse, st, req, now, answer))
  {
  }

  lemma RetireRecords(st: StoreState, req: RetireRequest, now: int, answer: AdapterAnswer, native: VaultAnswer,
      common: VaultAnswer)
    ensures var outcome := RetireLocked(st, req, now, answer).1;
            RetireOp(st, req, now, answer, native, common).identities ==
            WithRecord(st.identities, if outcome.RetireDone? then Some(outcome.identity) else None)
  {
    RevokeAllRecords(RetireLocked(st, req, now, answer).0, req.id, now, native, common);
  }

  lemma DeleteRecords(st: StoreState, req: DeleteRequest, now: int, native: VaultAnswer, common: VaultAnswer)
    requires KeyedById(st.identities)
    ensures DeleteOp(st, req, now, native, common).identities ==
            if DeleteCheck(st, req).Ok? then st.identities - {req.id} else st.identities
  {
    if DeleteCheck(st, req).Ok? {
      var identity := DeleteCheck(st, req).value;
      RevokeAllRecords(st, identity.id, now, native, common);
      var change := DeleteFinalChanges(RevokeAll(st, identity.id, now, native, common), req, identity, now);
    }
  }

  /** Written records carry the operation's id and are active, except Retire's. */
  lemma FinalRecordState(parse: PeriodParser, st: StoreState, op: Op)
    requires RecordsOk(st) && FinalRecord(parse, st, op).Some?
    ensures var record := FinalRecord(parse, st, op).value;
            && record.state == (if op.Retires? then Retired else Active)
            && (op.Provisions? ==> ProvisionsId(parse, op, record.id))
            && (op.Registers? ==> record.id !in st.identities)
            && (op.Rotates? || op.Retires? ==> record.id in st.identities && st.identities[record.id].state == Active)
  {
  }

  // ------------------------------------------------------------- main results

  /** The id a successful provision is stored under. */
  predicate ProvisionsId(parse: PeriodParser, op: Op, id: string) {
    op.Provisions? && ProvisionError(parse, op.provision, op.now, op.created).None?
    && Provisioned(op.created.identity, op.now).id == id
  }

  predicate DeletesId(op: Op, id: string) { op.Deletes? && op.deletion.id == id && op.deletion.confirm }

  lemma OpKeepsRecords(parse: PeriodParser, st: StoreState, op: Op)
    requires RecordsOk(st)
    ensures RecordsOk(Apply(parse, st, op))
  {
    OpRecords(parse, st, op);
    if FinalRecord(parse, st, op).Some? { FinalRecordState(parse, st, op); }
  }

  /** Every operation keeps the invariant, whatever it is answered; and where the
      lists are in order and the rotations have their trails, it keeps that too. */
  lemma OpKeeps(parse: PeriodParser, st: StoreState, op: Op)
    requires StoreOk(st)
    ensures StoreOk(Apply(parse, st, op))
    ensures TrailsOk(st) ==> TrailsOk(Apply(parse, st, op))
  {
    OpKeepsRecords(parse, st, op);
    OpLog(parse, st, op, false);
    if TrailsOk(st) { OpLog(parse, st, op, true); }
  }

  /** What one operation can do to one record. */
  ghost predicate LegalChange(parse: PeriodParser, st: StoreState, op: Op, id: string)
    requires KeyedById(st.identities)
  {
    var before, after := st.identities, Apply(parse, st, op).identities;
    && (id in before && id in after && !ProvisionsId(parse, op, id) ==> Leads(before[id].state, after[id].state))
    && (id !in before && id in after ==> after[id].state == Active)
    && (id in before && id !in after <==> id in before && before[id].state == Retired && DeletesId(op, id))
    && (id in before && before[id].state == Retired && id in after ==>
         (after[id].state == Retired <==> !ProvisionsId(parse, op, id)))
  }

  lemma OpIsLegal(parse: PeriodParser, st: StoreState, op: Op, id: string)
    requires RecordsOk(st)
    ensures LegalChange(parse, st, op, id)
  {
    LeadsExactly(Active, Retired);
    LeadsReflexive(Active);
    LeadsReflexive(Retired);
    OpRecords(parse, st, op);
    if FinalRecord(parse, st, op).Some? { FinalRecordState(parse, st, op); }
  }

  /** The two writes inside a rotation are themselves allowed transitions. */
  lemma RotationWritesAreTransitions(parse: PeriodParser, st: StoreState, req: RotateRequest, now: int,
      answer: AdapterAnswer)
    requires KeyedById(st.identities) && RotationRefusal(st, req).None? && !req.dryRun
    ensures var identity := st.identities[req.id];
            var started := StartRotation(st, identity, OrDefault(req.requestedBy, ACTOR_OPERATOR), now);
            var final := RotateLocked(parse, st, req, now, answer).0;
            && CanTransition(identity.state, started.identities[req.id].state)
            && CanTransition(started.identities[req.id].state, final.identities[req.id].state)
  {
    StartsRenewing(st, st.identities[req.id], OrDefault(req.requestedBy, ACTOR_OPERATOR), now);
    EndsActive(parse, st, req, now, answer);
  }

  lemma StartsRenewing(st: StoreState, identity: Identity, operator: string, now: int)
    ensures var started := StartRotation(st, identity, operator, now).identities;
            identity.id in started && started[identity.id].state == Renewing
  {
  }

  lemma EndsActive(parse: PeriodParser, st: StoreState, req: RotateRequest, now: int, answer: AdapterAnswer)
    requires KeyedById(st.identities) && RotationRefusal(st, req).None? && !req.dryRun
    ensures var final := RotateLocked(parse, st, req, now, answer).0.identities;
            req.id in final && final[req.id].state == Active && st.identities[req.id].state == Active
  {
    RotateLockedRecord(parse, st, req, now, answer);
    assert forall s :: CanTransition(s, Renewing) <==> s == Active;
  }

  function ApplyAll(parse: PeriodParser, st: StoreState, ops: seq<Op>): StoreState
    requires RecordsOk(st)
    ensures RecordsOk(ApplyAll(parse, st, ops))
    decreases |ops|
  {
    if ops == [] then st
    else
      OpKeepsRecords(parse, st, ops[0]);
      ApplyAll(parse, Apply(parse, st, ops[0]), ops[1..])
  }

  /** Over every sequential run, whatever the lists look like at its start, for
      every identity at every point: the record is keyed by its id and active or
      retired, never renewing, and the next operation changes it only along the
      state machine. */
  lemma LifecycleSafety(parse: PeriodParser, st: StoreState, ops: seq<Op>, next: Op, id: string)
    requires RecordsOk(st)
    ensures var at := ApplyAll(parse, st, ops);
            && (id in at.identities ==> at.identities[id].id == id && at.identities[id].state != Renewing)
            && LegalChange(parse, at, next, id)
  {
    OpIsLegal(parse, ApplyAll(parse, st, ops), next, id);
  }

  /** Retirement is absorbing over a whole run while nothing deletes the
      record or provisions its id again. */
  lemma {:induction false} RetiredAbsorbing(parse: PeriodParser, st: StoreState, ops: seq<Op>, id: string)
    requires RecordsOk(st) && id in st.identities && st.identities[id].state == Retired
    requires forall op <- ops :: !DeletesId(op, id) && !ProvisionsId(parse, op, id)
    ensures var end := ApplyAll(parse, st, ops);
            id in end.identities && end.identities[id].state == Retired
    decreases |ops|
  {
    if ops != [] {
      OpIsLegal(parse, st, ops[0], id);
      OpKeepsRecords(parse, st, ops[0]);
      assert ops[0] in ops;
      RetiredAbsorbing(parse, Apply(parse, st, ops[0]), ops[1..], id);
    }
  }
}
