/** The control-plane store as a value, and what each lock-protected section of
    its operations does to it. The class in `Lifecycle` is proved against these
    functions, and the interleaved machine takes them as its atomic steps. */
module Sections {
  import opened Wrappers
  import opened Text
  import opened Protocol

  const ACTOR_CONTROL_PLANE := "control-plane"
  const ACTOR_PROVIDER_ADAPTER := "provider-adapter"
  const ACTOR_DISCOVERY := "discovery"
  const ACTOR_OPERATOR := "operator"
  const SWEEPER := "system:sweeper"

  /** The store's maps and counters, and every event offered to the audit sink so far. */
  datatype StoreState = StoreState(
    identities: map<string, Identity>,
    events: map<string, seq<Event>>,
    runs: map<string, seq<Run>>,
    nextEvent: nat, nextRun: nat,
    sink: seq<Event>)

  const EMPTY: StoreState := StoreState(map[], map[], map[], 0, 0, [])

  function EventsOf(st: StoreState, id: string): seq<Event> {
    if id in st.events then st.events[id] else []
  }

  function RunsOf(st: StoreState, id: string): seq<Run> {
    if id in st.runs then st.runs[id] else []
  }

  /** Each key maps to the record with that id. */
  ghost predicate KeyedById(identities: map<string, Identity>) {
    forall id :: id in identities ==> identities[id].id == id
  }

  function AddEvent(st: StoreState, id: string, at: int, kind: EventType, actor: string, outcome: Outcome,
                    run: Option<nat>): StoreState {
    var event := Event(st.nextEvent + 1, id, kind, actor, outcome, at, run);
    st.(nextEvent := st.nextEvent + 1, events := st.events[id := EventsOf(st, id) + [event]], sink := st.sink + [event])
  }

  function Put(st: StoreState, id: string, identity: Identity): StoreState {
    st.(identities := st.identities[id := identity])
  }

  // ------------------------------------------------ discovery and provisioning

  /** How renewal periods are read; the program's instance is
      `ParseISO8601Duration`. */
  type PeriodParser = string -> Option<int>

  function FixIdentity(identity: Identity): Identity {
    identity.(id := if identity.id == "" then identity.name else identity.id,
              health := if identity.health.Unset? then Healthy else identity.health)
  }

  predicate ValidIdentity(parse: PeriodParser, v: Identity) {
    && v.id != "" && v.name != "" && v.provider != "" && v.providerId != ""
    && v.team != "" && v.service != "" && v.purpose != ""
    && !v.state.OtherState?
    && (v.health.Healthy? || v.health.Attention?)
    && (v.renewalPeriod == "" || parse(v.renewalPeriod).Some?)
  }

  /** The record a discovered or provisioned identity is stored as. */
  function Governed(identity: Identity, now: int): Identity {
    identity.(state := Active, createdAt := now, updatedAt := now)
  }

  /** The record a newly created identity is stored as. */
  function Provisioned(identity: Identity, now: int): Identity {
    Governed(FixIdentity(identity), now).(health := Healthy)
  }

  /** Store an identity with its discovery and registration events. */
  function Adopt(st: StoreState, identity: Identity, now: int, registrar: string): StoreState {
    var discovered := AddEvent(Put(st, identity.id, identity), identity.id, now,
                               IdentityDiscovered, ACTOR_DISCOVERY, Success, None);
    AddEvent(discovered, identity.id, now, IdentityRegistered, registrar, Success, None)
  }

  // ------------------------------------------------------------- registration

  datatype RegisterRequest = RegisterRequest(
    id: string, name: string, provider: string, providerId: string, team: string, service: string,
    purpose: string, renewalPeriod: string, keyId: string, requestedBy: string)

  function OrDefault(requestedBy: string, default: string): string {
    if requestedBy != "" then requestedBy else default
  }

  predicate RegisterConforms(parse: PeriodParser, req: RegisterRequest) {
    && req.name != "" && req.provider != "" && req.providerId != "" && req.team != ""
    && req.renewalPeriod != "" && parse(req.renewalPeriod).Some?
  }

  function RegisteredId(req: RegisterRequest): string { if req.id == "" then req.name else req.id }

  function RegisteredIdentity(parse: PeriodParser, req: RegisterRequest, now: int): Identity
    requires RegisterConforms(parse, req)
  {
    Identity(RegisteredId(req), req.name, req.provider, req.providerId, req.team, req.service, req.purpose,
             req.renewalPeriod, req.keyId, Active, Healthy, now + parse(req.renewalPeriod).value, 0, now, now, map[])
  }

  function Register(parse: PeriodParser, st: StoreState, req: RegisterRequest, now: int)
    : (r: (StoreState, Result<Identity, LifecycleError>))
  {
    if !RegisterConforms(parse, req) then (st, Err(Conformance))
    else if RegisteredId(req) in st.identities then (st, Err(AlreadyRegistered))
    else
      var identity := RegisteredIdentity(parse, req, now);
      (AddEvent(Put(st, identity.id, identity), identity.id, now, IdentityRegistered,
                OrDefault(req.requestedBy, ACTOR_CONTROL_PLANE), Success, None), Ok(identity))
  }

  // ------------------------------------------------------------------ rotation

  datatype RotateRequest = RotateRequest(id: string, requestedBy: string, dryRun: bool)

  /** What the provider adapter answers to a mutating call. */
  datatype AdapterAnswer = View(identity: Identity) | AdapterError(forbidden: bool, message: string)

  function ProviderOperationError(answer: AdapterAnswer): LifecycleError
    requires answer.AdapterError?
  {
    if answer.forbidden then Forbidden else ProviderFailure
  }

  /** How the locked section of Rotate ends. */
  datatype LockedRotation =
    | Rejected(error: LifecycleError)
    | Planned(identity: Identity)
    | AdapterFailed(error: LifecycleError)
    | Completed(identity: Identity, run: Run)

  function WorkflowActor(operator: string): string { if operator == SWEEPER then operator else ACTOR_CONTROL_PLANE }

  function TerminalActor(operator: string): string { if operator == SWEEPER then operator else ACTOR_PROVIDER_ADAPTER }

  function NewRun(st: StoreState, id: string, operator: string, now: int): Run {
    Run(st.nextRun + 1, id, Running, operator, now, 0, None, "", "")
  }

  /** The run, the renewing record and the two opening events. */
  function StartRotation(st: StoreState, identity: Identity, operator: string, now: int): StoreState {
    var id, run := identity.id, NewRun(st, identity.id, operator, now);
    var s1 := st.(nextRun := st.nextRun + 1, runs := st.runs[id := RunsOf(st, id) + [run]]);
    var s2 := Put(s1, id, identity.(state := Renewing));
    var s3 := AddEvent(s2, id, now, RotationRequested, operator, InProgress, Some(run.num));
    AddEvent(s3, id, now, RotationStarted, WorkflowActor(operator), InProgress, Some(run.num))
  }

  /** Overwrite the last run of an identity (the source indexes it by the length before the append). */
  function SetRun(st: StoreState, id: string, run: Run): StoreState
    requires RunsOf(st, id) != []
  {
    var runs := RunsOf(st, id);
    st.(runs := st.runs[id := runs[|runs| - 1 := run]])
  }

  /** The closing writes of both outcomes: the record, the run, the terminal event. */
  function FinishRotation(st: StoreState, record: Identity, run: Run, kind: EventType, outcome: Outcome,
      now: int): StoreState
    requires RunsOf(st, record.id) != []
  {
    AddEvent(SetRun(Put(st, record.id, record), record.id, run), record.id, now, kind,
             TerminalActor(run.requestedBy), outcome, Some(run.num))
  }

  function FailedRecord(identity: Identity): Identity { identity.(state := Active, health := Attention) }

  function FailedRunOf(run: Run, message: string, now: int): Run {
    run.(status := FailedRun, outcome := Some(Failure), finishedAt := now, error := message)
  }

  /** The provider's view becomes the record; governance keeps id, state and expiry. */
  function Rotated(parse: PeriodParser, before: Identity, view: Identity, id: string, now: int): Identity {
    var period := match parse(before.renewalPeriod) case Some(d) => d case None => 0;
    view.(id := id, state := Active, health := Healthy, expiresAt := now + period,
          lastRotatedAt := now, updatedAt := now)
  }

  function SucceededRun(run: Run, identity: Identity, now: int): Run {
    run.(status := Succeeded, outcome := Some(Success), finishedAt := now, evidence := identity.keyId)
  }

  function RotationRefusal(st: StoreState, req: RotateRequest): Option<LifecycleError> {
    if Blank(req.id) then Some(Conformance)
    else if req.id !in st.identities then Some(NotFound)
    else
      var state := st.identities[req.id].state;
      if state == Retired then Some(AlreadyRetired)
      else if state == Renewing then Some(RotationInProgress)
      else if !CanTransition(state, Renewing) then Some(InvalidTransition(state))
      else None
  }

  /** Rotate from taking the lock to first releasing it; the adapter is called inside. */
  function RotateLocked(parse: PeriodParser, st: StoreState, req: RotateRequest, now: int, answer: AdapterAnswer)
    : (StoreState, LockedRotation)
    requires KeyedById(st.identities)
  {
    if RotationRefusal(st, req).Some? then (st, Rejected(RotationRefusal(st, req).value))
    else if req.dryRun then (st, Planned(st.identities[req.id]))
    else
      var identity, operator := st.identities[req.id], OrDefault(req.requestedBy, ACTOR_OPERATOR);
      var run := NewRun(st, identity.id, operator, now);
      var started := StartRotation(st, identity, operator, now);
      match answer
      case AdapterError(_, message) =>
        (FinishRotation(started, FailedRecord(identity), FailedRunOf(run, message, now), RotationFailed, Failure, now),
         AdapterFailed(ProviderOperationError(answer)))
      case View(view) =>
        var rotated := Rotated(parse, identity, view, req.id, now);
        (FinishRotation(started, rotated, SucceededRun(run, rotated, now), RotationCompleted, Success, now),
         Completed(rotated, SucceededRun(run, rotated, now)))
  }

  // --------------------------------------------------------------------- vaults

  /** One vault call. A missing vault, an empty secret and an unsupported
      capability leave no trace. */
  datatype VaultAnswer = NoVault | VaultFailed | VaultDone(ref: VaultReference)

  /** Delivery and revocation record one event unless the vault is absent. */
  function VaultEvent(st: StoreState, id: string, kind: EventType, now: int, answer: VaultAnswer): StoreState {
    match answer
    case NoVault => st
    case VaultFailed => AddEvent(st, id, now, kind, ACTOR_PROVIDER_ADAPTER, NeedsAttention, None)
    case VaultDone(_) => AddEvent(st, id, now, kind, ACTOR_PROVIDER_ADAPTER, Success, None)
  }

  function Deliver(st: StoreState, id: string, now: int, answer: VaultAnswer): StoreState {
    VaultEvent(st, id, CredentialDelivered, now, answer)
  }

  function Revoke(st: StoreState, id: string, now: int, answer: VaultAnswer): StoreState {
    VaultEvent(st, id, CredentialRevoked, now, answer)
  }

  function WithReference(metadata: Metadata, prefix: string, ref: VaultReference): Metadata {
    var m1 := if ref.url != "" then metadata[prefix + "vault_url" := ref.url] else metadata;
    var m2 := m1[prefix + "vault_secret" := ref.secretName];
    if ref.version != "" then m2[prefix + "vault_version" := ref.version] else m2
  }

  function WithVaults(metadata: Metadata, native: VaultAnswer, common: VaultAnswer): Metadata {
    var m1 := if native.VaultDone? then WithReference(metadata, "", native.ref) else metadata;
    if common.VaultDone? then WithReference(m1, "common_", common.ref) else m1
  }

  /** The copy written back after delivery, taken before the lock was released. */
  function Delivered(identity: Identity, native: VaultAnswer, common: VaultAnswer, now: int): Identity {
    if native.VaultDone? || common.VaultDone? then
      identity.(metadata := WithVaults(identity.metadata, native, common), updatedAt := now)
    else identity
  }

  function WriteBack(st: StoreState, identity: Identity, native: VaultAnswer, common: VaultAnswer,
      now: int): StoreState {
    if native.VaultDone? || common.VaultDone? then Put(st, identity.id, Delivered(identity, native, common, now))
    else st
  }

  // ----------------------------------------------------------------- retirement

  datatype RetireRequest = RetireRequest(id: string, requestedBy: string, confirm: bool, dryRun: bool)

  datatype LockedRetirement =
    | RetireRejected(error: LifecycleError)
    | RetirePlanned(identity: Identity)
    | RetireDone(identity: Identity)

  function RetireRefusal(st: StoreState, req: RetireRequest): Option<LifecycleError> {
    if Blank(req.id) then Some(Conformance)
    else if !req.dryRun && !req.confirm then Some(ConfirmationNeeded)
    else if req.id !in st.identities then Some(NotFound)
    else
      var state := st.identities[req.id].state;
      if state == Retired then Some(AlreadyRetired)
      else if !CanTransition(state, Retired) then Some(InvalidTransition(state))
      else None
  }

  function RetiredRecord(view: Identity, id: string, now: int): Identity {
    view.(id := id, state := Retired, health := Attention, updatedAt := now)
  }

  function RetireLocked(st: StoreState, req: RetireRequest, now: int, answer: AdapterAnswer)
    : (StoreState, LockedRetirement)
  {
    if RetireRefusal(st, req).Some? then (st, RetireRejected(RetireRefusal(st, req).value))
    else if req.dryRun then (st, RetirePlanned(st.identities[req.id]))
    else match answer
      case AdapterError(_, _) => (st, RetireRejected(ProviderOperationError(answer)))
      case View(view) =>
        var retired := RetiredRecord(view, req.id, now);
        (AddEvent(Put(st, req.id, retired), req.id, now, IdentityRetired,
                  OrDefault(req.requestedBy, ACTOR_OPERATOR), Success, None), RetireDone(retired))
  }

  // ------------------------------------------------------------------- deletion

  datatype DeleteRequest = DeleteRequest(id: string, requestedBy: string, confirm: bool)

  /** The first section of Delete: what is about to be purged. */
  function DeleteCheck(st: StoreState, req: DeleteRequest): Result<Identity, LifecycleError> {
    if !req.confirm then Err(ConfirmationNeeded)
    else if req.id !in st.identities then Err(NotFound)
    else if st.identities[req.id].state != Retired then Err(NotRetired(st.identities[req.id].state))
    else Ok(st.identities[req.id])
  }

  function Purge(st: StoreState, id: string): StoreState {
    st.(identities := st.identities - {id}, events := st.events - {id}, runs := st.runs - {id})
  }

  /** The last section of Delete; the value is the final audit snapshot. */
  function DeleteFinal(st: StoreState, req: DeleteRequest, identity: Identity, now: int)
    : (StoreState, Result<seq<Event>, LifecycleError>)
  {
    if req.id !in st.identities then (st, Err(NotFound))
    else
      var noted := AddEvent(st, identity.id, now, IdentityDeleted, OrDefault(req.requestedBy, ACTOR_OPERATOR),
        Success, None);
      (Purge(noted, identity.id), Ok(EventsOf(noted, identity.id)))
  }

  // ------------------------------------------------------------------------ use

  datatype UseRequest = UseRequest(id: string, requestedBy: string)

  datatype ReadAnswer = VaultAbsent | ReadUnsupported | ReadFailed | SecretRead(secret: string, ref: VaultReference)

  function UseCheck(st: StoreState, id: string): Result<Identity, LifecycleError> {
    if id !in st.identities then Err(NotFound)
    else if st.identities[id].state == Retired then Err(AlreadyRetired)
    else Ok(st.identities[id])
  }

  /** Which vault serves the read: only an intentionally unsupported native
      vault falls back to the cluster vault. */
  function UseSource(native: ReadAnswer, common: ReadAnswer): Result<(string, VaultReference), LifecycleError> {
    if native.VaultAbsent? && common.VaultAbsent? then Err(VaultUnsupported)
    else match native
      case SecretRead(secret, ref) => Ok((secret, ref))
      case ReadFailed => Err(ProviderFailure)
      case _ =>
        match common
        case SecretRead(secret, ref) => Ok((secret, ref))
        case _ => Err(ProviderFailure)
  }

  function RecordUse(st: StoreState, id: string, requestedBy: string, now: int): StoreState {
    AddEvent(st, id, now, CredentialUsed, OrDefault(requestedBy, ACTOR_OPERATOR), Success, None)
  }
}
