/** Protocol objects: lifecycle states, identities, audit events, rotation runs. */
module Protocol {
  import opened Wrappers
  import opened Text

  // ------------------------------------------------------------ transitions

  /** State values are strings on the wire; unknown ones stay representable. */
  datatype State = Registered | Active | Renewing | Retired | OtherState(name: string)

  function AllowedTransitions(from: State): Option<set<State>> {
    match from
    case Registered => Some({Active})
    case Active => Some({Renewing, Retired})
    case Renewing => Some({Active, Retired})
    case Retired => Some({})
    case OtherState(_) => None
  }

  predicate CanTransition(from: State, to: State) {
    match AllowedTransitions(from)
    case None => false
    case Some(targets) => to in targets
  }

  /** The table, entry by entry. */
  lemma TransitionsExactly(from: State, to: State)
    ensures CanTransition(from, to) <==>
            || (from == Registered && to == Active)
            || (from == Active && (to == Renewing || to == Retired))
            || (from == Renewing && (to == Active || to == Retired))
  {
  }

  /** A walk through the state machine. */
  ghost predicate IsPath(path: seq<State>) {
    path != [] && forall i :: 0 <= i < |path| - 1 ==> CanTransition(path[i], path[i + 1])
  }

  ghost predicate PathBetween(path: seq<State>, from: State, to: State) {
    IsPath(path) && path[0] == from && path[|path| - 1] == to
  }

  ghost predicate Leads(from: State, to: State) { exists path :: PathBetween(path, from, to) }

  lemma LeadsReflexive(s: State)
    ensures Leads(s, s)
  {
    assert PathBetween([s], s, s);
  }

  /** Exactly which changes the state machine permits, in any number of steps:
      retirement is final and nothing else is. */
  lemma LeadsExactly(from: State, to: State)
    ensures Leads(from, to) <==>
            from == to ||
            (from.Registered? && (to.Active? || to.Renewing? || to.Retired?)) ||
            ((from.Active? || from.Renewing?) && (to.Active? || to.Renewing? || to.Retired?))
  {
    if path :| PathBetween(path, from, to) { PathStays(path); }
    assert PathBetween([Registered, Active], Registered, Active);
    assert PathBetween([Registered, Active, Renewing], Registered, Renewing);
    assert PathBetween([Registered, Active, Retired], Registered, Retired);
    assert PathBetween([Active, Renewing], Active, Renewing);
    assert PathBetween([Active, Retired], Active, Retired);
    assert PathBetween([Renewing, Active], Renewing, Active);
    assert PathBetween([Renewing, Retired], Renewing, Retired);
    LeadsReflexive(from);
  }

  lemma {:induction false} PathStays(path: seq<State>)
    requires IsPath(path)
    ensures var last := path[|path| - 1];
            && (path[0].Retired? || path[0].OtherState? ==> last == path[0])
            && (path[0].Active? || path[0].Renewing? ==> last.Active? || last.Renewing? || last.Retired?)
            && (path[0].Registered? ==> last.Registered? || last.Active? || last.Renewing? || last.Retired?)
  {
    if |path| > 1 {
      assert CanTransition(path[0], path[1]);
      var rest := path[1..];
      forall i | 0 <= i < |rest| - 1 ensures CanTransition(rest[i], rest[i + 1]) {
        assert CanTransition(path[i + 1], path[i + 2]);
      }
      PathStays(rest);
    }
  }

  // ---------------------------------------------------------------- records

  datatype Health = Unset | Healthy | Attention | OtherHealth(name: string)

  datatype Identity = Identity(
    id: string, name: string, provider: string, providerId: string,
    team: string, service: string, purpose: string,
    renewalPeriod: string, keyId: string,
    state: State, health: Health,
    expiresAt: int, lastRotatedAt: int, createdAt: int, updatedAt: int,
    metadata: map<string, string>)

  datatype EventType =
    | IdentityDiscovered | IdentityRegistered
    | RotationRequested | RotationStarted | RotationCompleted | RotationFailed
    | CredentialDelivered | CredentialUsed | CredentialRevoked
    | IdentityRetired | IdentityDeleted

  datatype Outcome = Success | InProgress | NeedsAttention | Failure

  /** An audit event. Its identifier is `evt-%03d` of its number, and numbers and
      identifiers determine each other (`Text.IdsInjective`). */
  datatype Event = Event(
    num: nat, identityId: string, kind: EventType, actor: string, outcome: Outcome,
    at: int, run: Option<nat>)
  {
    function Id(): string { EventId(num) }
  }

  datatype RunStatus = Pending | Running | Succeeded | FailedRun | RolledBack

  datatype Run = Run(
    num: nat, identityId: string, status: RunStatus, requestedBy: string,
    requestedAt: int, finishedAt: int, outcome: Option<Outcome>, evidence: string, error: string)
  {
    function Id(): string { RunId(num) }
  }

  datatype VaultReference = VaultReference(url: string, secretName: string, version: string)

  type Metadata = map<string, string>

  datatype LifecycleError =
    | NotFound | AlreadyRetired | NotRetired(state: State) | RotationInProgress
    | InvalidTransition(from: State) | AlreadyRegistered | ConfirmationNeeded
    | Conformance | Forbidden | ProviderFailure | VaultUnsupported | PersistenceFailure | RepositoryClosed

  // ---------------------------------------------------------------- urgency

  datatype Urgency = UrgencyHealthy | Expiring | Overdue | UrgencyRetired

  const DASHBOARD_EXPIRY_WINDOW: int := 30 * 24 * 3_600_000_000_000

  function ComputeUrgency(identity: Identity, now: int): Urgency {
    if identity.state == Retired then UrgencyRetired
    else if !(identity.expiresAt > now) then Overdue
    else if identity.expiresAt < now + DASHBOARD_EXPIRY_WINDOW then Expiring
    else UrgencyHealthy
  }

  /** The four urgencies by what makes each. */
  lemma UrgencyExactly(v: Identity, now: int)
    ensures ComputeUrgency(v, now) == UrgencyRetired <==> v.state == Retired
    ensures ComputeUrgency(v, now) == Overdue <==> v.state != Retired && v.expiresAt <= now
    ensures ComputeUrgency(v, now) == Expiring <==>
            v.state != Retired && now < v.expiresAt < now + 30 * 24 * 3_600_000_000_000
    ensures ComputeUrgency(v, now) == UrgencyHealthy <==>
            v.state != Retired && now + 30 * 24 * 3_600_000_000_000 <= v.expiresAt
  {
  }

  /** As time passes an identity only becomes more urgent: whatever is healthy later
      was healthy before, and once overdue it stays so until renewed or retired. */
  lemma UrgencyMonotone(identity: Identity, earlier: int, later: int)
    requires earlier <= later
    ensures ComputeUrgency(identity, later).UrgencyHealthy? ==> ComputeUrgency(identity, earlier).UrgencyHealthy?
    ensures ComputeUrgency(identity, later).Expiring? ==>
            ComputeUrgency(identity, earlier).UrgencyHealthy? || ComputeUrgency(identity, earlier).Expiring?
    ensures ComputeUrgency(identity, earlier).Overdue? ==> ComputeUrgency(identity, later).Overdue?
  {
  }
}
