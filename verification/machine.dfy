/** Any number of store operations in flight. An operation's locked sections are
    atomic; between them every other operation may run. The store's watcher is off. */
module Machine {
  import opened Wrappers
  import opened Protocol
  import opened Sections
  import opened Numbered

  /** Why a credential is being revoked. */
  datatype Purpose = ForRetire | ForDelete(req: DeleteRequest)

  /** What an operation that released the lock still has to do. Provision and
      Rotate end alike: native delivery, mirror delivery, write-back of the copy
      taken under the lock. */
  datatype Call =
    | Delivering(identity: Identity, now: int)
    | Mirroring(identity: Identity, now: int, native: VaultAnswer)
    | WritingBack(identity: Identity, now: int, native: VaultAnswer, common: VaultAnswer)
    | Revoking(identity: Identity, now: int, purpose: Purpose)
    | RevokingCommon(identity: Identity, now: int, purpose: Purpose)
    | Deleting(identity: Identity, now: int, req: DeleteRequest)
    | Using(id: string, now: int, requestedBy: string)

  /** How a Delete call returned; `Removed(false)` removed the record but could
      not persist, so its caller got an error. */
  datatype DeleteOutcome = Removed(persisted: bool) | Refused(error: LifecycleError)

  datatype DeleteReturn = DeleteReturn(id: string, outcome: DeleteOutcome)

  /** The store, the calls in flight, and two pieces of history: how Deletes
      returned, and where in the sink each identity's log was last purged. */
  datatype System = System(
    st: StoreState, calls: map<nat, Call>,
    finished: seq<DeleteReturn>, marks: map<string, nat>, purged: nat)

  datatype Step =
    | Provision(call: nat, identity: Identity, now: int, requestedBy: string, secret: bool)
    | RegisterNew(registration: RegisterRequest, now: int)
    | Rotate(call: nat, rotation: RotateRequest, now: int, answer: AdapterAnswer, secret: bool)
    | Retire(call: nat, retirement: RetireRequest, now: int, answer: AdapterAnswer)
    | Delete(call: nat, deletion: DeleteRequest, now: int)
    | Use(call: nat, use: UseRequest, now: int)
    | Proceed(call: nat, vault: VaultAnswer, saved: bool)

  predicate Enabled(parse: PeriodParser, sys: System, s: Step) {
    match s
    case Proceed(call, _, _) => call in sys.calls
    case RegisterNew(_, _) => true
    case Provision(call, identity, now, _, _) => call !in sys.calls && ValidIdentity(parse, Provisioned(identity, now))
    case _ => s.call !in sys.calls
  }

  // ------------------------------------------------------- one atomic section

  /** The store after the next section of a call in flight. */
  function Section(st: StoreState, call: Call, vault: VaultAnswer): StoreState {
    match call
    case Delivering(identity, now) => Deliver(st, identity.id, now, vault)
    case Mirroring(identity, now, _) => Deliver(st, identity.id, now, vault)
    case WritingBack(identity, now, native, common) => WriteBack(st, identity, native, common, now)
    case Revoking(identity, now, _) => Sections.Revoke(st, identity.id, now, vault)
    case RevokingCommon(identity, now, _) => Sections.Revoke(st, identity.id, now, vault)
    case Deleting(identity, now, req) => DeleteFinal(st, req, identity, now).0
    // A read that no vault could serve returns an error and records nothing.
    case Using(id, now, requestedBy) => if vault.VaultDone? then RecordUse(st, id, requestedBy, now) else st
  }

  /** What a call still has to do after its next section. */
  function Remaining(call: Call, vault: VaultAnswer): Option<Call> {
    match call
    case Delivering(identity, now) => Some(Mirroring(identity, now, vault))
    case Mirroring(identity, now, native) => Some(WritingBack(identity, now, native, vault))
    case Revoking(identity, now, purpose) => Some(RevokingCommon(identity, now, purpose))
    case RevokingCommon(identity, now, ForDelete(req)) => Some(Deleting(identity, now, req))
    case _ => None
  }

  function StoreAfter(parse: PeriodParser, sys: System, s: Step): StoreState
    requires KeyedById(sys.st.identities) && Enabled(parse, sys, s)
  {
    match s
    case Provision(_, identity, now, requestedBy, _) => Adopt(sys.st, Provisioned(identity, now), now, requestedBy)
    case RegisterNew(req, now) => Register(parse, sys.st, req, now).0
    case Rotate(_, req, now, answer, _) => RotateLocked(parse, sys.st, req, now, answer).0
    case Retire(_, req, now, answer) => RetireLocked(sys.st, req, now, answer).0
    case Proceed(call, vault, _) => Section(sys.st, sys.calls[call], vault)
    case _ => sys.st
  }

  /** The call an arriving operation leaves in flight, if any. */
  function Opened(parse: PeriodParser, sys: System, s: Step): Option<Call>
    requires KeyedById(sys.st.identities)
  {
    match s
    case Provision(_, identity, now, _, secret) =>
      if secret then Some(Delivering(Provisioned(identity, now), now)) else None
    case Rotate(_, req, now, answer, secret) =>
      var outcome := RotateLocked(parse, sys.st, req, now, answer).1;
      if outcome.Completed? && secret then Some(Delivering(outcome.identity, now)) else None
    case Retire(_, req, now, answer) =>
      var outcome := RetireLocked(sys.st, req, now, answer).1;
      if outcome.RetireDone? then Some(Revoking(outcome.identity, now, ForRetire)) else None
    case Delete(_, req, now) =>
      (match DeleteCheck(sys.st, req)
       case Ok(identity) => Some(Revoking(identity, now, ForDelete(req)))
       case Err(_) => None)
    case Use(_, req, now) =>
      if UseCheck(sys.st, req.id).Ok? then Some(Using(req.id, now, req.requestedBy)) else None
    case _ => None
  }

  function Set(calls: map<nat, Call>, c: nat, call: Option<Call>): map<nat, Call> {
    match call
    case None => calls - {c}
    case Some(v) => calls[c := v]
  }

  function CallsAfter(parse: PeriodParser, sys: System, s: Step): map<nat, Call>
    requires KeyedById(sys.st.identities) && Enabled(parse, sys, s)
  {
    match s
    case RegisterNew(_, _) => sys.calls
    case Proceed(c, vault, _) => Set(sys.calls, c, Remaining(sys.calls[c], vault))
    case _ => Set(sys.calls, s.call, Opened(parse, sys, s))
  }

  /** The Delete call that returns in this step, if one does. */
  function ReturnOf(sys: System, s: Step): Option<DeleteReturn> {
    match s
    case Delete(_, req, _) =>
      (match DeleteCheck(sys.st, req)
       case Ok(_) => None
       case Err(error) => Some(DeleteReturn(req.id, Refused(error))))
    case Proceed(c, _, saved) =>
      if c in sys.calls && sys.calls[c].Deleting? then
        var req := sys.calls[c].req;
        match DeleteFinal(sys.st, req, sys.calls[c].identity, sys.calls[c].now).1
        case Ok(_) => Some(DeleteReturn(req.id, Removed(saved)))
        case Err(error) => Some(DeleteReturn(req.id, Refused(error)))
      else None
    case _ => None
  }

  /** Only the last section of a Delete purges, and only if the record is still there. */
  predicate Purges(sys: System, s: Step) {
    s.Proceed? && s.call in sys.calls && sys.calls[s.call].Deleting? && sys.calls[s.call].req.id in sys.st.identities
  }

  /** One atomic section. A step that is not enabled changes nothing. */
  function Next(parse: PeriodParser, sys: System, s: Step): System
    requires KeyedById(sys.st.identities)
  {
    if !Enabled(parse, sys, s) then sys
    else
      var st := StoreAfter(parse, sys, s);
      System(st, CallsAfter(parse, sys, s),
             sys.finished + (match ReturnOf(sys, s) case None => [] case Some(r) => [r]),
             if Purges(sys, s) then sys.marks[sys.calls[s.call].identity.id := |st.sink|] else sys.marks,
             // everything filed under the identity, and the deletion event itself
             if Purges(sys, s) then sys.purged + |EventsOf(sys.st, sys.calls[s.call].identity.id)| + 1 else sys.purged)
  }
}
