/** The interleaved machine and the sequential operations are the same program: an
    operation whose sections nothing interrupts leaves what the operation leaves. */
module SequentialRuns {
  import opened Wrappers
  import opened Text
  import opened Protocol
  import opened Sections
  import opened StoreInvariants
  import opened Machine
  import opened Interleaving
  import opened Operations
  import opened Deletion

  /** An arrival and three further sections; a section of a call that has returned
      is not enabled and changes nothing. */
  function Uninterrupted(arrival: Step, c: nat, first: VaultAnswer, second: VaultAnswer): seq<Step> {
    [arrival] + Rest(c, first, second)
  }

  function Rest(c: nat, first: VaultAnswer, second: VaultAnswer): seq<Step> {
    [Proceed(c, first, true)] + ([Proceed(c, second, true)] + [Proceed(c, NoVault, true)])
  }

  /** What a read of both vaults comes to for the section that records it. */
  function ReadOf(native: ReadAnswer, common: ReadAnswer): VaultAnswer {
    match UseSource(native, common)
    case Ok((_, ref)) => VaultDone(ref)
    case Err(_) => NoVault
  }

  function StepsOf(parse: PeriodParser, op: Op, c: nat): seq<Step> {
    match op
    case Registers(req, now) => Uninterrupted(RegisterNew(req, now), c, NoVault, NoVault)
    case Provisions(req, now, created, native, common) =>
      if ProvisionError(parse, req, now, created).Some? then []
      else Uninterrupted(Provision(c, created.identity, now, OrDefault(req.requestedBy, ACTOR_CONTROL_PLANE),
                                   created.secret), c, native, common)
    case Rotates(req, now, answer, secret, native, common) =>
      Uninterrupted(Rotate(c, req, now, answer, secret), c, native, common)
    case Retires(req, now, answer, native, common) => Uninterrupted(Retire(c, req, now, answer), c, native, common)
    case Deletes(req, now, native, common) => Uninterrupted(Delete(c, req, now), c, native, common)
    case Uses(req, now, native, common) => Uninterrupted(Use(c, req, now), c, ReadOf(native, common), NoVault)
  }

  ghost predicate Ends(parse: PeriodParser, sys: System, steps: seq<Step>, st: StoreState, calls: map<nat, Call>)
    requires SystemOk(sys)
  {
    Execute(parse, sys, steps).st == st && Execute(parse, sys, steps).calls == calls
  }

  lemma StepEnds(parse: PeriodParser, sys: System, s: Step, next: System, rest: seq<Step>, st: StoreState,
      calls: map<nat, Call>)
    requires SystemOk(sys) && SystemOk(next) && next == Next(parse, sys, s) && Ends(parse, next, rest, st, calls)
    ensures Ends(parse, sys, [s] + rest, st, calls)
  {
    ExecuteCons(parse, sys, s, rest);
  }

  /** The next section of a call that is in flight. */
  lemma Proceeds(parse: PeriodParser, sys: System, c: nat, vault: VaultAnswer) returns (next: System)
    requires SystemOk(sys) && c in sys.calls
    ensures SystemOk(next) && next == Next(parse, sys, Proceed(c, vault, true))
    ensures next.st == Section(sys.st, sys.calls[c], vault)
    ensures next.calls == Machine.Set(sys.calls, c, Remaining(sys.calls[c], vault))
  {
    next := Next(parse, sys, Proceed(c, vault, true));
    StepKeeps(parse, sys, Proceed(c, vault, true));
  }

  /** Sections of a call that is not in flight. */
  lemma {:induction false} NothingLeft(parse: PeriodParser, sys: System, c: nat, steps: seq<Step>)
    requires SystemOk(sys) && c !in sys.calls && forall s <- steps :: s.Proceed? && s.call == c
    ensures Ends(parse, sys, steps, sys.st, sys.calls)
    decreases |steps|
  {
    if steps != [] {
      assert steps[0] in steps && Next(parse, sys, steps[0]) == sys;
      NothingLeft(parse, sys, c, steps[1..]);
      assert steps == [steps[0]] + steps[1..];
      StepEnds(parse, sys, steps[0], sys, steps[1..], sys.st, sys.calls);
    }
  }

  /** The last section of a call, and sections after it. */
  lemma LastLeft(parse: PeriodParser, sys: System, c: nat, vault: VaultAnswer, rest: seq<Step>)
    requires SystemOk(sys) && c in sys.calls && Remaining(sys.calls[c], vault).None?
    requires forall s <- rest :: s.Proceed? && s.call == c
    ensures Ends(parse, sys, [Proceed(c, vault, true)] + rest, Section(sys.st, sys.calls[c], vault), sys.calls - {c})
  {
    var next := Proceeds(parse, sys, c, vault);
    NothingLeft(parse, next, c, rest);
    StepEnds(parse, sys, Proceed(c, vault, true), next, rest, next.st, next.calls);
  }

  /** A section that leaves this call, and what follows. */
  lemma NextLeft(parse: PeriodParser, sys: System, c: nat, vault: VaultAnswer, next: System, rest: seq<Step>,
      st: StoreState)
    requires SystemOk(sys) && c in sys.calls && SystemOk(next) && next == Next(parse, sys, Proceed(c, vault, true))
    requires Remaining(sys.calls[c], vault).Some? && next.calls == sys.calls[c := Remaining(sys.calls[c], vault).value]
    requires Ends(parse, next, rest, st, next.calls - {c})
    ensures Ends(parse, sys, [Proceed(c, vault, true)] + rest, st, sys.calls - {c})
  {
    assert next.calls - {c} == sys.calls - {c};
    StepEnds(parse, sys, Proceed(c, vault, true), next, rest, st, sys.calls - {c});
  }

  lemma DeliveriesLeft(parse: PeriodParser, sys: System, c: nat, identity: Identity, now: int, native: VaultAnswer,
      common: VaultAnswer)
    requires SystemOk(sys) && c in sys.calls && sys.calls[c] == Delivering(identity, now)
    ensures Ends(parse, sys, Rest(c, native, common), DeliverAll(sys.st, identity, now, native, common),
                 sys.calls - {c})
  {
    var last := [Proceed(c, NoVault, true)];
    var s2 := Proceeds(parse, sys, c, native);
    var s3 := Proceeds(parse, s2, c, common);
    LastLeft(parse, s3, c, NoVault, []);
    assert last == last + [];
    NextLeft(parse, s2, c, common, s3, last, DeliverAll(sys.st, identity, now, native, common));
    NextLeft(parse, sys, c, native, s2, [Proceed(c, common, true)] + last,
             DeliverAll(sys.st, identity, now, native, common));
  }

  lemma RetirementLeft(parse: PeriodParser, sys: System, c: nat, identity: Identity, now: int, native: VaultAnswer,
      common: VaultAnswer)
    requires SystemOk(sys) && c in sys.calls && sys.calls[c] == Revoking(identity, now, ForRetire)
    ensures Ends(parse, sys, Rest(c, native, common), RevokeAll(sys.st, identity.id, now, native, common),
                 sys.calls - {c})
  {
    var s2 := Proceeds(parse, sys, c, native);
    LastLeft(parse, s2, c, common, [Proceed(c, NoVault, true)]);
    NextLeft(parse, sys, c, native, s2, [Proceed(c, common, true)] + [Proceed(c, NoVault, true)],
             RevokeAll(sys.st, identity.id, now, native, common));
  }

  lemma DeletionLeft(parse: PeriodParser, sys: System, c: nat, identity: Identity, now: int, req: DeleteRequest,
      native: VaultAnswer, common: VaultAnswer)
    requires SystemOk(sys) && c in sys.calls && sys.calls[c] == Revoking(identity, now, ForDelete(req))
    ensures Ends(parse, sys, Rest(c, native, common),
                 DeleteFinal(RevokeAll(sys.st, identity.id, now, native, common), req, identity, now).0,
                 sys.calls - {c})
  {
    var st := DeleteFinal(RevokeAll(sys.st, identity.id, now, native, common), req, identity, now).0;
    var last := [Proceed(c, NoVault, true)];
    var s2 := Proceeds(parse, sys, c, native);
    var s3 := Proceeds(parse, s2, c, common);
    assert s3.calls[c] == Deleting(identity, now, req);
    LastLeft(parse, s3, c, NoVault, []);
    assert last == last + [];
    NextLeft(parse, s2, c, common, s3, last, st);
    NextLeft(parse, sys, c, native, s2, [Proceed(c, common, true)] + last, st);
  }

  /** From an arrival that opens this call, or none. */
  ghost predicate Arrived(parse: PeriodParser, sys: System, arrival: Step, c: nat, st: StoreState, call: Option<Call>)
    requires SystemOk(sys)
  {
    var s1 := Next(parse, sys, arrival);
    s1.st == st && s1.calls == match call case None => sys.calls case Some(v) => sys.calls[c := v]
  }

  /** The run as a whole, from how it arrives and what is left then. */
  lemma Joined(parse: PeriodParser, sys: System, arrival: Step, c: nat, first: VaultAnswer, second: VaultAnswer,
      next: System, st: StoreState)
    requires SystemOk(sys) && SystemOk(next) && next == Next(parse, sys, arrival)
    requires Ends(parse, next, Rest(c, first, second), st, next.calls - {c})
    requires c !in sys.calls && next.calls - {c} == sys.calls
    ensures Ends(parse, sys, Uninterrupted(arrival, c, first, second), st, sys.calls)
  {
    StepEnds(parse, sys, arrival, next, Rest(c, first, second), st, sys.calls);
  }

  lemma Opens(parse: PeriodParser, sys: System, arrival: Step, c: nat, st: StoreState, call: Option<Call>)
    returns (next: System)
    requires SystemOk(sys) && c !in sys.calls && Arrived(parse, sys, arrival, c, st, call)
    ensures SystemOk(next) && next == Next(parse, sys, arrival) && next.st == st && next.calls - {c} == sys.calls
    ensures if call.Some? then c in next.calls && next.calls[c] == call.value else c !in next.calls
  {
    next := Next(parse, sys, arrival);
    StepKeeps(parse, sys, arrival);
  }

  lemma NoCallRun(parse: PeriodParser, sys: System, arrival: Step, c: nat, st: StoreState, first: VaultAnswer,
      second: VaultAnswer)
    requires SystemOk(sys) && c !in sys.calls && Arrived(parse, sys, arrival, c, st, None)
    ensures Ends(parse, sys, Uninterrupted(arrival, c, first, second), st, sys.calls)
  {
    var next := Opens(parse, sys, arrival, c, st, None);
    NothingLeft(parse, next, c, Rest(c, first, second));
    Joined(parse, sys, arrival, c, first, second, next, st);
  }

  lemma DeliveryRun(parse: PeriodParser, sys: System, arrival: Step, c: nat, st: StoreState, identity: Identity,
      now: int, native: VaultAnswer, common: VaultAnswer)
    requires SystemOk(sys) && c !in sys.calls && Arrived(parse, sys, arrival, c, st, Some(Delivering(identity, now)))
    ensures Ends(parse, sys, Uninterrupted(arrival, c, native, common),
                 DeliverAll(st, identity, now, native, common), sys.calls)
  {
    var next := Opens(parse, sys, arrival, c, st, Some(Delivering(identity, now)));
    DeliveriesLeft(parse, next, c, identity, now, native, common);
    Joined(parse, sys, arrival, c, native, common, next, DeliverAll(st, identity, now, native, common));
  }

  lemma RetirementRun(parse: PeriodParser, sys: System, arrival: Step, c: nat, st: StoreState, identity: Identity,
      now: int, native: VaultAnswer, common: VaultAnswer)
    requires SystemOk(sys) && c !in sys.calls
    requires Arrived(parse, sys, arrival, c, st, Some(Revoking(identity, now, ForRetire)))
    ensures Ends(parse, sys, Uninterrupted(arrival, c, native, common),
                 RevokeAll(st, identity.id, now, native, common), sys.calls)
  {
    var next := Opens(parse, sys, arrival, c, st, Some(Revoking(identity, now, ForRetire)));
    RetirementLeft(parse, next, c, identity, now, native, common);
    Joined(parse, sys, arrival, c, native, common, next, RevokeAll(st, identity.id, now, native, common));
  }

  lemma DeletionRun(parse: PeriodParser, sys: System, arrival: Step, c: nat, st: StoreState, identity: Identity,
      now: int, req: DeleteRequest, native: VaultAnswer, common: VaultAnswer)
    requires SystemOk(sys) && c !in sys.calls
    requires Arrived(parse, sys, arrival, c, st, Some(Revoking(identity, now, ForDelete(req))))
    ensures Ends(parse, sys, Uninterrupted(arrival, c, native, common),
                 DeleteFinal(RevokeAll(st, identity.id, now, native, common), req, identity, now).0, sys.calls)
  {
    var next := Opens(parse, sys, arrival, c, st, Some(Revoking(identity, now, ForDelete(req))));
    DeletionLeft(parse, next, c, identity, now, req, native, common);
    Joined(parse, sys, arrival, c, native, common, next,
           DeleteFinal(RevokeAll(st, identity.id, now, native, common), req, identity, now).0);
  }

  lemma ReadRun(parse: PeriodParser, sys: System, arrival: Step, c: nat, st: StoreState, id: string, now: int,
      requestedBy: string, read: VaultAnswer)
    requires SystemOk(sys) && c !in sys.calls && Arrived(parse, sys, arrival, c, st, Some(Using(id, now, requestedBy)))
    ensures Ends(parse, sys, Uninterrupted(arrival, c, read, NoVault),
                 if read.VaultDone? then RecordUse(st, id, requestedBy, now) else st, sys.calls)
  {
    var next := Opens(parse, sys, arrival, c, st, Some(Using(id, now, requestedBy)));
    LastLeft(parse, next, c, read, [Proceed(c, NoVault, true)] + [Proceed(c, NoVault, true)]);
    Joined(parse, sys, arrival, c, read, NoVault, next,
           if read.VaultDone? then RecordUse(st, id, requestedBy, now) else st);
  }

  // -------------------------------------------------------------- each operation

  ghost predicate Agrees(parse: PeriodParser, sys: System, op: Op, c: nat)
    requires SystemOk(sys)
  {
    Ends(parse, sys, StepsOf(parse, op, c), Apply(parse, sys.st, op), sys.calls)
  }

  lemma ProvisionRuns(parse: PeriodParser, sys: System, c: nat, req: ProvisionRequest, now: int, created: CreateAnswer,
      native: VaultAnswer, common: VaultAnswer)
    requires SystemOk(sys) && c !in sys.calls
    ensures Agrees(parse, sys, Provisions(req, now, created, native, common), c)
  {
    if ProvisionError(parse, req, now, created).Some? { return; }
    var identity, operator := Provisioned(created.identity, now), OrDefault(req.requestedBy, ACTOR_CONTROL_PLANE);
    var arrival := Provision(c, created.identity, now, operator, created.secret);
    assert sys.calls - {c} == sys.calls;
    var adopted := Adopt(sys.st, identity, now, operator);
    if created.secret {
      DeliveryRun(parse, sys, arrival, c, adopted, identity, now, native, common);
    } else {
      NoCallRun(parse, sys, arrival, c, adopted, native, common);
    }
  }

  lemma RotateArrives(parse: PeriodParser, sys: System, c: nat, req: RotateRequest, now: int, answer: AdapterAnswer,
      secret: bool)
    requires SystemOk(sys) && c !in sys.calls
    ensures var (locked, outcome) := RotateLocked(parse, sys.st, req, now, answer);
            Arrived(parse, sys, Rotate(c, req, now, answer, secret), c, locked,
                    if outcome.Completed? && secret then Some(Delivering(outcome.identity, now)) else None)
  {
    assert sys.calls - {c} == sys.calls;
  }

  lemma RotateRuns(parse: PeriodParser, sys: System, c: nat, req: RotateRequest, now: int, answer: AdapterAnswer,
      secret: bool, native: VaultAnswer, common: VaultAnswer)
    requires SystemOk(sys) && c !in sys.calls
    ensures Ends(parse, sys, Uninterrupted(Rotate(c, req, now, answer, secret), c, native, common),
                 RotateOp(parse, sys.st, req, now, answer, secret, native, common), sys.calls)
  {
    var arrival := Rotate(c, req, now, answer, secret);
    var (locked, outcome) := RotateLocked(parse, sys.st, req, now, answer);
    RotateArrives(parse, sys, c, req, now, answer, secret);
    if outcome.Completed? && secret {
      DeliveryRun(parse, sys, arrival, c, locked, outcome.identity, now, native, common);
    } else {
      NoCallRun(parse, sys, arrival, c, locked, native, common);
    }
  }

  lemma RetireRuns(parse: PeriodParser, sys: System, c: nat, req: RetireRequest, now: int, answer: AdapterAnswer,
      native: VaultAnswer, common: VaultAnswer)
    requires SystemOk(sys) && c !in sys.calls
    ensures Ends(parse, sys, Uninterrupted(Retire(c, req, now, answer), c, native, common),
                 RetireOp(sys.st, req, now, answer, native, common), sys.calls)
  {
    var arrival := Retire(c, req, now, answer);
    var (locked, outcome) := RetireLocked(sys.st, req, now, answer);
    assert sys.calls - {c} == sys.calls;
    if outcome.RetireDone? {
      RetirementRun(parse, sys, arrival, c, locked, outcome.identity, now, native, common);
    } else {
      NoCallRun(parse, sys, arrival, c, locked, native, common);
    }
  }

  lemma DeleteRuns(parse: PeriodParser, sys: System, c: nat, req: DeleteRequest, now: int, native: VaultAnswer,
      common: VaultAnswer)
    requires SystemOk(sys) && c !in sys.calls
    ensures Ends(parse, sys, Uninterrupted(Delete(c, req, now), c, native, common),
                 DeleteOp(sys.st, req, now, native, common), sys.calls)
  {
    var arrival, check := Delete(c, req, now), DeleteCheck(sys.st, req);
    assert sys.calls - {c} == sys.calls;
    if check.Ok? {
      DeletionRun(parse, sys, arrival, c, sys.st, check.value, now, req, native, common);
    } else {
      NoCallRun(parse, sys, arrival, c, sys.st, native, common);
    }
  }

  lemma UseRuns(parse: PeriodParser, sys: System, c: nat, req: UseRequest, now: int, native: ReadAnswer,
      common: ReadAnswer)
    requires SystemOk(sys) && c !in sys.calls
    ensures Ends(parse, sys, Uninterrupted(Use(c, req, now), c, ReadOf(native, common), NoVault),
                 UseOp(sys.st, req, now, native, common), sys.calls)
  {
    var arrival := Use(c, req, now);
    assert sys.calls - {c} == sys.calls;
    if UseCheck(sys.st, req.id).Ok? {
      ReadRun(parse, sys, arrival, c, sys.st, req.id, now, req.requestedBy, ReadOf(native, common));
    } else {
      NoCallRun(parse, sys, arrival, c, sys.st, ReadOf(native, common), NoVault);
    }
  }

  lemma RegisterAgrees(parse: PeriodParser, sys: System, c: nat, req: RegisterRequest, now: int)
    requires SystemOk(sys) && c !in sys.calls
    ensures Agrees(parse, sys, Registers(req, now), c)
  {
    NoCallRun(parse, sys, RegisterNew(req, now), c, Register(parse, sys.st, req, now).0, NoVault, NoVault);
  }

  lemma RotateAgrees(parse: PeriodParser, sys: System, c: nat, req: RotateRequest, now: int, answer: AdapterAnswer,
      secret: bool, native: VaultAnswer, common: VaultAnswer)
    requires SystemOk(sys) && c !in sys.calls
    ensures Agrees(parse, sys, Rotates(req, now, answer, secret, native, common), c)
  {
    RotateRuns(parse, sys, c, req, now, answer, secret, native, common);
  }

  lemma RetireAgrees(parse: PeriodParser, sys: System, c: nat, req: RetireRequest, now: int, answer: AdapterAnswer,
      native: VaultAnswer, common: VaultAnswer)
    requires SystemOk(sys) && c !in sys.calls
    ensures Agrees(parse, sys, Retires(req, now, answer, native, common), c)
  {
    RetireRuns(parse, sys, c, req, now, answer, native, common);
  }

  lemma DeleteAgrees(parse: PeriodParser, sys: System, c: nat, req: DeleteRequest, now: int, native: VaultAnswer,
      common: VaultAnswer)
    requires SystemOk(sys) && c !in sys.calls
    ensures Agrees(parse, sys, Deletes(req, now, native, common), c)
  {
    DeleteRuns(parse, sys, c, req, now, native, common);
  }

  lemma UseAgrees(parse: PeriodParser, sys: System, c: nat, req: UseRequest, now: int, native: ReadAnswer,
      common: ReadAnswer)
    requires SystemOk(sys) && c !in sys.calls
    ensures Agrees(parse, sys, Uses(req, now, native, common), c)
  {
    UseRuns(parse, sys, c, req, now, native, common);
  }

  /** Run without interruption, an operation's sections leave the store as the whole
      operation does, and no call behind. */
  lemma SequentialRun(parse: PeriodParser, sys: System, op: Op, c: nat)
    requires SystemOk(sys) && c !in sys.calls
    ensures Ends(parse, sys, StepsOf(parse, op, c), Apply(parse, sys.st, op), sys.calls)
  {
    match op
    case Registers(req, now) => RegisterAgrees(parse, sys, c, req, now);
    case Provisions(req, now, created, native, common) =>
      ProvisionRuns(parse, sys, c, req, now, created, native, common);
    case Rotates(req, now, answer, secret, native, common) =>
      RotateAgrees(parse, sys, c, req, now, answer, secret, native, common);
    case Retires(req, now, answer, native, common) => RetireAgrees(parse, sys, c, req, now, answer, native, common);
    case Deletes(req, now, native, common) => DeleteAgrees(parse, sys, c, req, now, native, common);
    case Uses(req, now, native, common) => UseAgrees(parse, sys, c, req, now, native, common);
  }

  // ----------------------------------------------------------------- what opens

  /** A call that a step opens finds its record in the state its operation demands:
      nobody starts to read the credential of a retired identity, and only a retired
      one starts to be deleted. */
  lemma OpensOnly(parse: PeriodParser, sys: System, s: Step, c: nat)
    requires SystemOk(sys) && c !in sys.calls && c in Next(parse, sys, s).calls
    ensures match Next(parse, sys, s).calls[c]
            case Using(id, _, _) => id in sys.st.identities && sys.st.identities[id].state != Retired
            case Revoking(v, _, ForDelete(req)) =>
              req.confirm && req.id in sys.st.identities && sys.st.identities[req.id].state == Retired
              && v == sys.st.identities[req.id]
            case Revoking(v, _, ForRetire) =>
              v.id in sys.st.identities && sys.st.identities[v.id].state == Active && v.state == Retired
            case Delivering(v, _) => v.state == Active && v == Next(parse, sys, s).st.identities[v.id]
            case _ => false
  {
  }
}
