/** Racing Deletes have one winner; and which steps can bring a retired record back. */
module Deletion {
  import opened Wrappers
  import opened Text
  import opened Protocol
  import opened Sections
  import opened StoreInvariants
  import opened Audit
  import opened Machine
  import opened Interleaving

  // ------------------------------------------------------- a single winner

  /** The call still has to write an earlier copy of this record back, or may have
      to: the vaults have not all answered. */
  predicate MayRevive(call: Call, id: string) {
    match call
    case Delivering(identity, _) => identity.id == id
    case Mirroring(identity, _, _) => identity.id == id
    case WritingBack(identity, _, native, common) => identity.id == id && (native.VaultDone? || common.VaultDone?)
    case _ => false
  }

  ghost predicate NoReviver(sys: System, id: string) {
    forall c :: c in sys.calls ==> !MayRevive(sys.calls[c], id)
  }

  /** The step does not create a record under this id. */
  predicate Creates(s: Step, id: string) {
    match s
    case Provision(_, identity, now, _, _) => Provisioned(identity, now).id == id
    case RegisterNew(req, _) => RegisteredId(req) == id
    case _ => false
  }

  /** How the confirmed Deletes of an id returned, in order. */
  function Outcomes(finished: seq<DeleteReturn>, id: string): seq<DeleteOutcome> {
    if finished == [] then []
    else
      var r := finished[|finished| - 1];
      Outcomes(finished[..|finished| - 1], id) +
      (if r.id == id && r.outcome != Refused(ConfirmationNeeded) then [r.outcome] else [])
  }

  /** Nobody has won yet and the record stands retired, or exactly one Delete
      removed it first and everyone after was told it is gone. */
  ghost predicate Contest(sys: System, id: string) {
    && NoReviver(sys, id)
    && var outcomes := Outcomes(sys.finished, id);
       if id in sys.st.identities then sys.st.identities[id].state == Retired && outcomes == []
       else OneWinner(outcomes)
  }

  ghost predicate OneWinner(outcomes: seq<DeleteOutcome>) {
    && outcomes != [] && outcomes[0].Removed?
    && (forall i :: 0 < i < |outcomes| ==> outcomes[i] == Refused(NotFound))
  }

  lemma StepOutcomes(parse: PeriodParser, sys: System, s: Step, id: string)
    requires KeyedById(sys.st.identities)
    ensures Outcomes(Next(parse, sys, s).finished, id) == Outcomes(sys.finished, id) +
            (if Enabled(parse, sys, s) && ReturnOf(sys, s).Some? && ReturnOf(sys, s).value.id == id
                && ReturnOf(sys, s).value.outcome != Refused(ConfirmationNeeded)
             then [ReturnOf(sys, s).value.outcome] else [])
  {
    var finished := Next(parse, sys, s).finished;
    if Enabled(parse, sys, s) && ReturnOf(sys, s).Some? {
      assert finished[..|finished| - 1] == sys.finished;
    } else {
      assert finished == sys.finished;
    }
  }

  /** A retired or missing record is not written by anyone the contest allows. */
  lemma ContestWrites(parse: PeriodParser, sys: System, s: Step, id: string)
    requires SystemOk(sys) && NoReviver(sys, id) && !Creates(s, id)
    requires id in sys.st.identities ==> sys.st.identities[id].state == Retired
    ensures var w := WriteOf(parse, sys, s);
            && (w.Stores? ==> w.record.id != id)
            && (w.Removes? ==> Purges(sys, s) && w.id == sys.calls[s.call].req.id)
  {
    if s.Proceed? && s.call in sys.calls { assert CallOk(sys.calls[s.call]); }
  }

  lemma ContestCalls(parse: PeriodParser, sys: System, s: Step, id: string)
    requires SystemOk(sys) && NoReviver(sys, id) && !Creates(s, id)
    requires id in sys.st.identities ==> sys.st.identities[id].state == Retired
    ensures NoReviver(Next(parse, sys, s), id)
  {
    if !Enabled(parse, sys, s) { return; }
    var calls := CallsAfter(parse, sys, s);
    forall c | c in calls ensures !MayRevive(calls[c], id) {
      if c in sys.calls { assert !MayRevive(sys.calls[c], id); }
    }
  }

  lemma StepKeepsContest(parse: PeriodParser, sys: System, s: Step, id: string)
    requires SystemOk(sys) && Contest(sys, id) && !Creates(s, id)
    ensures Contest(Next(parse, sys, s), id)
  {
    ContestCalls(parse, sys, s, id);
    ContestRecord(parse, sys, s, id);
    StepOutcomes(parse, sys, s, id);
    ContestReturn(parse, sys, s, id);
  }

  /** The record stays retired, or the purge of this step takes it. */
  lemma ContestRecord(parse: PeriodParser, sys: System, s: Step, id: string)
    requires SystemOk(sys) && NoReviver(sys, id) && !Creates(s, id)
    requires id in sys.st.identities ==> sys.st.identities[id].state == Retired
    ensures var after := Next(parse, sys, s).st.identities;
            && (id in after ==> id in sys.st.identities && after[id].state == Retired)
            && (id in sys.st.identities && id !in after <==> Purges(sys, s) && sys.calls[s.call].req.id == id)
  {
    ContestWrites(parse, sys, s, id);
    StepWrites(parse, sys, s);
    if Purges(sys, s) { assert CallOk(sys.calls[s.call]); }
  }

  /** What a confirmed Delete of the id can be told, and when. */
  lemma ContestReturn(parse: PeriodParser, sys: System, s: Step, id: string)
    requires SystemOk(sys) && (id in sys.st.identities ==> sys.st.identities[id].state == Retired)
    ensures var r := ReturnOf(sys, s);
            r.Some? && r.value.id == id && r.value.outcome != Refused(ConfirmationNeeded) ==>
              if id in sys.st.identities
                then Purges(sys, s) && sys.calls[s.call].req.id == id && r.value.outcome.Removed?
              else r.value.outcome == Refused(NotFound)
    ensures var r := ReturnOf(sys, s);
            Purges(sys, s) && sys.calls[s.call].req.id == id ==> r.Some? && r.value.id == id && r.value.outcome.Removed?
  {
  }

  /** The step neither creates the id nor, by the state machine, could. */
  ghost predicate NoneCreate(steps: seq<Step>, id: string) { forall s <- steps :: !Creates(s, id) }

  lemma {:induction false} ExecuteKeepsContest(parse: PeriodParser, sys: System, steps: seq<Step>, id: string)
    requires SystemOk(sys) && Contest(sys, id) && NoneCreate(steps, id)
    ensures Contest(Execute(parse, sys, steps), id)
    decreases |steps|
  {
    if steps != [] {
      assert steps[0] in steps;
      StepKeepsContest(parse, sys, steps[0], id);
      StepKeeps(parse, sys, steps[0]);
      ExecuteKeepsContest(parse, Next(parse, sys, steps[0]), steps[1..], id);
    }
  }

  /** For any number of confirmed Deletes of one retired id in any interleaving
      without a creation or a call that may write an earlier copy back: either nobody has
      finished and the record stands, or it is gone, the first to finish removed
      it, and every later one was told it is not found. */
  lemma SingleWinner(parse: PeriodParser, sys: System, steps: seq<Step>, id: string)
    requires SystemOk(sys) && NoReviver(sys, id) && NoneCreate(steps, id)
    requires id in sys.st.identities && sys.st.identities[id].state == Retired && Outcomes(sys.finished, id) == []
    ensures var end := Execute(parse, sys, steps);
            var outcomes := Outcomes(end.finished, id);
            if id in end.st.identities then end.st.identities[id].state == Retired && outcomes == []
            else OneWinner(outcomes)
  {
    ExecuteKeepsContest(parse, sys, steps, id);
  }

  // ------------------------------------------------------------ resurrection

  /** A provision that reuses the id, or the write-back of a copy taken while
      the record was still active. */
  predicate Revives(parse: PeriodParser, sys: System, s: Step, id: string) {
    && Enabled(parse, sys, s)
    && match s
       case Provision(_, identity, now, _, _) => Provisioned(identity, now).id == id
       case Proceed(c, _, _) =>
         (match sys.calls[c]
          case WritingBack(identity, _, native, common) => identity.id == id && (native.VaultDone? || common.VaultDone?)
          case _ => false)
       case _ => false
  }

  /** Exactly those steps turn a retired record into one that is not retired;
      under every other step it stays retired until a Delete removes it. */
  lemma RevivalExact(parse: PeriodParser, sys: System, s: Step, id: string)
    requires SystemOk(sys) && id in sys.st.identities && sys.st.identities[id].state == Retired
    ensures var after := Next(parse, sys, s).st.identities;
            && (id in after && after[id].state != Retired <==> Revives(parse, sys, s, id))
            && (id !in after <==> Purges(sys, s) && sys.calls[s.call].req.id == id)
  {
    StepWrites(parse, sys, s);
    RevivalWrites(parse, sys, s, id);
  }

  lemma RevivalWrites(parse: PeriodParser, sys: System, s: Step, id: string)
    requires SystemOk(sys) && id in sys.st.identities && sys.st.identities[id].state == Retired
    ensures var w := WriteOf(parse, sys, s);
            && (w.Stores? && w.record.id == id <==> Revives(parse, sys, s, id))
            && (w.Stores? && w.record.id == id ==> w.record.state == Active)
            && (w == Removes(id) <==> Purges(sys, s) && sys.calls[s.call].req.id == id)
  {
    if s.Proceed? && s.call in sys.calls { assert CallOk(sys.calls[s.call]); }
  }

  lemma ExecuteCons(parse: PeriodParser, sys: System, s: Step, rest: seq<Step>)
    requires SystemOk(sys)
    ensures SystemOk(Next(parse, sys, s))
    ensures Execute(parse, sys, [s] + rest) == Execute(parse, Next(parse, sys, s), rest)
  {
    StepKeeps(parse, sys, s);
    assert ([s] + rest)[1..] == rest;
  }

  ghost predicate Pending(sys: System, c: nat, id: string) {
    c in sys.calls && sys.calls[c].Delivering? && sys.calls[c].identity.id == id
  }

  ghost predicate Stands(sys: System, id: string, state: State) {
    id in sys.st.identities && sys.st.identities[id].state == state
  }

  lemma RotateLeavesPending(parse: PeriodParser, sys: System, id: string, view: Identity, now: int)
    requires SystemOk(sys) && Stands(sys, id, Active) && !Blank(id) && 0 !in sys.calls
    ensures var s1 := Next(parse, sys, Rotate(0, RotateRequest(id, "", false), now, View(view), true));
            Stands(s1, id, Active) && Pending(s1, 0, id) && (1 in s1.calls <==> 1 in sys.calls)
  {
    RotateEffect(parse, sys.st, RotateRequest(id, "", false), now, View(view));
  }

  lemma RetireLeavesPending(parse: PeriodParser, sys: System, id: string, view: Identity, now: int)
    requires SystemOk(sys) && Stands(sys, id, Active) && !Blank(id) && Pending(sys, 0, id) && 1 !in sys.calls
    ensures var s1 := Next(parse, sys, Retire(1, RetireRequest(id, "", true, false), now, View(view)));
            Stands(s1, id, Retired) && Pending(s1, 0, id)
  {
  }

  /** The rest of a run moves only this call. */
  ghost predicate OthersKept(sys: System, end: System, c: nat) {
    forall d :: d != c && d in sys.calls ==> d in end.calls && end.calls[d] == sys.calls[d]
  }

  /** A call that may write its copy back can do so next, through its own steps. */
  lemma {:induction false} ReviverRevives(parse: PeriodParser, sys: System, c: nat, id: string)
    returns (steps: seq<Step>)
    requires SystemOk(sys) && c in sys.calls && MayRevive(sys.calls[c], id)
    ensures NoneCreate(steps, id)
    ensures var end := Execute(parse, sys, steps); Stands(end, id, Active) && OthersKept(sys, end, c)
    decreases if sys.calls[c].Delivering? then 2 else if sys.calls[c].Mirroring? then 1 else 0
  {
    var s := Proceed(c, VaultDone(VaultReference("", "", "")), true);
    var next := Next(parse, sys, s);
    StepKeeps(parse, sys, s);
    if sys.calls[c].WritingBack? {
      StepWrites(parse, sys, s);
      assert CallOk(sys.calls[c]);
      steps := [s] + [];
      ExecuteCons(parse, sys, s, []);
    } else {
      var rest := ReviverRevives(parse, next, c, id);
      steps := [s] + rest;
      ExecuteCons(parse, sys, s, rest);
    }
  }

  // -------------------------------------------------- retirement over a run

  ghost predicate RetiredOrGone(sys: System, id: string) { id in sys.st.identities ==> Stands(sys, id, Retired) }

  lemma {:induction false} StaysRetired(parse: PeriodParser, sys: System, steps: seq<Step>, id: string)
    requires SystemOk(sys) && NoReviver(sys, id) && RetiredOrGone(sys, id) && NoneCreate(steps, id)
    ensures RetiredOrGone(Execute(parse, sys, steps), id)
    decreases |steps|
  {
    if steps != [] {
      var s := steps[0];
      assert s in steps;
      ContestCalls(parse, sys, s, id);
      ContestWrites(parse, sys, s, id);
      StepWrites(parse, sys, s);
      StepKeeps(parse, sys, s);
      StaysRetired(parse, Next(parse, sys, s), steps[1..], id);
    }
  }

  /** A retired record stays retired until it is removed, in every interleaving
      without a creation, if and only if no call in flight may write back a copy
      that was taken before the retirement. */
  lemma RetirementHolds(parse: PeriodParser, sys: System, id: string)
    requires SystemOk(sys) && Stands(sys, id, Retired)
    ensures (forall steps :: NoneCreate(steps, id) ==> RetiredOrGone(Execute(parse, sys, steps), id))
            <==> NoReviver(sys, id)
  {
    if NoReviver(sys, id) {
      forall steps | NoneCreate(steps, id) ensures RetiredOrGone(Execute(parse, sys, steps), id) {
        StaysRetired(parse, sys, steps, id);
      }
    } else {
      var c :| c in sys.calls && MayRevive(sys.calls[c], id);
      var steps := ReviverRevives(parse, sys, c, id);
      assert !RetiredOrGone(Execute(parse, sys, steps), id);
    }
  }

  /** And there are such calls: from any state with the identity active, a rotation
      followed by a retirement leaves one, and with no creation the identity
      becomes active again. */
  lemma RetirementUndone(parse: PeriodParser, sys: System, id: string, view: Identity, now: int)
    returns (before: seq<Step>, after: seq<Step>)
    requires SystemOk(sys) && Stands(sys, id, Active) && !Blank(id) && 0 !in sys.calls && 1 !in sys.calls
    ensures Stands(Execute(parse, sys, before), id, Retired) && NoneCreate(after, id)
    ensures Stands(Execute(parse, Execute(parse, sys, before), after), id, Active)
  {
    var rotate := Rotate(0, RotateRequest(id, "", false), now, View(view), true);
    var retire := Retire(1, RetireRequest(id, "", true, false), now, View(view));
    before := [rotate] + [retire];
    RotateLeavesPending(parse, sys, id, view, now);
    ExecuteCons(parse, sys, rotate, [retire]);
    var s1 := Next(parse, sys, rotate);
    RetireLeavesPending(parse, s1, id, view, now);
    assert [retire] == [retire] + [];
    ExecuteCons(parse, s1, retire, []);
    after := ReviverRevives(parse, Next(parse, s1, retire), 0, id);
  }
}
