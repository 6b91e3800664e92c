/** What a Delete purges. Its last section only looks whether the record is still
    there, so the record may have changed since the check that it is retired. */
module Purging {
  import opened Wrappers
  import opened Protocol
  import opened Sections
  import opened StoreInvariants
  import opened Machine
  import opened Interleaving
  import opened Deletion

  /** The next section of this call purges this record. */
  ghost predicate AboutToPurge(sys: System, c: nat, id: string) {
    c in sys.calls && sys.calls[c].Deleting? && sys.calls[c].req.id == id && id in sys.st.identities
  }

  lemma PurgeRemoves(parse: PeriodParser, sys: System, c: nat, id: string, vault: VaultAnswer, saved: bool)
    requires SystemOk(sys) && AboutToPurge(sys, c, id)
    ensures Purges(sys, Proceed(c, vault, saved))
    ensures id !in Next(parse, sys, Proceed(c, vault, saved)).st.identities
  {
    StepWrites(parse, sys, Proceed(c, vault, saved));
    assert CallOk(sys.calls[c]);
  }

  /** A Delete that passes its check is in flight; the record is as it was. */
  lemma DeleteArrives(parse: PeriodParser, sys: System, c: nat, req: DeleteRequest, now: int)
    requires SystemOk(sys) && c !in sys.calls && DeleteCheck(sys.st, req).Ok?
    ensures var checked := Next(parse, sys, Delete(c, req, now));
            && checked.st == sys.st && SystemOk(checked) && Stands(checked, req.id, Retired)
            && checked.calls == sys.calls[c := Revoking(sys.st.identities[req.id], now, ForDelete(req))]
            && (NoReviver(checked, req.id) <==> NoReviver(sys, req.id))
  {
    StepKeeps(parse, sys, Delete(c, req, now));
    var checked := Next(parse, sys, Delete(c, req, now));
    assert forall d :: d in sys.calls ==> d in checked.calls && checked.calls[d] == sys.calls[d];
  }

  /** Both revocations done, it is about to purge; nobody else has moved. */
  lemma RevocationsDone(parse: PeriodParser, sys: System, c: nat, req: DeleteRequest)
    returns (steps: seq<Step>)
    requires SystemOk(sys) && req.id in sys.st.identities && c in sys.calls
    requires sys.calls[c].Revoking? && sys.calls[c].purpose == ForDelete(req)
    ensures NoneCreate(steps, req.id)
    ensures var end := Execute(parse, sys, steps);
            SystemOk(end) && AboutToPurge(end, c, req.id) && OthersKept(sys, end, c)
  {
    var s := Proceed(c, NoVault, true);
    var mid := Next(parse, sys, s);
    assert mid.calls[c] == RevokingCommon(sys.calls[c].identity, sys.calls[c].now, ForDelete(req));
    var end := Next(parse, mid, s);
    assert end.calls[c] == Deleting(sys.calls[c].identity, sys.calls[c].now, req);
    StepWrites(parse, sys, s);
    ExecuteCons(parse, sys, s, [s]);
    StepWrites(parse, mid, s);
    assert [s] == [s] + [];
    ExecuteCons(parse, mid, s, []);
    steps := [s] + [s];
  }

  /** Joining runs. */
  lemma {:induction false} ExecuteJoined(parse: PeriodParser, sys: System, a: seq<Step>, b: seq<Step>)
    requires SystemOk(sys) && SystemOk(Execute(parse, sys, a))
    ensures Execute(parse, sys, a + b) == Execute(parse, Execute(parse, sys, a), b)
    decreases |a|
  {
    if a == [] {
      assert a + b == b;
    } else {
      assert (a + b)[1..] == a[1..] + b;
      StepKeeps(parse, sys, a[0]);
      ExecuteJoined(parse, Next(parse, sys, a[0]), a[1..], b);
    }
  }

  lemma RevivedBeforePurge(parse: PeriodParser, checked: System, c: nat, d: nat, req: DeleteRequest)
    returns (between: seq<Step>)
    requires SystemOk(checked) && req.id in checked.st.identities
    requires c in checked.calls && checked.calls[c].Revoking? && checked.calls[c].purpose == ForDelete(req)
    requires d in checked.calls && MayRevive(checked.calls[d], req.id)
    ensures NoneCreate(between, req.id)
    ensures var end := Execute(parse, checked, between);
            AboutToPurge(end, c, req.id) && Stands(end, req.id, Active)
  {
    var first := RevocationsDone(parse, checked, c, req);
    var ready := Execute(parse, checked, first);
    assert ready.calls[d] == checked.calls[d];
    var rest := ReviverRevives(parse, ready, d, req.id);
    ExecuteJoined(parse, checked, first, rest);
    between := first + rest;
    assert Execute(parse, checked, between).calls[c] == ready.calls[c];
  }

  /** A Delete purges only records that are retired, in every interleaving without a
      creation of the id, if and only if no call in flight when it checks the record
      may write back a copy that was taken before the retirement. */
  lemma PurgedWasRetired(parse: PeriodParser, sys: System, c: nat, req: DeleteRequest, now: int)
    requires SystemOk(sys) && c !in sys.calls && DeleteCheck(sys.st, req).Ok?
    ensures var checked := Next(parse, sys, Delete(c, req, now));
            (forall between :: NoneCreate(between, req.id) && AboutToPurge(Execute(parse, checked, between), c, req.id)
               ==> Stands(Execute(parse, checked, between), req.id, Retired))
            <==> NoReviver(sys, req.id)
  {
    var checked := Next(parse, sys, Delete(c, req, now));
    DeleteArrives(parse, sys, c, req, now);
    if NoReviver(sys, req.id) {
      forall between | NoneCreate(between, req.id) && AboutToPurge(Execute(parse, checked, between), c, req.id)
        ensures Stands(Execute(parse, checked, between), req.id, Retired)
      {
        StaysRetired(parse, checked, between, req.id);
      }
    } else {
      var d :| d in checked.calls && MayRevive(checked.calls[d], req.id);
      var between := RevivedBeforePurge(parse, checked, c, d, req);
      assert !Stands(Execute(parse, checked, between), req.id, Retired);
    }
  }

  /** A creation does it in any case: from any state in which a Delete has passed its
      check, a Provision that reuses the id comes in between, and the new active
      record is purged. */
  lemma PurgesActive(parse: PeriodParser, sys: System, pending: nat, arriving: nat, identity: Identity, now: int,
      operator: string)
    requires SystemOk(sys) && pending in sys.calls && sys.calls[pending].Deleting? && arriving !in sys.calls
    requires ValidIdentity(parse, Provisioned(identity, now))
      && Provisioned(identity, now).id == sys.calls[pending].req.id
    ensures var id := sys.calls[pending].req.id;
            var provisioned := Next(parse, sys, Provision(arriving, identity, now, operator, false));
            && Stands(provisioned, id, Active) && AboutToPurge(provisioned, pending, id)
            && id !in Next(parse, provisioned, Proceed(pending, NoVault, true)).st.identities
  {
    var step := Provision(arriving, identity, now, operator, false);
    StepKeeps(parse, sys, step);
    StepWrites(parse, sys, step);
    PurgeRemoves(parse, Next(parse, sys, step), pending, sys.calls[pending].req.id, NoVault, true);
  }
}
