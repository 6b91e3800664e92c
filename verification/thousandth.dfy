/** An identity that is used often enough: its thousandth event does not survive a
    restart in order. */
module ThousandthEvent {
  import opened Wrappers
  import opened Protocol
  import opened Sections
  import opened Numbered
  import opened StoreInvariants
  import opened Audit
  import opened Interleaving
  import opened Operations
  import opened Persistence

  /** Credential reads of one identity that a vault served. */
  ghost predicate ReadsOf(ops: seq<Op>, id: string) {
    forall op <- ops :: op.Uses? && op.use.id == id && op.read.SecretRead?
  }

  /** One active identity holds all events there are, numbered from 1. */
  ghost predicate OnlyIdentity(st: StoreState, id: string, count: nat) {
    && id in st.identities && st.identities[id].state == Active
    && st.nextEvent == count && st.nextRun == 0
    && |EventsOf(st, id)| == count && (forall i :: 0 <= i < count ==> EventsOf(st, id)[i].num == i + 1)
  }

  function Adopted(identity: Identity, now: int, registrar: string): (st: StoreState)
    requires identity.state == Active
    ensures RecordsOk(st)
  {
    Adopt(EMPTY, identity, now, registrar)
  }

  lemma AdoptedAlone(parse: PeriodParser, identity: Identity, now: int, registrar: string)
    requires identity.state == Active
    ensures var st := Adopt(EMPTY, identity, now, registrar);
            Alone(st, identity.id, 2)
  {
    EmptyOk();
    EmptyShape();
    AdoptRecords(EMPTY, identity, now, registrar);
    var change := AdoptChanges(EMPTY, identity, now, registrar);
    ChangeKeepsLists(EMPTY, Adopt(EMPTY, identity, now, registrar), change);
    ChangeKeepsTrails(EMPTY, Adopt(EMPTY, identity, now, registrar), change);
  }

  lemma UsedOnce(parse: PeriodParser, st: StoreState, op: Op, id: string, count: nat)
    requires KeyedById(st.identities) && OnlyIdentity(st, id, count)
    requires op.Uses? && op.use.id == id && op.read.SecretRead?
    ensures OnlyIdentity(Apply(parse, st, op), id, count + 1)
  {
    var event := Event(count + 1, id, CredentialUsed, OrDefault(op.use.requestedBy, ACTOR_OPERATOR), Success, op.now,
      None);
    var end := RecordUse(st, id, op.use.requestedBy, op.now);
    assert Apply(parse, st, op) == end;
    assert EventsOf(end, id) == EventsOf(st, id) + [event];
  }

  ghost predicate Alone(st: StoreState, id: string, count: nat) {
    StoreOk(st) && TrailsOk(st) && OnlyIdentity(st, id, count)
  }

  lemma UseKeeps(parse: PeriodParser, st: StoreState, op: Op, id: string, count: nat)
    requires Alone(st, id, count)
    requires op.Uses? && op.use.id == id && op.read.SecretRead?
    ensures Alone(Apply(parse, st, op), id, count + 1)
  {
    UsedOnce(parse, st, op, id, count);
    OpKeeps(parse, st, op);
  }

  lemma {:induction false} UsedAlone(parse: PeriodParser, st: StoreState, ops: seq<Op>, id: string, count: nat)
    requires Alone(st, id, count) && ReadsOf(ops, id)
    ensures Alone(ApplyAll(parse, st, ops), id, count + |ops|)
    decreases |ops|
  {
    if ops != [] {
      assert ops[0] in ops;
      UseKeeps(parse, st, ops[0], id, count);
      UsedAlone(parse, Apply(parse, st, ops[0]), ops[1..], id, count + 1);
    }
  }

  /** A store that adopts one identity and serves reads of its credential comes back
      from a restart as it was if and only if there were at most 997. */
  lemma ReadsSurvivable(parse: PeriodParser, identity: Identity, now: int, registrar: string, uses: seq<Op>,
      snapshot: Snapshot)
    requires identity.state == Active && ReadsOf(uses, identity.id)
    requires IsSnapshot(ApplyAll(parse, Adopted(identity, now, registrar), uses), snapshot)
    ensures var end := ApplyAll(parse, Adopted(identity, now, registrar), uses);
            Restore(end, snapshot) == end <==> |uses| <= 997
  {
    var adopted := Adopted(identity, now, registrar);
    AdoptedAlone(parse, identity, now, registrar);
    UsedAlone(parse, adopted, uses, identity.id, 2);
    var end := ApplyAll(parse, adopted, uses);
    if |uses| <= 997 {
      SnapshotExactUpTo999(end, snapshot);
    } else {
      SnapshotOrderLostAt1000(end, snapshot, identity.id, 998);
    }
  }
}
