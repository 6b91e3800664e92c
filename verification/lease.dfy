/** Leader election over one expiring Redis key. Time is counted in whole
    milliseconds, as the key's expiry is. */
module Lease {
  import opened Wrappers

  /** The key's content: who holds it and when it expires. */
  datatype Held = Held(owner: string, expires: int)

  type Cell = Option<Held>

  /** An expired key reads as absent. */
  function Live(cell: Cell, now: int): Cell {
    if cell.Some? && now < cell.value.expires then cell else None
  }

  ghost predicate Owns(cell: Cell, now: int, id: string) { Live(cell, now).Some? && cell.value.owner == id }

  // ------------------------------------------------------- the three commands

  /** SET NX PX. */
  function SetIfAbsent(cell: Cell, now: int, id: string, ttl: nat): (Cell, bool) {
    if Live(cell, now).None? then (Some(Held(id, now + ttl)), true) else (Live(cell, now), false)
  }

  function RenewScript(cell: Cell, now: int, id: string, ttl: nat): (Cell, int) {
    if Live(cell, now).Some? && cell.value.owner == id then (Some(Held(id, now + ttl)), 1) else (Live(cell, now), 0)
  }

  function ReleaseScript(cell: Cell, now: int, id: string): (Cell, int) {
    if Live(cell, now).Some? && cell.value.owner == id then (None, 1) else (Live(cell, now), 0)
  }

  /** How a command reaches the server and its reply the caller. */
  datatype Link = Fine | RequestLost | ReplyLost

  datatype LeaseError = NotHeld | Unreachable

  class Redis {
    var cell: Cell
    var now: int

    constructor (now: int)
      ensures cell == None && this.now == now
    {
      cell, this.now := None, now;
    }
  }

  class LeaseManager {
    const redis: Redis
    const id: string
    const ttl: nat

    constructor (redis: Redis, id: string, ttl: nat)
      ensures this.redis == redis && this.id == id && this.ttl == ttl
    {
      this.redis, this.id, this.ttl := redis, id, ttl;
    }

    /** Succeeds exactly when the key is absent or expired; a lost reply is an
        error even though the key may now be held. */
    method TryAcquire(link: Link) returns (r: Result<bool, LeaseError>)
      modifies redis`cell
      ensures var free := old(redis.cell).None? || old(redis.cell).value.expires <= redis.now;
              && r == (if link.Fine? then Ok(free) else Err(Unreachable))
              && redis.cell == if free && !link.RequestLost? then Some(Held(id, redis.now + ttl)) else old(redis.cell)
    {
      if link.RequestLost? { return Err(Unreachable); }
      var (cell, acquired) := SetIfAbsent(redis.cell, redis.now, id, ttl);
      redis.cell := cell;
      return if link.Fine? then Ok(acquired) else Err(Unreachable);
    }

    /** Extends only a lease this instance still holds. */
    method Renew(link: Link) returns (error: Option<LeaseError>)
      modifies redis`cell
      ensures var cell := old(redis.cell);
              var live := cell.Some? && redis.now < cell.value.expires;
              var owned := live && cell.value.owner == id;
              && error == (if !link.Fine? then Some(Unreachable) else if owned then None else Some(NotHeld))
              && (owned && !link.RequestLost? ==> redis.cell == Some(Held(id, redis.now + ttl)))
              && (!owned || link.RequestLost? ==> redis.cell == cell || (!live && redis.cell == None))
    {
      if link.RequestLost? { return Some(Unreachable); }
      var (cell, result) := RenewScript(redis.cell, redis.now, id, ttl);
      redis.cell := cell;
      if link.ReplyLost? { return Some(Unreachable); }
      return if result != 1 then Some(NotHeld) else None;
    }

    /** Removes only a lease this instance still holds. */
    method Release(link: Link) returns (error: Option<LeaseError>)
      modifies redis`cell
      ensures var cell := old(redis.cell);
              var live := cell.Some? && redis.now < cell.value.expires;
              var owned := live && cell.value.owner == id;
              && error == (if !link.Fine? then Some(Unreachable) else if owned then None else Some(NotHeld))
              && (owned && !link.RequestLost? ==> redis.cell == None)
              && (!owned || link.RequestLost? ==> redis.cell == cell || (!live && redis.cell == None))
    {
      if link.RequestLost? { return Some(Unreachable); }
      var (cell, result) := ReleaseScript(redis.cell, redis.now, id);
      redis.cell := cell;
      if link.ReplyLost? { return Some(Unreachable); }
      return if result != 1 then Some(NotHeld) else None;
    }
  }

  // ---------------------------------------------------------- many instances

  /** One sweeper's loop variables. `confirmed` is when the lease was last
      known to be held, `lost` the signal its renewal loop left. */
  datatype Runner = Runner(leader: bool, lost: bool, confirmed: int)

  /** Redis, the sweepers, and the history the results speak of: when each
      instance last took or extended the lease, and who has given it back since. */
  datatype Fleet = Fleet(
    now: int, cell: Cell, runners: map<string, Runner>, ttls: map<string, nat>,
    held: map<string, int>, released: set<string>)

  datatype Step =
    | Tick(elapsed: nat)
    | Acquire(id: string, link: Link)   // a tick of a sweeper that is not leading
    | Renew(id: string, link: Link)     // a tick of its renewal loop
    | NoticeLost(id: string)            // around a sweep, the lost signal is read
    | Stop(id: string)                  // the loop ends; nothing is swept after this
    | Release(id: string, link: Link)   // ... and the lease is given back

  predicate Enabled(f: Fleet, s: Step) {
    match s
    case Tick(_) => true
    case _ =>
      s.id in f.runners && s.id in f.ttls &&
      var r := f.runners[s.id];
      match s
      case Acquire(_, _) => !r.leader
      case Renew(_, _) => r.leader && !r.lost
      case NoticeLost(_) => r.lost
      case Stop(_) => r.leader
      case Release(_, _) => !r.leader
      case _ => true
  }

  function Next(f: Fleet, s: Step): Fleet {
    if !Enabled(f, s) then f
    else match s
      case Tick(elapsed) => f.(now := f.now + elapsed)
      case Acquire(id, link) =>
        var (cell, taken) := SetIfAbsent(f.cell, f.now, id, f.ttls[id]);
        if link.RequestLost? then f
        else
          var f' := if taken then f.(cell := cell, held := f.held[id := f.now], released := f.released - {id})
            else f.(cell := cell);
          if taken && link.Fine? then f'.(runners := f.runners[id := Runner(true, false, f.now)]) else f'
      case Renew(id, link) =>
        var (cell, extended) := RenewScript(f.cell, f.now, id, f.ttls[id]);
        var r := f.runners[id];
        if link.RequestLost? then f.(runners := f.runners[id := r.(lost := true)])
        else
          var f' := if extended == 1 then f.(cell := cell, held := f.held[id := f.now]) else f.(cell := cell);
          if extended == 1 && link.Fine? then f'.(runners := f.runners[id := r.(confirmed := f.now)])
          else f'.(runners := f.runners[id := r.(lost := true)])
      case NoticeLost(id) => f.(runners := f.runners[id := f.runners[id].(leader := false, lost := false)])
      case Stop(id) => f.(runners := f.runners[id := f.runners[id].(leader := false, lost := false)])
      case Release(id, link) =>
        var (cell, removed) := ReleaseScript(f.cell, f.now, id);
        if link.RequestLost? then f
        else if removed == 1 then f.(cell := cell, released := f.released + {id}) else f.(cell := cell)
  }

  function Execute(f: Fleet, steps: seq<Step>): Fleet
    decreases |steps|
  {
    if steps == [] then f else Execute(Next(f, steps[0]), steps[1..])
  }

  // ------------------------------------------------------------- exclusivity

  /** Took or extended the lease less than a time-to-live ago, and has not given it back. */
  ghost predicate Holding(f: Fleet, id: string) {
    id in f.held && id in f.ttls && id !in f.released && f.now < f.held[id] + f.ttls[id]
  }

  /** What the history says about one instance and the key, and its loop
      variables about the history. */
  ghost predicate InstanceOk(f: Fleet, id: string) {
    && (Holding(f, id) ==> f.cell == Some(Held(id, f.held[id] + f.ttls[id])))
    && (id in f.runners && f.runners[id].leader ==>
         id in f.held && id in f.ttls && id !in f.released && f.runners[id].confirmed <= f.held[id])
    && (id in f.held ==> f.held[id] <= f.now)
  }

  ghost predicate CellOk(f: Fleet) {
    f.cell.Some? ==>
      var id := f.cell.value.owner;
      id in f.held && id in f.ttls && id !in f.released && f.cell.value.expires == f.held[id] + f.ttls[id]
  }

  ghost predicate FleetOk(f: Fleet) { CellOk(f) && forall id :: InstanceOk(f, id) }

  ghost predicate Fresh(f: Fleet) {
    f.cell == None && f.held == map[] && f.released == {} && (forall id :: id in f.runners ==> !f.runners[id].leader)
  }

  lemma StepKeepsCell(f: Fleet, s: Step)
    requires CellOk(f)
    ensures CellOk(Next(f, s))
  {
  }

  lemma StepKeepsInstance(f: Fleet, s: Step, id: string)
    requires CellOk(f) && InstanceOk(f, id)
    ensures InstanceOk(Next(f, s), id)
  {
  }

  lemma StepKeeps(f: Fleet, s: Step)
    requires FleetOk(f)
    ensures FleetOk(Next(f, s))
  {
    StepKeepsCell(f, s);
    forall id ensures InstanceOk(Next(f, s), id) { StepKeepsInstance(f, s, id); }
  }

  lemma {:induction false} RunKeeps(f: Fleet, steps: seq<Step>)
    requires FleetOk(f)
    ensures FleetOk(Execute(f, steps))
    decreases |steps|
  {
    if steps != [] {
      StepKeeps(f, steps[0]);
      RunKeeps(Next(f, steps[0]), steps[1..]);
    }
  }

  /** The step by which an instance takes the lease. */
  ghost predicate Takes(f: Fleet, s: Step, id: string) {
    s.Acquire? && s.id == id && Enabled(f, s) && !s.link.RequestLost? && Live(f.cell, f.now).None?
  }

  /** Over whole runs: when one instance takes the lease, every other instance
      that ever held it has given it back or let a full time-to-live pass since
      it last took or extended it. */
  lemma Handover(f: Fleet, steps: seq<Step>, s: Step, taker: string, other: string)
    requires Fresh(f) && taker != other
    requires var at := Execute(f, steps); Takes(at, s, taker) && other in at.held && other in at.ttls
    ensures var at := Execute(f, steps); other in at.released || at.now >= at.held[other] + at.ttls[other]
  {
    var at := Execute(f, steps);
    RunKeeps(f, steps);
    assert InstanceOk(at, other);
  }

  /** Only the instance that holds the key changes it, and only an absent or
      expired key can be taken. */
  lemma OthersNeverTouch(f: Fleet, s: Step, owner: string)
    requires Owns(f.cell, f.now, owner) && !s.Tick? && s.id != owner
    ensures Next(f, s).cell == f.cell
  {
  }

  /** Leads on a confirmation younger than its time-to-live. */
  ghost predicate Timely(f: Fleet, id: string) {
    id in f.runners && f.runners[id].leader && id in f.ttls && f.now < f.runners[id].confirmed + f.ttls[id]
  }

  /** In every reachable state at most one leader is on time, so if every leader
      renews or steps down within its time-to-live there is never more than one. */
  lemma OneTimelyLeader(f: Fleet, steps: seq<Step>, a: string, b: string)
    requires Fresh(f)
    requires var at := Execute(f, steps); Timely(at, a) && Timely(at, b)
    ensures a == b
  {
    var at := Execute(f, steps);
    RunKeeps(f, steps);
    assert InstanceOk(at, a) && InstanceOk(at, b);
  }

  /** The condition is needed: a leader that lets its time-to-live pass keeps its
      flag until it looks, and meanwhile another instance leads too. */
  lemma LateLeaderOverlaps(f: Fleet, a: string, b: string)
    requires Fresh(f) && a != b && {a, b} <= f.runners.Keys && {a, b} <= f.ttls.Keys
    ensures var late := Execute(f, [Acquire(a, Fine), Tick(f.ttls[a]), Acquire(b, Fine)]);
            && {a, b} <= late.runners.Keys
            && late.runners[a].leader && late.runners[b].leader && !Timely(late, a)
  {
    var s1, s2, s3 := Acquire(a, Fine), Tick(f.ttls[a]), Acquire(b, Fine);
    var steps := [s1, s2, s3];
    assert steps[1..] == [s2, s3] && [s2, s3][1..] == [s3] && [s3][1..] == [];
    var f1 := Next(f, s1);
    var f2 := Next(f1, s2);
    assert Execute(f, steps) == Execute(f1, [s2, s3]) == Execute(f2, [s3]) == Execute(Next(f2, s3), []);
  }
}
