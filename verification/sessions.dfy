/** The integration session table: who owns a provider client, and who closes it. */
module Sessions {
  import opened Wrappers

  datatype Session = Session(csrf: string, expiresAt: int, client: nat)

  type Table = map<string, Session>

  datatype SessionError = SessionNotFound | BadToken | RateLimited

  predicate Expired(s: Session, now: int) { now >= s.expiresAt }

  function ExpiredIds(table: Table, now: int): set<string> {
    set id | id in table && Expired(table[id], now)
  }

  /** Looking a session up: what the caller gets, and what is left in the table. */
  function Lookup(table: Table, id: string, csrf: string, now: int): (Table, Result<Session, SessionError>) {
    if id !in table then (table, Err(SessionNotFound))
    else if Expired(table[id], now) then (table - {id}, Err(SessionNotFound))
    else if table[id].csrf != csrf then (table, Err(BadToken))
    else (table, Ok(table[id]))
  }

  /** A session is handed out exactly when it is there, is not expired and the
      token matches; and then it stays in the table. */
  lemma HandedOutLive(table: Table, id: string, csrf: string, now: int)
    ensures var (after, r) := Lookup(table, id, csrf, now);
            && (r.Ok? <==> id in table && now < table[id].expiresAt && table[id].csrf == csrf)
            && (r.Ok? ==> after == table && r.value == table[id])
            && (after != table <==> id in table && now >= table[id].expiresAt)
  {
    if id in table && Expired(table[id], now) { assert id !in table - {id}; }
  }

  // ------------------------------------------------------------------ machine

  /** The table, the connects that hold a client not yet in it, the clients their
      remover has yet to close, and history: clients created, Close calls made, and
      clients whose entry another session with the same id replaced. */
  datatype Manager = Manager(
    max: nat, table: Table, connecting: map<nat, nat>, closing: set<nat>,
    created: set<nat>, closes: seq<nat>, replaced: set<nat>)

  datatype Step =
    | Open(call: nat, client: nat)                                  // a client is built and being verified
    | Abandon(call: nat)                                            // verification or the random source failed
    | Insert(call: nat, id: string, csrf: string, expiresAt: int)   // the locked part of Connect
    | Disconnect(id: string)
    | Use(id: string, csrf: string, now: int)
    | Expire(now: int)
    | Drain                                                         // the locked part of Close
    | CloseClient(client: nat)                                      // a remover closes what it removed

  predicate Enabled(m: Manager, s: Step) {
    match s
    case Open(call, client) => call !in m.connecting && client !in m.created
    case Abandon(call) => call in m.connecting
    case Insert(call, _, _, _) => call in m.connecting
    case CloseClient(client) => client in m.closing
    case _ => true
  }

  function ClientsOf(table: Table, ids: set<string>): set<nat> {
    set id | id in ids && id in table :: table[id].client
  }

  /** Take some entries out of the table; their clients are now to be closed. */
  function Remove(m: Manager, ids: set<string>): Manager {
    m.(table := m.table - ids, closing := m.closing + ClientsOf(m.table, ids))
  }

  function Next(m: Manager, s: Step): Manager {
    if !Enabled(m, s) then m
    else match s
      case Open(call, client) => m.(connecting := m.connecting[call := client], created := m.created + {client})
      case Abandon(call) => m.(connecting := m.connecting - {call}, closing := m.closing + {m.connecting[call]})
      case Insert(call, id, csrf, expiresAt) =>
        var client, rest := m.connecting[call], m.connecting - {call};
        if |m.table| >= m.max then m.(connecting := rest, closing := m.closing + {client})
        else m.(connecting := rest, table := m.table[id := Session(csrf, expiresAt, client)],
                replaced := m.replaced + ClientsOf(m.table, {id}))
      case Disconnect(id) => Remove(m, {id})
      case Use(id, csrf, now) => if id in m.table && Expired(m.table[id], now) then Remove(m, {id}) else m
      case Expire(now) => Remove(m, ExpiredIds(m.table, now))
      case Drain => Remove(m, m.table.Keys)
      case CloseClient(client) => m.(closing := m.closing - {client}, closes := m.closes + [client])
  }

  function Execute(m: Manager, steps: seq<Step>): Manager
    decreases |steps|
  {
    if steps == [] then m else Execute(Next(m, steps[0]), steps[1..])
  }

  /** An identifier drawn for a new session is one the table already uses. */
  ghost predicate Collides(m: Manager, s: Step) { s.Insert? && Enabled(m, s) && |m.table| < m.max && s.id in m.table }

  // ---------------------------------------------------------------- ownership

  ghost predicate Tabled(m: Manager, c: nat) { exists id :: id in m.table && m.table[id].client == c }

  ghost predicate Connecting(m: Manager, c: nat) { exists call :: call in m.connecting && m.connecting[call] == c }

  /** Every client created is in exactly one place. */
  ghost predicate PlacesOk(m: Manager, c: nat) {
    && (c in m.created <==> Tabled(m, c) || Connecting(m, c) || c in m.closing || c in m.closes || c in m.replaced)
    && (Tabled(m, c) ==> !Connecting(m, c) && c !in m.closing && c !in m.closes && c !in m.replaced)
    && (Connecting(m, c) ==> c !in m.closing && c !in m.closes && c !in m.replaced)
    && (c in m.closing ==> c !in m.closes && c !in m.replaced)
    && (c in m.closes ==> c !in m.replaced)
  }

  /** ... and in that place once. */
  ghost predicate OnceOk(m: Manager) { TableOnce(m.table) && ConnectOnce(m.connecting) && CloseOnce(m.closes) }

  ghost predicate TableOnce(table: Table) {
    forall a, b :: a in table && b in table && table[a].client == table[b].client ==> a == b
  }

  ghost predicate ConnectOnce(connecting: map<nat, nat>) {
    forall a, b :: a in connecting && b in connecting && connecting[a] == connecting[b] ==> a == b
  }

  ghost predicate CloseOnce(closes: seq<nat>) {
    forall i, j :: 0 <= i < j < |closes| ==> closes[i] != closes[j]
  }

  ghost predicate ManagerOk(m: Manager) {
    (forall c :: PlacesOk(m, c)) && OnceOk(m) && |m.table| <= m.max
  }

  ghost predicate Started(m: Manager) {
    m.table == map[] && m.connecting == map[] && m.closing == {} && m.created == {} && m.closes == []
      && m.replaced == {}
  }

  lemma RemovePlaces(m: Manager, ids: set<string>, c: nat)
    requires PlacesOk(m, c) && OnceOk(m)
    ensures PlacesOk(Remove(m, ids), c)
  {
    var m' := Remove(m, ids);
    if Tabled(m, c) {
      var id :| id in m.table && m.table[id].client == c;
      if id in ids { assert c in m'.closing; } else { assert id in m'.table; }
    }
    assert Tabled(m', c) ==> Tabled(m, c);
    assert Connecting(m', c) <==> Connecting(m, c);
  }

  lemma ConnectPlaces(m: Manager, s: Step, c: nat)
    requires PlacesOk(m, c) && OnceOk(m) && Enabled(m, s) && (s.Open? || s.Abandon?)
    ensures PlacesOk(Next(m, s), c)
  {
    var m' := Next(m, s);
    assert Tabled(m', c) <==> Tabled(m, c);
    if Connecting(m, c) {
      var call :| call in m.connecting && m.connecting[call] == c;
      assert call != s.call ==> call in m'.connecting && m'.connecting[call] == c;
    }
    if s.Open? { assert s.call in m'.connecting && m'.connecting[s.call] == s.client; }
    if s.Abandon? { assert m.connecting[s.call] == c ==> Connecting(m, c); }
    assert Connecting(m', c) ==> Connecting(m, c) || (s.Open? && c == s.client);
  }

  lemma InsertPlaces(m: Manager, s: Step, c: nat)
    requires PlacesOk(m, c) && OnceOk(m) && Enabled(m, s) && s.Insert?
    ensures PlacesOk(Next(m, s), c)
  {
    var m', client := Next(m, s), m.connecting[s.call];
    if Connecting(m, c) {
      var call :| call in m.connecting && m.connecting[call] == c;
      assert call != s.call ==> call in m'.connecting && m'.connecting[call] == c;
    }
    assert Connecting(m', c) ==> Connecting(m, c) && c != client;
    assert c == client ==> Connecting(m, c);
    if |m.table| < m.max {
      assert s.id in m'.table && m'.table[s.id].client == client;
      if Tabled(m, c) {
        var id :| id in m.table && m.table[id].client == c;
        if id == s.id { assert c in m'.replaced; } else { assert m'.table[id].client == c; }
      }
      assert Tabled(m', c) ==> c == client || Tabled(m, c);
    }
  }

  lemma StepPlaces(m: Manager, s: Step, c: nat)
    requires PlacesOk(m, c) && OnceOk(m)
    ensures PlacesOk(Next(m, s), c)
  {
    if !Enabled(m, s) { return; }
    match s
    case Open(_, _) => ConnectPlaces(m, s, c);
    case Abandon(_) => ConnectPlaces(m, s, c);
    case Insert(_, _, _, _) => InsertPlaces(m, s, c);
    case Disconnect(id) => RemovePlaces(m, {id}, c);
    case Use(id, _, _) => RemovePlaces(m, {id}, c);
    case Expire(now) => RemovePlaces(m, ExpiredIds(m.table, now), c);
    case Drain => RemovePlaces(m, m.table.Keys, c);
    case CloseClient(client) =>
      assert Tabled(Next(m, s), c) <==> Tabled(m, c);
      assert Connecting(Next(m, s), c) <==> Connecting(m, c);
  }

  /** The client a step puts somewhere new. */
  function Mover(m: Manager, s: Step): Option<nat> {
    if !Enabled(m, s) then None
    else match s
      case Open(_, client) => Some(client)
      case Insert(call, _, _, _) => Some(m.connecting[call])
      case CloseClient(client) => Some(client)
      case _ => None
  }

  lemma TableOnceMore(table: Table, id: string, session: Session)
    requires TableOnce(table) && forall a :: a in table ==> table[a].client != session.client
    ensures TableOnce(table[id := session])
  {
  }

  lemma StepOnceTable(m: Manager, s: Step)
    requires OnceOk(m) && (Mover(m, s).Some? ==> PlacesOk(m, Mover(m, s).value))
    ensures TableOnce(Next(m, s).table)
  {
    if s.Insert? && Enabled(m, s) {
      var client := m.connecting[s.call];
      assert Connecting(m, client) && !Tabled(m, client);
      TableOnceMore(m.table, s.id, Session(s.csrf, s.expiresAt, client));
    }
  }

  lemma StepOnceConnect(m: Manager, s: Step)
    requires OnceOk(m) && (Mover(m, s).Some? ==> PlacesOk(m, Mover(m, s).value))
    ensures ConnectOnce(Next(m, s).connecting)
  {
    if s.Open? && Enabled(m, s) { assert !Connecting(m, s.client); }
  }

  lemma StepOnceClose(m: Manager, s: Step)
    requires OnceOk(m) && (Mover(m, s).Some? ==> PlacesOk(m, Mover(m, s).value))
    ensures CloseOnce(Next(m, s).closes)
  {
  }

  lemma StepOnce(m: Manager, s: Step)
    requires OnceOk(m) && (Mover(m, s).Some? ==> PlacesOk(m, Mover(m, s).value))
    ensures OnceOk(Next(m, s))
  {
    StepOnceTable(m, s);
    StepOnceConnect(m, s);
    StepOnceClose(m, s);
  }

  lemma SizeAfter(m: Manager, s: Step)
    requires |m.table| <= m.max
    ensures |Next(m, s).table| <= m.max && Next(m, s).max == m.max
  {
    var m' := Next(m, s);
    if Enabled(m, s) && s.Insert? && |m.table| < m.max {
      OneMore(m.table, s.id, m'.table[s.id]);
    } else {
      assert m'.table.Keys <= m.table.Keys;
      Smaller(m'.table.Keys, m.table.Keys);
    }
  }

  lemma OneMore(table: Table, id: string, session: Session)
    ensures |table[id := session]| <= |table| + 1
  {
    assert table[id := session].Keys == table.Keys + {id};
  }

  lemma Smaller(a: set<string>, b: set<string>)
    requires a <= b
    ensures |a| <= |b|
  {
    assert b == a + (b - a);
  }

  lemma StepKeeps(m: Manager, s: Step)
    requires ManagerOk(m)
    ensures ManagerOk(Next(m, s))
  {
    forall c ensures PlacesOk(Next(m, s), c) { StepPlaces(m, s, c); }
    StepOnce(m, s);
    SizeAfter(m, s);
  }

  lemma {:induction false} RunKeeps(m: Manager, steps: seq<Step>)
    requires ManagerOk(m)
    ensures ManagerOk(Execute(m, steps)) && Execute(m, steps).max == m.max
    decreases |steps|
  {
    if steps != [] {
      StepKeeps(m, steps[0]);
      SizeAfter(m, steps[0]);
      RunKeeps(Next(m, steps[0]), steps[1..]);
    }
  }

  lemma StartedOk(m: Manager)
    requires Started(m)
    ensures ManagerOk(m)
  {
  }

  // ------------------------------------------------------------- main results

  /** In every reachable state of every interleaving there are at most
      `max` sessions, no client is closed twice, and none that a session in the
      table uses is closed or about to be. */
  lemma TableSafety(m: Manager, steps: seq<Step>, id: string)
    requires Started(m)
    ensures var at := Execute(m, steps);
            && |at.table| <= m.max
            && (forall i, j :: 0 <= i < j < |at.closes| ==> at.closes[i] != at.closes[j])
            && (id in at.table ==> at.table[id].client !in at.closes && at.table[id].client !in at.closing)
  {
    StartedOk(m);
    RunKeeps(m, steps);
    var at := Execute(m, steps);
    if id in at.table { assert PlacesOk(at, at.table[id].client) && Tabled(at, at.table[id].client); }
  }

  /** No call is between a table update and its closes, or holds a client of its own. */
  ghost predicate Quiescent(m: Manager) { m.connecting == map[] && m.closing == {} }

  /** Once no call is in flight, a client is unclosed exactly if its session is
      in the table or was replaced by one with the same id. */
  lemma UnclosedAreTabled(m: Manager, steps: seq<Step>, c: nat)
    requires Started(m) && Quiescent(Execute(m, steps))
    ensures var end := Execute(m, steps);
            c in end.created && c !in end.closes <==> Tabled(end, c) || c in end.replaced
  {
    StartedOk(m);
    RunKeeps(m, steps);
    assert PlacesOk(Execute(m, steps), c);
  }

  /** Sessions are replaced exactly by colliding identifiers, so with fresh ones
      the unclosed clients are those in the table; one collision leaks the
      client it replaces for good. */
  lemma ReplacedByCollision(m: Manager, s: Step)
    requires ManagerOk(m)
    ensures m.replaced <= Next(m, s).replaced
    ensures Next(m, s).replaced != m.replaced <==> Collides(m, s)
  {
    if Collides(m, s) {
      var c := m.table[s.id].client;
      assert PlacesOk(m, c) && Tabled(m, c);
      assert c in ClientsOf(m.table, {s.id});
    }
  }

  ghost predicate NoCollision(m: Manager, steps: seq<Step>)
    decreases |steps|
  {
    steps == [] || (!Collides(m, steps[0]) && NoCollision(Next(m, steps[0]), steps[1..]))
  }

  lemma {:induction false} ReplacedGrows(m: Manager, steps: seq<Step>)
    requires ManagerOk(m)
    ensures m.replaced <= Execute(m, steps).replaced
    ensures Execute(m, steps).replaced == m.replaced <==> NoCollision(m, steps)
    decreases |steps|
  {
    if steps != [] {
      StepKeeps(m, steps[0]);
      ReplacedByCollision(m, steps[0]);
      ReplacedGrows(Next(m, steps[0]), steps[1..]);
    }
  }

  /** Quiescent ownership is exact if and only if no identifier ever collided. */
  lemma OwnershipExact(m: Manager, steps: seq<Step>)
    requires Started(m) && Quiescent(Execute(m, steps))
    ensures var end := Execute(m, steps);
            (forall c :: c in end.created && c !in end.closes <==> Tabled(end, c)) <==> NoCollision(m, steps)
  {
    StartedOk(m);
    RunKeeps(m, steps);
    ReplacedGrows(m, steps);
    var end := Execute(m, steps);
    forall c ensures (c in end.created && c !in end.closes <==> Tabled(end, c)) <==> c !in end.replaced {
      UnclosedAreTabled(m, steps, c);
      assert PlacesOk(end, c);
    }
    if end.replaced != {} { var c :| c in end.replaced; }
  }

  /** Two connects that draw the same identifier: the first client stays open and
      is in nobody's hands, whatever happens afterwards. */
  lemma CollisionLeaks(m: Manager, id: string, csrf: string, expiresAt: int, later: seq<Step>)
    requires Started(m) && m.max >= 2
    ensures var run := [Open(0, 0)]
      + ([Insert(0, id, csrf, expiresAt)] + ([Open(1, 1)] + [Insert(1, id, csrf, expiresAt)]));
            var end := Execute(Execute(m, run), later);
            0 in end.created && 0 !in end.closes && 0 !in end.closing && !Tabled(end, 0)
  {
    var s1, s2, s3, s4 := Open(0, 0), Insert(0, id, csrf, expiresAt), Open(1, 1), Insert(1, id, csrf, expiresAt);
    var run := [s1] + ([s2] + ([s3] + [s4]));
    FourSteps(m, s1, s2, s3, s4);
    TwoSessions(m, id, csrf, expiresAt);
    StartedOk(m);
    RunKeeps(m, run);
    ReplacedForever(Execute(m, run), later, 0);
  }

  lemma TwoSessions(m: Manager, id: string, csrf: string, expiresAt: int)
    requires Started(m) && m.max >= 2
    ensures var m2 := Next(Next(m, Open(0, 0)), Insert(0, id, csrf, expiresAt));
            0 in Next(Next(m2, Open(1, 1)), Insert(1, id, csrf, expiresAt)).replaced
  {
    var m2 := Next(Next(m, Open(0, 0)), Insert(0, id, csrf, expiresAt));
    assert m2.table == map[id := Session(csrf, expiresAt, 0)] && m2.connecting == map[];
    var m3 := Next(m2, Open(1, 1));
    assert |m3.table| == 1 && m3.connecting == map[1 := 1];
    assert id in m3.table && 0 in ClientsOf(m3.table, {id});
  }

  /** A replaced client is never closed. */
  lemma ReplacedForever(m: Manager, later: seq<Step>, c: nat)
    requires ManagerOk(m) && c in m.replaced
    ensures var end := Execute(m, later);
            c in end.created && c !in end.closes && c !in end.closing && !Tabled(end, c)
  {
    RunKeeps(m, later);
    ReplacedGrows(m, later);
    assert PlacesOk(Execute(m, later), c);
  }

  lemma FourSteps(m: Manager, s1: Step, s2: Step, s3: Step, s4: Step)
    ensures Execute(m, [s1] + ([s2] + ([s3] + [s4]))) == Next(Next(Next(Next(m, s1), s2), s3), s4)
  {
    OneStep(m, s1, [s2] + ([s3] + [s4]));
    OneStep(Next(m, s1), s2, [s3] + [s4]);
    OneStep(Next(Next(m, s1), s2), s3, [s4]);
    assert [s4] == [s4] + [];
    OneStep(Next(Next(Next(m, s1), s2), s3), s4, []);
  }

  lemma OneStep(m: Manager, s: Step, rest: seq<Step>)
    ensures Execute(m, [s] + rest) == Execute(Next(m, s), rest)
  {
    assert ([s] + rest)[1..] == rest;
  }
}
