/** The session table as the object whose methods change it; calls that do not overlap. */
module SessionTable {
  import opened Wrappers
  import opened Sessions

  class Client {
    const number: nat
    /** How often Close was called. */
    var closes: nat

    constructor (number: nat)
      ensures this.number == number && closes == 0
    {
      this.number, closes := number, 0;
    }

    method Close()
      modifies this
      ensures closes == old(closes) + 1
    {
      closes := closes + 1;
    }
  }

  datatype Entry = Entry(csrf: string, expiresAt: int, client: Client)

  function AsSession(e: Entry): Session { Session(e.csrf, e.expiresAt, e.client.number) }

  ghost predicate DistinctClients(entries: seq<Entry>) {
    forall i, j :: 0 <= i < j < |entries| ==> entries[i].client != entries[j].client
  }

  ghost function Clients(entries: seq<Entry>): set<Client> { set e | e in entries :: e.client }

  /** Close the clients of removed sessions, each once. */
  method CloseAll(entries: seq<Entry>)
    requires DistinctClients(entries)
    modifies Clients(entries)
    ensures forall c: Client :: c in Clients(entries) ==> c.closes == old(c.closes) + 1
  {
    for i := 0 to |entries|
      invariant forall j :: 0 <= j < i ==> entries[j].client.closes == old(entries[j].client.closes) + 1
      invariant forall j :: i <= j < |entries| ==> entries[j].client.closes == old(entries[j].client.closes)
    {
      assert entries[i].client in Clients(entries);
      entries[i].client.Close();
    }
  }

  ghost function AsTable(sessions: map<string, Entry>): Table {
    map id | id in sessions :: AsSession(sessions[id])
  }

  lemma TableWithout(sessions: map<string, Entry>, ids: set<string>)
    requires OwnClients(sessions)
    ensures AsTable(sessions - ids) == AsTable(sessions) - ids
    ensures OwnClients(sessions - ids) && |sessions - ids| <= |sessions|
  {
    ViewWithout(sessions, ids);
    var rest := sessions - ids;
    Smaller(rest.Keys, sessions.Keys);
  }

  lemma ViewWithout(sessions: map<string, Entry>, ids: set<string>)
    ensures AsTable(sessions - ids) == AsTable(sessions) - ids
  {
    var a, b := AsTable(sessions - ids), AsTable(sessions) - ids;
    forall id ensures (id in a <==> id in b) && (id in a ==> a[id] == b[id]) {}
  }

  lemma SameExpired(sessions: map<string, Entry>, now: int)
    ensures ExpiredIds(AsTable(sessions), now) == ExpiredEntries(sessions, now)
  {
  }

  function ExpiredEntries(sessions: map<string, Entry>, now: int): set<string> {
    set id | id in sessions && now >= sessions[id].expiresAt
  }

  ghost predicate OwnClients(sessions: map<string, Entry>) {
    forall a, b :: a in sessions && b in sessions && a != b ==> sessions[a].client != sessions[b].client
  }

  /** `entries` are the sessions stored under `ids`. */
  ghost predicate EntriesOf(entries: seq<Entry>, sessions: map<string, Entry>, ids: set<string>) {
    && (forall e <- entries :: exists id :: id in ids && id in sessions && sessions[id] == e)
    && (forall id :: id in ids && id in sessions ==> sessions[id] in entries)
  }

  lemma ClientsRemoved(entries: seq<Entry>, sessions: map<string, Entry>, ids: set<string>, id: string)
    requires OwnClients(sessions) && EntriesOf(entries, sessions, ids) && id in sessions
    ensures sessions[id].client in Clients(entries) <==> id in ids
  {
    if id in ids { assert sessions[id] in entries; }
    if sessions[id].client in Clients(entries) {
      var e :| e in entries && e.client == sessions[id].client;
      var other :| other in ids && other in sessions && sessions[other] == e;
    }
  }

  /** Walk the map once, keeping the live sessions and collecting the expired. */
  method TakeExpired(sessions: map<string, Entry>, now: int) returns (kept: map<string, Entry>, expired: seq<Entry>)
    requires OwnClients(sessions)
    ensures kept == sessions - ExpiredEntries(sessions, now)
    ensures EntriesOf(expired, sessions, ExpiredEntries(sessions, now)) && DistinctClients(expired)
  {
    kept, expired := sessions, [];
    var todo := sessions.Keys;
    ghost var taken: set<string> := {};
    while todo != {}
      invariant todo <= sessions.Keys
      invariant taken == ExpiredEntries(sessions, now) - todo && kept == sessions - taken
      invariant EntriesOf(expired, sessions, taken) && DistinctClients(expired)
      decreases todo
    {
      var id :| id in todo;
      todo := todo - {id};
      if now >= sessions[id].expiresAt {
        NewClient(expired, sessions, taken, id);
        expired := expired + [sessions[id]];
        kept := kept - {id};
        taken := taken + {id};
      }
    }
  }

  lemma NewClient(entries: seq<Entry>, sessions: map<string, Entry>, ids: set<string>, id: string)
    requires OwnClients(sessions) && EntriesOf(entries, sessions, ids) && DistinctClients(entries)
    requires id in sessions && id !in ids
    ensures EntriesOf(entries + [sessions[id]], sessions, ids + {id}) && DistinctClients(entries + [sessions[id]])
  {
    ClientsRemoved(entries, sessions, ids, id);
    forall i | 0 <= i < |entries|
      ensures entries[i].client != sessions[id].client
    {
      assert entries[i].client in Clients(entries);
    }
    var more := entries + [sessions[id]];
    forall e | e in more ensures exists k :: k in ids + {id} && k in sessions && sessions[k] == e {
      if e in entries {
        var k :| k in ids && k in sessions && sessions[k] == e;
        assert k in ids + {id};
      } else {
        assert id in ids + {id};
      }
    }
  }

  class IntegrationManager {
    const maxSessions: nat
    var sessions: map<string, Entry>

    /** No two sessions share a client, and there are not too many. */
    ghost predicate Valid()
      reads this
    {
      OwnClients(sessions) && |sessions| <= maxSessions
    }

    ghost function View(): Table
      reads this
    {
      AsTable(sessions)
    }

    ghost function Used(): set<Client>
      reads this
    {
      set id | id in sessions :: sessions[id].client
    }

    constructor (maxSessions: nat)
      ensures Valid() && this.maxSessions == maxSessions && sessions == map[]
    {
      this.maxSessions, sessions := maxSessions, map[];
    }

    /** The last part of Connect: the session is stored, or its client closed. */
    method Add(id: string, csrf: string, expiresAt: int, client: Client) returns (error: Option<SessionError>)
      requires Valid() && client !in Used()
      modifies this, client
      ensures Valid()
      ensures error == if |old(sessions)| >= maxSessions then Some(RateLimited) else None
      ensures View() == if error.Some? then old(View()) else old(View())[id := Session(csrf, expiresAt, client.number)]
      ensures client.closes == old(client.closes) + (if error.Some? then 1 else 0)
    {
      if |sessions| >= maxSessions {
        client.Close();
        return Some(RateLimited);
      }
      assert sessions[id := Entry(csrf, expiresAt, client)].Keys == sessions.Keys + {id};
      sessions := sessions[id := Entry(csrf, expiresAt, client)];
      return None;
    }

    method Disconnect(id: string)
      requires Valid()
      modifies this, Used()
      ensures Valid() && View() == old(View()) - {id} && sessions == old(sessions) - {id}
      ensures forall other :: other in old(sessions) ==>
                var c := old(sessions)[other].client;
                c.closes == old(c.closes) + (if other == id then 1 else 0)
    {
      TableWithout(sessions, {id});
      if id in sessions {
        var session := sessions[id];
        sessions := sessions - {id};
        session.client.Close();
      }
    }

    /** Take out what has expired, and close the clients afterwards. */
    method ExpireSessions(now: int)
      requires Valid()
      modifies this, Used()
      ensures Valid() && View() == old(View()) - ExpiredIds(old(View()), now)
      ensures forall id :: id in sessions <==> id in old(sessions) && now < old(sessions)[id].expiresAt
      ensures forall id :: id in sessions ==> sessions[id] == old(sessions)[id]
      ensures forall id :: id in old(sessions) ==>
                var e := old(sessions)[id];
                e.client.closes == old(e.client.closes) + (if now >= e.expiresAt then 1 else 0)
    {
      ghost var before, ids := sessions, ExpiredEntries(sessions, now);
      SameExpired(sessions, now);
      TableWithout(sessions, ids);
      var kept, expired := TakeExpired(sessions, now);
      sessions := kept;
      CloseRemoved(before, expired, ids);
    }

    /** Close what was removed; no other session's client is touched. */
    method CloseRemoved(ghost before: map<string, Entry>, removed: seq<Entry>, ghost ids: set<string>)
      requires OwnClients(before) && EntriesOf(removed, before, ids) && DistinctClients(removed)
      modifies set id | id in before :: before[id].client
      ensures forall id :: id in before ==>
                before[id].client.closes == old(before[id].client.closes) + (if id in ids then 1 else 0)
    {
      forall c: Client | c in Clients(removed) ensures exists id :: id in before && before[id].client == c {
        var e :| e in removed && e.client == c;
      }
      forall id | id in before ensures before[id].client in Clients(removed) <==> id in ids {
        ClientsRemoved(removed, before, ids, id);
      }
      CloseAll(removed);
    }

    /** Hand out a live session; an expired one is removed and its client closed. */
    method SessionFor(id: string, csrf: string, now: int) returns (r: Result<Session, SessionError>)
      requires Valid()
      modifies this, Used()
      ensures Valid() && View() == Lookup(old(View()), id, csrf, now).0 && r == Lookup(old(View()), id, csrf, now).1
      ensures var live := id in old(sessions) && now < old(sessions)[id].expiresAt;
              && (r == Err(SessionNotFound) <==> !live)
              && (r == Err(BadToken) <==> live && old(sessions)[id].csrf != csrf)
              && (r.Ok? ==> r.value == Session(csrf, old(sessions)[id].expiresAt, old(sessions)[id].client.number))
              && (if id in old(sessions) && !live then sessions == old(sessions) - {id} else sessions == old(sessions))
      ensures forall other :: other in old(sessions) ==>
                var e := old(sessions)[other];
                e.client.closes == old(e.client.closes) + (if other == id && now >= e.expiresAt then 1 else 0)
    {
      if id !in sessions { return Err(SessionNotFound); }
      var session := sessions[id];
      if now >= session.expiresAt {
        Disconnect(id);
        return Err(SessionNotFound);
      }
      if session.csrf != csrf { return Err(BadToken); }
      return Ok(AsSession(session));
    }

    /** Empty the table and close every client in it. */
    method Close()
      requires Valid()
      modifies this, Used()
      ensures Valid() && sessions == map[]
      ensures forall id :: id in old(sessions) ==>
                var c := old(sessions)[id].client; c.closes == old(c.closes) + 1
    {
      ghost var before := sessions;
      var all := Collect(sessions);
      sessions := map[];
      CloseRemoved(before, all, before.Keys);
    }
  }

  method Collect(sessions: map<string, Entry>) returns (all: seq<Entry>)
    requires OwnClients(sessions)
    ensures EntriesOf(all, sessions, sessions.Keys) && DistinctClients(all)
  {
    all := [];
    var todo := sessions.Keys;
    while todo != {}
      invariant todo <= sessions.Keys
      invariant EntriesOf(all, sessions, sessions.Keys - todo) && DistinctClients(all)
      decreases todo
    {
      var id :| id in todo;
      NewClient(all, sessions, sessions.Keys - todo, id);
      assert sessions.Keys - todo + {id} == sessions.Keys - (todo - {id});
      all := all + [sessions[id]];
      todo := todo - {id};
    }
  }
}
