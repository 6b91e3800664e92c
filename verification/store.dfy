/** The store as the object the control plane mutates. Every method is proved
    against the section and operation functions; calls that do not overlap. */
module Lifecycle {
  import opened Wrappers
  import opened Text
  import opened Sorting
  import opened Protocol
  import opened Sections
  import opened Numbered
  import opened StoreInvariants
  import opened Audit
  import opened Operations
  import opened Outcomes
  import opened Persistence
  import opened Restart
  import opened Interleaving
  import opened RedisRepository

  datatype RotateResponse = PlannedRotation(identity: Identity)
    | Renewed(identity: Identity, run: Run, events: seq<Event>)

  datatype RetireResponse = PlannedRetirement(identity: Identity)
    | Decommissioned(identity: Identity, events: seq<Event>)

  /** A new identity and where its credential can be read: the native copy, or
      the cluster copy if that is the only one. */
  datatype ProvisionResponse = ProvisionResponse(identity: Identity, vault: Option<VaultReference>)

  // ---------------------------------------------------------------- inventory

  predicate Listed(identities: map<string, Identity>, includeRetired: bool, v: Identity) {
    v.id in identities && identities[v.id] == v && (includeRetired || v.state != Retired)
  }

  /** The inventory order: expiry, then name. */
  predicate ListBefore(a: Identity, b: Identity) {
    if a.expiresAt == b.expiresAt then Less(a.name, b.name) else a.expiresAt < b.expiresAt
  }

  method InsertListed(v: Identity, all: seq<Identity>) returns (more: seq<Identity>)
    requires forall i, j :: 0 <= i < j < |all| ==> !ListBefore(all[j], all[i])
    requires DistinctBy(IdentityKey, all) && forall i :: 0 <= i < |all| ==> IdentityKey(all[i]) != IdentityKey(v)
    ensures forall w :: w in more <==> w == v || w in all
    ensures DistinctBy(IdentityKey, more)
    ensures forall i, j :: 0 <= i < j < |more| ==> !ListBefore(more[j], more[i])
  {
    var n := |all|;
    while n > 0 && ListBefore(v, all[n - 1])
      invariant 0 <= n <= |all|
      invariant forall i :: n <= i < |all| ==> ListBefore(v, all[i])
    {
      n := n - 1;
    }
    more := all[..n] + [v] + all[n..];
    forall w ensures w in more <==> w == v || w in all { assert all == all[..n] + all[n..]; }
    forall i, j | 0 <= i < j < |more| ensures !ListBefore(more[j], more[i]) {
      InsertOrder(all, n, v, i, j);
    }
  }

  lemma InsertOrder(all: seq<Identity>, n: nat, v: Identity, i: nat, j: nat)
    requires n <= |all| && i < j <= |all|
    requires forall i, j :: 0 <= i < j < |all| ==> !ListBefore(all[j], all[i])
    requires n > 0 ==> !ListBefore(v, all[n - 1])
    requires forall i :: n <= i < |all| ==> ListBefore(v, all[i])
    ensures var more := all[..n] + [v] + all[n..]; !ListBefore(more[j], more[i])
  {
    if i < n && j == n && i < n - 1 { NotBeforeTransitive(v, all[n - 1], all[i]); }
    if i == n { BeforeAsymmetric(v, all[j - 1]); }
  }

  lemma BeforeAsymmetric(a: Identity, b: Identity)
    requires ListBefore(a, b)
    ensures !ListBefore(b, a)
  {
    if a.expiresAt == b.expiresAt { LessNotBoth(a.name, b.name); }
  }

  lemma NotBeforeTransitive(a: Identity, b: Identity, c: Identity)
    requires !ListBefore(a, b) && !ListBefore(b, c)
    ensures !ListBefore(a, c)
  {
    if a.expiresAt == b.expiresAt == c.expiresAt {
      LessTotal(a.name, b.name);
      LessTotal(b.name, c.name);
      if Less(a.name, c.name) {
        if b.name != a.name { LessTransitive(b.name, a.name, c.name); LessNotBoth(b.name, c.name); }
      }
    }
  }

  // ---------------------------------------------------------------- discovery

  /** What the repository holds at startup. */
  datatype LoadAnswer = Loaded(snapshot: Snapshot) | NoSnapshot | LoadFailed

  /** Adopt discovered identities in order, up to the first that does not conform. */
  function AdoptAll(parse: PeriodParser, st: StoreState, found: seq<Identity>, now: int)
      : Result<StoreState, LifecycleError> {
    if found == [] then Ok(st)
    else match AdoptAll(parse, st, found[..|found| - 1], now)
      case Err(e) => Err(e)
      case Ok(before) =>
        var identity := Governed(FixIdentity(found[|found| - 1]), now);
        if ValidIdentity(parse, identity) then Ok(Adopt(before, identity, now, ACTOR_CONTROL_PLANE))
        else Err(Conformance)
  }

  /** Once an identity is refused, so is every longer list. */
  lemma {:induction false} AdoptStops(parse: PeriodParser, st: StoreState, found: seq<Identity>, now: int, n: nat)
    requires n <= |found| && AdoptAll(parse, st, found[..n], now).Err?
    ensures AdoptAll(parse, st, found, now) == AdoptAll(parse, st, found[..n], now)
  {
    if n < |found| {
      var shorter := found[..|found| - 1];
      assert shorter[..n] == found[..n];
      AdoptStops(parse, st, shorter, now, n);
    } else {
      assert found[..n] == found;
    }
  }

  /** What is found is adopted exactly if it is complete, with a health that is known
      or not reported. */
  lemma FoundConforms(parse: PeriodParser, v: Identity, now: int)
    ensures ValidIdentity(parse, Governed(FixIdentity(v), now)) <==>
            && v.name != "" && v.provider != "" && v.providerId != "" && v.team != "" && v.service != ""
            && v.purpose != "" && (v.health == Unset || v.health == Healthy || v.health == Attention)
            && (v.renewalPeriod == "" || parse(v.renewalPeriod) != None)
  {
  }

  /** Discovery succeeds exactly if everything found conforms. */
  lemma {:induction false} AdoptsExactly(parse: PeriodParser, st: StoreState, found: seq<Identity>, now: int)
    ensures AdoptAll(parse, st, found, now).Ok? <==>
            forall i :: 0 <= i < |found| ==> ValidIdentity(parse, Governed(FixIdentity(found[i]), now))
    ensures AdoptAll(parse, st, found, now).Err? ==> AdoptAll(parse, st, found, now) == Err(Conformance)
  {
    if found != [] {
      var n := |found| - 1;
      AdoptsExactly(parse, st, found[..n], now);
      assert forall i :: 0 <= i < n ==> found[..n][i] == found[i];
    }
  }

  /** The last adoption of a discovery. */
  lemma AdoptedLast(parse: PeriodParser, st: StoreState, found: seq<Identity>, now: int)
    requires found != [] && AdoptAll(parse, st, found, now).Ok?
    ensures AdoptAll(parse, st, found[..|found| - 1], now).Ok?
    ensures var before, v := AdoptAll(parse, st, found[..|found| - 1], now).value, found[|found| - 1];
            var after := AdoptAll(parse, st, found, now).value;
            && after.nextEvent == before.nextEvent + 2 && after.runs == before.runs && after.nextRun == before.nextRun
            && after.identities == before.identities[IdFound(v) := Discovered(v, now)]
  {
    var before, v := AdoptAll(parse, st, found[..|found| - 1], now).value, found[|found| - 1];
    AdoptRecords(before, Governed(FixIdentity(v), now), now, ACTOR_CONTROL_PLANE);
  }

  /** Active, and healthy unless reported otherwise, under its own id or its name. */
  ghost function Discovered(v: Identity, now: int): (record: Identity)
    ensures record == v.(id := if v.id == "" then v.name else v.id, state := Active, createdAt := now, updatedAt := now,
                         health := if v.health == Unset then Healthy else v.health)
  {
    Governed(FixIdentity(v), now)
  }

  /** Discovery leaves of one identity the last record found under its id or name ... */
  lemma {:induction false} AdoptedExactly(parse: PeriodParser, st: StoreState, found: seq<Identity>, now: int, i: nat)
    requires i < |found| && forall j :: i < j < |found| ==> IdFound(found[j]) != IdFound(found[i])
    requires AdoptAll(parse, st, found, now).Ok?
    ensures var after, id := AdoptAll(parse, st, found, now).value, IdFound(found[i]);
            id in after.identities && after.identities[id] == Discovered(found[i], now)
    decreases |found|
  {
    var n := |found| - 1;
    AdoptedLast(parse, st, found, now);
    if i < n { AdoptedExactly(parse, st, found[..n], now, i); }
  }

  /** ... nothing of the others, and two events for each found. */
  lemma {:induction false} AdoptsNothingElse(parse: PeriodParser, st: StoreState, found: seq<Identity>, now: int,
      id: string)
    requires AdoptAll(parse, st, found, now).Ok?
    ensures var after := AdoptAll(parse, st, found, now).value;
            && after.nextEvent == st.nextEvent + 2 * |found| && after.runs == st.runs && after.nextRun == st.nextRun
            && ((forall v <- found :: IdFound(v) != id) ==>
                 (id in after.identities <==> id in st.identities) &&
                 (id in after.identities ==> after.identities[id] == st.identities[id]))
  {
    if found != [] {
      AdoptedLast(parse, st, found, now);
      AdoptsNothingElse(parse, st, found[..|found| - 1], now, id);
    }
  }

  function IdFound(v: Identity): string { if v.id == "" then v.name else v.id }

  /** Discovery builds a sound store with every list in order. */
  lemma {:induction false} AdoptAllOk(parse: PeriodParser, st: StoreState, found: seq<Identity>, now: int)
    requires StoreOk(st) && TrailsOk(st) && AdoptAll(parse, st, found, now).Ok?
    ensures var after := AdoptAll(parse, st, found, now).value; StoreOk(after) && TrailsOk(after)
  {
    if found != [] {
      var before := AdoptAll(parse, st, found[..|found| - 1], now).value;
      AdoptAllOk(parse, st, found[..|found| - 1], now);
      AdoptKeeps(before, Governed(FixIdentity(found[|found| - 1]), now), now, ACTOR_CONTROL_PLANE);
    }
  }

  lemma AdoptKeeps(st: StoreState, identity: Identity, now: int, registrar: string)
    requires StoreOk(st) && TrailsOk(st) && identity.state == Active
    ensures var after := Adopt(st, identity, now, registrar); StoreOk(after) && TrailsOk(after)
  {
    var change := AdoptChanges(st, identity, now, registrar);
    ChangeKeepsLog(st, Adopt(st, identity, now, registrar), change, true);
  }

  class Store {
    var identities: map<string, Identity>
    var events: map<string, seq<Event>>
    var runs: map<string, seq<Run>>
    var nextEvent: nat
    var nextRun: nat
    /** Everything offered to the audit sink, and the repository's content. */
    var sink: seq<Event>
    var saved: Option<Snapshot>
    const hasRepository: bool
    const parse: PeriodParser

    function View(): StoreState
      reads this
    {
      StoreState(identities, events, runs, nextEvent, nextRun, sink)
    }

    ghost predicate Valid()
      reads this
    {
      StoreOk(View())
    }

    constructor Empty(parse: PeriodParser, hasRepository: bool, saved: Option<Snapshot>)
      ensures View() == Sections.EMPTY && this.parse == parse && this.hasRepository == hasRepository
        && this.saved == saved
      ensures Valid() && TrailsOk(View())
    {
      this.parse, this.hasRepository, this.saved := parse, hasRepository, saved;
      identities, events, runs, nextEvent, nextRun, sink := map[], map[], map[], 0, 0, [];
      new;
      EmptyOk();
      EmptyShape();
    }

    // ------------------------------------------------------------- primitives

    method AddEvent(id: string, at: int, kind: EventType, actor: string, outcome: Outcome, run: Option<nat>)
      modifies `nextEvent, `events, `sink
      ensures View() == Sections.AddEvent(old(View()), id, at, kind, actor, outcome, run)
      ensures var e := Event(old(nextEvent) + 1, id, kind, actor, outcome, at, run);
              && nextEvent == old(nextEvent) + 1 && sink == old(sink) + [e]
              && events == old(events)[id := Lookup(old(events), id) + [e]]
    {
      nextEvent := nextEvent + 1;
      var event := Event(nextEvent, id, kind, actor, outcome, at, run);
      events := events[id := Lookup(events, id) + [event]];
      sink := sink + [event];
    }

    /** Store a record with its discovery and registration events. */
    method Govern(identity: Identity, now: int, registrar: string)
      modifies `identities, `nextEvent, `events, `sink
      ensures View() == Adopt(old(View()), identity, now, registrar)
    {
      identities := identities[identity.id := identity];
      AddEvent(identity.id, now, IdentityDiscovered, ACTOR_DISCOVERY, Success, None);
      AddEvent(identity.id, now, IdentityRegistered, registrar, Success, None);
    }

    method AdoptOne(identity: Identity, now: int) returns (error: Option<LifecycleError>)
      modifies this
      ensures saved == old(saved)
      ensures var governed := Governed(identity, now);
              if ValidIdentity(parse, governed) then
                error == None && View() == Adopt(old(View()), governed, now, ACTOR_CONTROL_PLANE)
              else error == Some(Conformance) && View() == old(View())
      ensures error == None <==>
              && identity.id != "" && identity.name != "" && identity.provider != "" && identity.providerId != ""
              && identity.team != "" && identity.service != "" && identity.purpose != ""
              && (identity.health == Healthy || identity.health == Attention)
              && (identity.renewalPeriod == "" || parse(identity.renewalPeriod) != None)
      ensures error == None ==>
              var e1 := Event(old(nextEvent) + 1, identity.id, IdentityDiscovered, "discovery", Success, now, None);
              var e2 := Event(old(nextEvent) + 2, identity.id, IdentityRegistered, "control-plane", Success, now, None);
              View() == StoreState(
                old(identities)[identity.id := identity.(state := Active, createdAt := now, updatedAt := now)],
                old(events)[identity.id := Lookup(old(events), identity.id) + [e1, e2]], old(runs),
                old(nextEvent) + 2, old(nextRun), old(sink) + [e1, e2])
    {
      var governed := identity.(createdAt := now, updatedAt := now, state := Active);
      if !ValidIdentity(parse, governed) { return Some(Conformance); }
      AdoptedStore(View(), governed, now, ACTOR_CONTROL_PLANE);
      Govern(governed, now, ACTOR_CONTROL_PLANE);
      return None;
    }

    // ---------------------------------------------------------------- reading

    method Get(id: string) returns (identity: Option<Identity>)
      ensures identity == if id in identities then Some(identities[id]) else None
    {
      if id in identities { return Some(identities[id]); }
      return None;
    }

    /** The inventory: every record once, retired ones on request only, by
        expiry and then name. */
    method List(includeRetired: bool) returns (all: seq<Identity>)
      requires KeyedById(identities)
      ensures forall v :: v in all <==> Listed(identities, includeRetired, v)
      ensures DistinctBy(IdentityKey, all)
      ensures forall i, j :: 0 <= i < j < |all| ==> !ListBefore(all[j], all[i])
      ensures forall v ::
        v in all <==> v.id in identities && identities[v.id] == v && (includeRetired || v.state != Retired)
      ensures forall i, j :: 0 <= i < j < |all| ==>
        all[i].expiresAt < all[j].expiresAt ||
        (all[i].expiresAt == all[j].expiresAt && !Less(all[j].name, all[i].name))
    {
      all := [];
      var keys := identities.Keys;
      while keys != {}
        invariant keys <= identities.Keys
        invariant forall v :: v in all <==> v.id !in keys && Listed(identities, includeRetired, v)
        invariant DistinctBy(IdentityKey, all)
        invariant forall i, j :: 0 <= i < j < |all| ==> !ListBefore(all[j], all[i])
        decreases keys
      {
        var k :| k in keys;
        keys := keys - {k};
        if includeRetired || identities[k].state != Retired {
          forall i | 0 <= i < |all| ensures IdentityKey(all[i]) != k { assert all[i] in all; }
          all := InsertListed(identities[k], all);
        }
      }
    }

    // ------------------------------------------------------------ persistence

    /** The repository now holds a snapshot of `st`, unless Set failed or there is none. */
    ghost predicate Holds(before: Option<Snapshot>, st: StoreState, save: SaveAnswer)
      reads this
    {
      if !hasRepository || save.SetFailed? then saved == before else saved.Some? && IsSnapshot(st, saved.value)
    }

    function SaveError(save: SaveAnswer): Option<LifecycleError> {
      if hasRepository && !save.Saved? then Some(PersistenceFailure) else None
    }

    method PersistLocked(save: SaveAnswer) returns (error: Option<LifecycleError>)
      requires Valid()
      modifies `saved
      ensures Holds(old(saved), View(), save) && error == SaveError(save)
      ensures if hasRepository && !save.SetFailed? then saved.Some? && IsSnapshot(View(), saved.value)
              else saved == old(saved)
      ensures error == if hasRepository && !save.Saved? then Some(PersistenceFailure) else None
    {
      if !hasRepository { return None; }
      var snapshot := TakeSnapshot(View());
      if save.SetFailed? { return Some(PersistenceFailure); }
      saved := Some(snapshot);
      return if save.PublishFailed? then Some(PersistenceFailure) else None;
    }

    /** Restore the identity index; a later record with the same id wins. */
    method RestoreIdentities(all: seq<Identity>)
      modifies `identities
      ensures identities == Index(all)
    {
      identities := map[];
      for i := 0 to |all|
        invariant identities == Index(all[..i])
      {
        identities := identities[all[i].id := all[i]];
        assert all[..i + 1][..i] == all[..i];
      }
      assert all[..|all|] == all;
    }

    /** File a flat list back under its owners. */
    method Regroup<T>(owner: T -> string, all: seq<T>) returns (m: map<string, seq<T>>)
      ensures m == Group(owner, all)
    {
      m := map[];
      for i := 0 to |all|
        invariant m == Group(owner, all[..i])
      {
        m := m[owner(all[i]) := Lookup(m, owner(all[i])) + [all[i]]];
        assert all[..i + 1][..i] == all[..i];
      }
      assert all[..|all|] == all;
    }

    method RestoreLocked(snapshot: Snapshot)
      modifies this
      ensures View() == Restore(old(View()), snapshot) && saved == old(saved)
    {
      RestoreIdentities(snapshot.identities);
      events := Regroup(EventOwner, snapshot.events);
      runs := Regroup(RunOwner, snapshot.runs);
      nextEvent, nextRun := snapshot.nextEvent, snapshot.nextRun;
    }

    /** One round of the reload loop: wait for an item, load, restore. The loop
        ends when the channel is closed and drained. */
    method ReloadOnce(listener: Listener, load: LoadAnswer) returns (more: bool)
      requires Valid() && (listener.buffered || listener.closed)
      modifies this, listener`buffered
      ensures more == old(listener.buffered) && !listener.buffered && saved == old(saved)
      ensures View() == if more && load.Loaded? then Restore(old(View()), load.snapshot) else old(View())
      ensures load.Loaded? ==> forall st :: StoreOk(st) && IsSnapshot(st, load.snapshot) ==> Valid()
      ensures !more || !load.Loaded? ==> Valid() && View() == old(View())
    {
      more := listener.Receive();
      if more && load.Loaded? {
        RestoredValid(View(), load.snapshot);
        RestoreLocked(load.snapshot);
      }
    }

    /** Adopt what was discovered, up to the first identity that does not conform. */
    method AdoptDiscovered(found: seq<Identity>, now: int) returns (error: Option<LifecycleError>)
      modifies this
      ensures saved == old(saved)
      ensures match AdoptAll(parse, old(View()), found, now)
              case Err(e) => error == Some(e)
              case Ok(st) => error == None && View() == st
    {
      for i := 0 to |found|
        invariant AdoptAll(parse, old(View()), found[..i], now) == Ok(View()) && saved == old(saved)
      {
        error := AdoptOne(FixIdentity(found[i]), now);
        assert found[..i + 1][..i] == found[..i];
        if error.Some? {
          AdoptStops(parse, old(View()), found, now, i + 1);
          return;
        }
      }
      assert found[..|found|] == found;
      return None;
    }

    /** Start a store: restore the repository's snapshot if there is one, otherwise
        adopt what the adapter discovers and save it; then start listening. */
    static method NewStore(parse: PeriodParser, hasRepository: bool, load: LoadAnswer,
                           discovered: Option<seq<Identity>>, now: int, save: SaveAnswer, listening: bool)
      returns (r: Result<Store, LifecycleError>)
      ensures r.Ok? ==> fresh(r.value) && r.value.parse == parse && r.value.hasRepository == hasRepository
      ensures hasRepository && load.Loaded? ==>
                if !listening then r == Err(RepositoryClosed)
                else && r.Ok? && r.value.View() == Restore(Sections.EMPTY, load.snapshot)
                     && r.value.saved == Some(load.snapshot)
                     && forall st :: StoreOk(st) && IsSnapshot(st, load.snapshot) ==>
                          r.value.Valid() && IsSnapshot(r.value.View(), load.snapshot)
      ensures hasRepository && load.LoadFailed? ==> r == Err(PersistenceFailure)
      ensures !hasRepository || load.NoSnapshot? ==>
                match discovered
                case None => r == Err(ProviderFailure)
                case Some(found) =>
                  match AdoptAll(parse, Sections.EMPTY, found, now)
                  case Err(e) => r == Err(e)
                  case Ok(st) =>
                    if hasRepository && !save.Saved? then r == Err(PersistenceFailure)
                    else if hasRepository && !listening then r == Err(RepositoryClosed)
                    else r.Ok? && r.value.Valid() && TrailsOk(st) && r.value.View() == st
                         && (hasRepository ==> r.value.Holds(None, st, save))
    {
      var store := new Store.Empty(parse, hasRepository, if load.Loaded? then Some(load.snapshot) else None);
      if hasRepository && load.Loaded? {
        RestoredValid(store.View(), load.snapshot);
        store.RestoreLocked(load.snapshot);
        return if listening then Ok(store) else Err(RepositoryClosed);
      }
      if hasRepository && load.LoadFailed? { return Err(PersistenceFailure); }
      if discovered.None? { return Err(ProviderFailure); }
      var refused := store.AdoptDiscovered(discovered.value, now);
      if refused.Some? { return Err(refused.value); }
      EmptyOk();
      EmptyShape();
      AdoptAllOk(parse, Sections.EMPTY, discovered.value, now);
      if hasRepository {
        var error := store.PersistLocked(save);
        if error.Some? { return Err(error.value); }
        if !listening { return Err(RepositoryClosed); }
      }
      return Ok(store);
    }

    // ------------------------------------------------------------- operations

    function Answer(save: SaveAnswer): SaveAnswer { if hasRepository then save else Saved }

    /** The operation ran: the store is what it leaves, the repository holds what it
        saved, and the invariants are kept. */
    ghost predicate Done(before: StoreState, held: Option<Snapshot>, op: Op, save: SaveAnswer)
      requires KeyedById(before.identities)
      reads this
    {
      && Valid() && (TrailsOk(before) ==> TrailsOk(View()))
      && View() == StoreAfterOp(parse, before, op, Answer(save))
      && match PersistPoint(parse, before, op)
         case None => saved == held
         case Some(point) => Holds(held, point, save)
    }

    lemma Concludes(before: StoreState, held: Option<Snapshot>, op: Op, save: SaveAnswer, point: Option<StoreState>)
      requires StoreOk(before) && Saves(parse, before, op, Answer(save), View(), point)
      requires match point case None => saved == held case Some(p) => Holds(held, p, save)
      ensures Done(before, held, op, save)
    {
      StoreAfterOpOk(parse, before, op, Answer(save));
    }

    /** The object and the value `Restart` follows through a run: same store, and
        the repository's content is the snapshot of the saved state. */
    ghost predicate Mirrors(d: Durable)
      reads this
    {
      && View() == d.st && hasRepository
      && (d.saved.None? <==> saved.None?) && (saved.Some? ==> IsSnapshot(d.saved.value, saved.value))
    }

    /** So what `Restart` proves of runs holds of this object. */
    lemma DoneMirrors(d: Durable, held: Option<Snapshot>, op: Op, save: SaveAnswer)
      requires KeyedById(d.st.identities) && hasRepository && Done(d.st, held, op, save)
      requires (d.saved.None? <==> held.None?) && (held.Some? ==> IsSnapshot(d.saved.value, held.value))
      ensures Mirrors(Persist(parse, d, op, save))
    {
    }

    /** Save unless the operation has returned before. */
    method SaveIf(reached: bool, save: SaveAnswer) returns (error: Option<LifecycleError>)
      requires reached ==> Valid()
      modifies `saved
      ensures if reached then Holds(old(saved), View(), save) && error == SaveError(save)
        else saved == old(saved) && error == None
    {
      if !reached { return None; }
      error := PersistLocked(save);
    }

    /** Register up to its save. */
    method RegisterLocked(req: RegisterRequest, now: int) returns (r: Result<Identity, LifecycleError>)
      modifies `identities, `nextEvent, `events, `sink
      ensures (View(), r) == Sections.Register(parse, old(View()), req, now)
      ensures var conforms := req.name != "" && req.provider != "" && req.providerId != "" && req.team != ""
                              && req.renewalPeriod != "" && parse(req.renewalPeriod) != None;
              var id := if req.id == "" then req.name else req.id;
              && (r == Err(Conformance) <==> !conforms)
              && (r == Err(AlreadyRegistered) <==> conforms && id in old(identities))
              && (r.Ok? <==> conforms && id !in old(identities))
              && (r.Err? ==> View() == old(View()))
              && (r.Ok? ==>
                   var e := Event(old(nextEvent) + 1, id, IdentityRegistered,
                                  if req.requestedBy == "" then "control-plane" else req.requestedBy,
                                  Success, now, None);
                   && r.value == Identity(id, req.name, req.provider, req.providerId, req.team, req.service,
                                          req.purpose, req.renewalPeriod, req.keyId, Active, Healthy,
                                          now + parse(req.renewalPeriod).value, 0, now, now, map[])
                   && View() == StoreState(old(identities)[id := r.value],
                                           old(events)[id := Lookup(old(events), id) + [e]], old(runs),
                                           old(nextEvent) + 1, old(nextRun), old(sink) + [e]))
    {
      if !RegisterConforms(parse, req) { return Err(Conformance); }
      var policyDuration := parse(req.renewalPeriod).value;
      var id := if req.id == "" then req.name else req.id;
      if id in identities { return Err(AlreadyRegistered); }
      var identity := Identity(id, req.name, req.provider, req.providerId, req.team, req.service, req.purpose,
                               req.renewalPeriod, req.keyId, Active, Healthy, now + policyDuration, 0, now, now, map[]);
      identities := identities[identity.id := identity];
      AddEvent(identity.id, now, IdentityRegistered, OrDefault(req.requestedBy, ACTOR_CONTROL_PLANE), Success, None);
      return Ok(identity);
    }

    method Register(req: RegisterRequest, now: int, save: SaveAnswer)
      returns (r: Result<(Identity, seq<Event>), LifecycleError>)
      requires Valid()
      modifies this
      ensures Done(old(View()), old(saved), Registers(req, now), save)
      ensures var conforms := req.name != "" && req.provider != "" && req.providerId != "" && req.team != ""
                              && req.renewalPeriod != "" && parse(req.renewalPeriod) != None;
              var id := if req.id == "" then req.name else req.id;
              var reached, unsaved := conforms && id !in old(identities), hasRepository && !save.Saved?;
              && (r == Err(Conformance) <==> !conforms)
              && (r == Err(AlreadyRegistered) <==> conforms && id in old(identities))
              && (r == Err(PersistenceFailure) <==> reached && unsaved)
              && (r.Ok? <==> reached && !unsaved)
              && (r.Ok? ==> id in identities && r.value == (identities[id], Lookup(events, id)))
              && (!reached ==> View() == old(View()))
              && (if reached && hasRepository && !save.SetFailed? then saved.Some? && IsSnapshot(View(), saved.value)
                  else saved == old(saved))
    {
      ghost var before, op := View(), Registers(req, now);
      RegisterSaves(parse, before, req, now, Answer(save));
      StoreAfterOpOk(parse, before, op, Answer(save));
      var registered := RegisterLocked(req, now);
      var error := SaveIf(registered.Ok?, save);
      Concludes(before, old(saved), op, save, if registered.Ok? then Some(View()) else None);
      if registered.Err? { return Err(registered.error); }
      if error.Some? { return Err(error.value); }
      return Ok((registered.value, Lookup(events, registered.value.id)));
    }

    method VaultEvent(id: string, kind: EventType, now: int, answer: VaultAnswer)
      modifies `nextEvent, `events, `sink
      ensures View() == Sections.VaultEvent(old(View()), id, kind, now, answer)
      ensures sink == old(sink) + match answer
                                  case NoVault => []
                                  case VaultFailed =>
                                    [Event(old(nextEvent) + 1, id, kind, "provider-adapter", NeedsAttention, now, None)]
                                  case VaultDone(_) =>
                                    [Event(old(nextEvent) + 1, id, kind, "provider-adapter", Success, now, None)]
    {
      match answer
      case NoVault =>
      case VaultFailed => AddEvent(id, now, kind, ACTOR_PROVIDER_ADAPTER, NeedsAttention, None);
      case VaultDone(_) => AddEvent(id, now, kind, ACTOR_PROVIDER_ADAPTER, Success, None);
    }

    method WriteBack(identity: Identity, native: VaultAnswer, common: VaultAnswer, now: int) returns (stored: Identity)
      modifies `identities
      ensures View() == Sections.WriteBack(old(View()), identity, native, common, now)
      ensures stored == Sections.Delivered(identity, native, common, now)
    {
      stored := identity;
      if native.VaultDone? { stored := stored.(metadata := WithReference(stored.metadata, "", native.ref)); }
      if common.VaultDone? { stored := stored.(metadata := WithReference(stored.metadata, "common_", common.ref)); }
      if native.VaultDone? || common.VaultDone? {
        stored := stored.(updatedAt := now);
        identities := identities[stored.id := stored];
      }
    }

    /** Store the issued credential in both vaults and write the references back. */
    method Deliver(identity: Identity, now: int, native: VaultAnswer, common: VaultAnswer) returns (stored: Identity)
      modifies `nextEvent, `events, `sink, `identities
      ensures View() == DeliverAll(old(View()), identity, now, native, common)
      ensures stored == Sections.Delivered(identity, native, common, now)
      ensures stored == if !native.VaultDone? && !common.VaultDone? then identity
                        else identity.(metadata := WithVaults(identity.metadata, native, common), updatedAt := now)
      ensures identities == if !native.VaultDone? && !common.VaultDone? then old(identities)
                            else old(identities)[identity.id := stored]
      ensures sink == old(sink) + BothVaults(old(nextEvent), identity.id, CredentialDelivered, now, native, common)
    {
      DeliveriesOffered(View(), identity, now, native, common);
      VaultEvent(identity.id, CredentialDelivered, now, native);
      VaultEvent(identity.id, CredentialDelivered, now, common);
      stored := WriteBack(identity, native, common, now);
    }

    /** Provision up to its save: create, adopt, deliver. */
    method ProvisionUnsaved(req: ProvisionRequest, now: int, created: CreateAnswer, native: VaultAnswer,
        common: VaultAnswer)
      returns (r: Result<ProvisionResponse, LifecycleError>)
      modifies `identities, `nextEvent, `events, `sink
      ensures View() == ProvisionOp(parse, old(View()), req, now, created, native, common)
      ensures r.Ok? <==> ProvisionError(parse, req, now, created) == None
      ensures r.Err? ==> View() == old(View())
      ensures var v := if created.Created? then Some(created.identity) else None;
              var named := !Blank(req.provider) && v.Some? && v.value.name != "";
              var conforms := named && v.value.provider != "" && v.value.providerId != "" && v.value.team != ""
                              && v.value.service != "" && v.value.purpose != ""
                              && (v.value.renewalPeriod == "" || parse(v.value.renewalPeriod) != None);
              && (r == Err(Conformance) <==> Blank(req.provider) || (named && !conforms))
              && (r == Err(Forbidden) <==> !Blank(req.provider) && created.CreateError? && created.forbidden)
              && (r == Err(ProviderFailure) <==>
                   !Blank(req.provider) && if created.CreateError? then !created.forbidden else !named)
              && (r.Ok? <==> conforms)
              && (r.Ok? ==>
                   var id := if v.value.id == "" then v.value.name else v.value.id;
                   && id in identities && r.value.identity == identities[id]
                   && r.value.vault == (if !created.secret then None
                                        else if native.VaultDone? then Some(native.ref)
                                        else if common.VaultDone? then Some(common.ref) else None))
    {
      if Blank(req.provider) { return Err(Conformance); }
      if created.CreateError? { return Err(if created.forbidden then Forbidden else ProviderFailure); }
      if created.identity.name == "" { return Err(ProviderFailure); }
      var identity := FixIdentity(created.identity).(state := Active, health := Healthy, createdAt := now,
        updatedAt := now);
      assert identity == Provisioned(created.identity, now);
      if !ValidIdentity(parse, identity) { return Err(Conformance); }
      Govern(identity, now, OrDefault(req.requestedBy, ACTOR_CONTROL_PLANE));
      var vault := None;
      if created.secret {
        identity := Deliver(identity, now, native, common);
        if native.VaultDone? { vault := Some(native.ref); }
        if common.VaultDone? && !native.VaultDone? { vault := Some(common.ref); }
      }
      return Ok(ProvisionResponse(identity, vault));
    }

    /** Provision with its save, before the invariants are looked at again. */
    method ProvisionAndSave(req: ProvisionRequest, now: int, created: CreateAnswer, native: VaultAnswer,
        common: VaultAnswer, save: SaveAnswer)
      returns (r: Result<ProvisionResponse, LifecycleError>)
      requires Valid()
      modifies this
      ensures View() == ProvisionOp(parse, old(View()), req, now, created, native, common)
      ensures var unsaved := hasRepository && !save.Saved?;
              var v := if created.Created? then Some(created.identity) else None;
              var named := !Blank(req.provider) && v.Some? && v.value.name != "";
              var conforms := named && v.value.provider != "" && v.value.providerId != "" && v.value.team != ""
                              && v.value.service != "" && v.value.purpose != ""
                              && (v.value.renewalPeriod == "" || parse(v.value.renewalPeriod) != None);
              && (r == Err(Conformance) <==> Blank(req.provider) || (named && !conforms))
              && (r == Err(Forbidden) <==> !Blank(req.provider) && created.CreateError? && created.forbidden)
              && (r == Err(ProviderFailure) <==>
                   !Blank(req.provider) && if created.CreateError? then !created.forbidden else !named)
              && (r == Err(PersistenceFailure) <==> conforms && unsaved)
              && (r.Ok? <==> conforms && !unsaved)
              && (r.Ok? ==>
                   var id := if v.value.id == "" then v.value.name else v.value.id;
                   id in identities && r.value.identity == identities[id])
              && (!conforms ==> View() == old(View()))
              && (if conforms && hasRepository && !save.SetFailed? then saved.Some? && IsSnapshot(View(), saved.value)
                  else saved == old(saved))
      ensures r.Ok? && created.secret && native.VaultDone? ==> r.value.vault == Some(native.ref)
      ensures r.Ok? && created.secret && !native.VaultDone? && common.VaultDone? ==> r.value.vault == Some(common.ref)
      ensures r.Ok? && (!created.secret || (!native.VaultDone? && !common.VaultDone?)) ==> r.value.vault == None
    {
      ProvisionOpOk(parse, View(), req, now, created, native, common);
      r := ProvisionUnsaved(req, now, created, native, common);
      var error := SaveIf(r.Ok?, save);
      if error.Some? { return Err(error.value); }
    }

    method Provision(req: ProvisionRequest, now: int, created: CreateAnswer, native: VaultAnswer, common: VaultAnswer,
                     save: SaveAnswer)
      returns (r: Result<ProvisionResponse, LifecycleError>)
      requires Valid()
      modifies this
      ensures Done(old(View()), old(saved), Provisions(req, now, created, native, common), save)
      ensures var unsaved := hasRepository && !save.Saved?;
              var v := if created.Created? then Some(created.identity) else None;
              var named := !Blank(req.provider) && v.Some? && v.value.name != "";
              var conforms := named && v.value.provider != "" && v.value.providerId != "" && v.value.team != ""
                              && v.value.service != "" && v.value.purpose != ""
                              && (v.value.renewalPeriod == "" || parse(v.value.renewalPeriod) != None);
              && (r == Err(Conformance) <==> Blank(req.provider) || (named && !conforms))
              && (r == Err(Forbidden) <==> !Blank(req.provider) && created.CreateError? && created.forbidden)
              && (r == Err(ProviderFailure) <==>
                   !Blank(req.provider) && if created.CreateError? then !created.forbidden else !named)
              && (r == Err(PersistenceFailure) <==> conforms && unsaved)
              && (r.Ok? <==> conforms && !unsaved)
              && (r.Ok? ==>
                   var id := if v.value.id == "" then v.value.name else v.value.id;
                   id in identities && r.value.identity == identities[id])
              && (!conforms ==> View() == old(View()))
              && (if conforms && hasRepository && !save.SetFailed? then saved.Some? && IsSnapshot(View(), saved.value)
                  else saved == old(saved))
      ensures r.Ok? && created.secret && native.VaultDone? ==> r.value.vault == Some(native.ref)
      ensures r.Ok? && created.secret && !native.VaultDone? && common.VaultDone? ==> r.value.vault == Some(common.ref)
      ensures r.Ok? && (!created.secret || (!native.VaultDone? && !common.VaultDone?)) ==> r.value.vault == None
    {
      ghost var before, op := View(), Provisions(req, now, created, native, common);
      ProvisionSaves(parse, before, req, now, created, native, common, Answer(save));
      r := ProvisionAndSave(req, now, created, native, common, save);
      Concludes(before, old(saved), op, save,
        if ProvisionError(parse, req, now, created).None? then Some(View()) else None);
    }

    /** Rotate under its first lock; the adapter is called inside. */
    method RotateLocked(req: RotateRequest, now: int, answer: AdapterAnswer) returns (r: LockedRotation)
      requires KeyedById(identities)
      modifies `identities, `runs, `nextRun, `nextEvent, `events, `sink
      ensures (View(), r) == Sections.RotateLocked(parse, old(View()), req, now, answer)
      ensures r.Completed? || r.AdapterFailed? <==>
              !Blank(req.id) && req.id in old(identities) && old(identities)[req.id].state == Active && !req.dryRun
      ensures r.Rejected? || r.Planned? ==> View() == old(View())
      ensures r.Completed? <==> answer.View? && (r.Completed? || r.AdapterFailed?)
      ensures r.AdapterFailed? ==> r.error == if answer.forbidden then Forbidden else ProviderFailure
      ensures r.Completed? ==>
              && req.id in identities && r.identity == identities[req.id] && r.identity.id == req.id
              && Lookup(runs, req.id) == Lookup(old(runs), req.id) + [r.run]
      ensures var known := !Blank(req.id) && req.id in old(identities);
              && (r == Rejected(Conformance) <==> Blank(req.id))
              && (r == Rejected(NotFound) <==> !Blank(req.id) && req.id !in old(identities))
              && (r == Rejected(AlreadyRetired) <==> known && old(identities)[req.id].state == Retired)
              && (r == Rejected(RotationInProgress) <==> known && old(identities)[req.id].state == Renewing)
              && (r.Planned? <==> known && old(identities)[req.id].state == Active && req.dryRun)
              && (r.Planned? ==> r.identity == old(identities)[req.id])
    {
      if Blank(req.id) { return Rejected(Conformance); }
      if req.id !in identities { return Rejected(NotFound); }
      var identity := identities[req.id];
      if identity.state == Retired { return Rejected(AlreadyRetired); }
      if identity.state == Renewing { return Rejected(RotationInProgress); }
      if !CanTransition(identity.state, Renewing) { return Rejected(InvalidTransition(identity.state)); }
      if req.dryRun { return Planned(identity); }
      RotateLockedRecord(parse, View(), req, now, answer);
      RunFiled(parse, View(), req, now, answer);
      r := RotateActive(identity, req, now, answer);
    }

    /** The run from its allocation to its terminal event. */
    method RotateActive(active: Identity, req: RotateRequest, now: int, answer: AdapterAnswer)
        returns (r: LockedRotation)
      requires KeyedById(identities) && RotationRefusal(View(), req) == None && !req.dryRun
      requires active == identities[req.id]
      modifies `identities, `runs, `nextRun, `nextEvent, `events, `sink
      ensures (View(), r) == Sections.RotateLocked(parse, old(View()), req, now, answer)
      ensures r.Completed? || r.AdapterFailed?
    {
      var identity := active;
      var operator := OrDefault(req.requestedBy, ACTOR_OPERATOR);
      var run := StartRun(identity, operator, now);
      if answer.AdapterError? {
        identity := identity.(state := Active, health := Attention);
        run := run.(status := FailedRun, outcome := Some(Failure), finishedAt := now, error := answer.message);
        FinishRun(identity, run, RotationFailed, Failure, now);
        return AdapterFailed(ProviderOperationError(answer));
      }
      var period := parse(identity.renewalPeriod);
      var duration := if period.Some? then period.value else 0;
      identity := answer.identity;
      identity := identity.(id := req.id, state := Active, health := Healthy, expiresAt := now + duration);
      identity := identity.(lastRotatedAt := now, updatedAt := now);
      run := run.(status := Succeeded, outcome := Some(Success), finishedAt := now, evidence := identity.keyId);
      FinishRun(identity, run, RotationCompleted, Success, now);
      return Completed(identity, run);
    }

    /** Rotate after its lock: the deliveries of what was renewed. */
    method DeliverRotation(locked: LockedRotation, now: int, secret: bool, native: VaultAnswer, common: VaultAnswer)
      returns (r: LockedRotation)
      requires locked.Completed? ==>
               locked.identity.id in identities && identities[locked.identity.id] == locked.identity
      modifies `identities, `nextEvent, `events, `sink
      ensures View() == if !locked.Completed? || !secret then old(View())
                        else DeliverAll(old(View()), locked.identity, now, native, common)
      ensures !locked.Completed? ==> r == locked
      ensures locked.Completed? ==>
              r.Completed? && r.run == locked.run && r.identity.id == locked.identity.id
              && r.identity.id in identities && identities[r.identity.id] == r.identity
    {
      r := locked;
      if locked.Completed? && secret {
        var identity := Deliver(locked.identity, now, native, common);
        r := Completed(identity, locked.run);
      }
    }

    /** Rotate up to its save: the locked section, then the deliveries. */
    method RotateUnsaved(req: RotateRequest, now: int, answer: AdapterAnswer, secret: bool, native: VaultAnswer,
        common: VaultAnswer)
      returns (r: LockedRotation)
      requires KeyedById(identities)
      modifies `identities, `runs, `nextRun, `nextEvent, `events, `sink
      ensures View() == RotateOp(parse, old(View()), req, now, answer, secret, native, common)
      ensures var known := !Blank(req.id) && req.id in old(identities);
              var started := known && old(identities)[req.id].state == Active && !req.dryRun;
              && (r == Rejected(Conformance) <==> Blank(req.id))
              && (r == Rejected(NotFound) <==> !Blank(req.id) && req.id !in old(identities))
              && (r == Rejected(AlreadyRetired) <==> known && old(identities)[req.id].state == Retired)
              && (r == Rejected(RotationInProgress) <==> known && old(identities)[req.id].state == Renewing)
              && (r.Planned? <==> known && old(identities)[req.id].state == Active && req.dryRun)
              && (r.Planned? ==> r.identity == old(identities)[req.id])
              && (r.AdapterFailed? <==> started && answer.AdapterError?)
              && (r.AdapterFailed? ==> r.error == if answer.forbidden then Forbidden else ProviderFailure)
              && (r.Completed? <==> started && answer.View?)
              && (r.Completed? ==>
                   && req.id in identities && r.identity == identities[req.id] && r.identity.id == req.id
                   && Lookup(runs, req.id) == Lookup(old(runs), req.id) + [r.run])
              && (!started ==> View() == old(View()))
    {
      var locked := RotateLocked(req, now, answer);
      r := DeliverRotation(locked, now, secret, native, common);
    }

    /** Answer a rotation; one that was started is saved first, and a rotation that
        could not be saved is not answered as one. */
    method SaveRotation(outcome: LockedRotation, save: SaveAnswer) returns (r: Result<RotateResponse, LifecycleError>)
      requires Valid()
      modifies `saved
      ensures if (outcome.AdapterFailed? || outcome.Completed?) && hasRepository && !save.SetFailed?
              then saved.Some? && IsSnapshot(View(), saved.value) else saved == old(saved)
      ensures outcome.Rejected? ==> r == Err(outcome.error)
      ensures outcome.Planned? ==> r == Ok(PlannedRotation(outcome.identity))
      ensures outcome.AdapterFailed? || outcome.Completed? ==>
                if hasRepository && !save.Saved? then r == Err(PersistenceFailure)
                else if outcome.AdapterFailed? then r == Err(outcome.error)
                else r == Ok(Renewed(outcome.identity, outcome.run, Lookup(events, outcome.identity.id)))
    {
      if outcome.Rejected? { return Err(outcome.error); }
      if outcome.Planned? { return Ok(PlannedRotation(outcome.identity)); }
      var error := PersistLocked(save);
      if error.Some? { return Err(error.value); }
      if outcome.AdapterFailed? { return Err(outcome.error); }
      return Ok(Renewed(outcome.identity, outcome.run, Lookup(events, outcome.identity.id)));
    }

    /** Rotate with its save, before the invariants are looked at again. */
    method RotateAndSave(req: RotateRequest, now: int, answer: AdapterAnswer, secret: bool, native: VaultAnswer,
        common: VaultAnswer, save: SaveAnswer)
      returns (r: Result<RotateResponse, LifecycleError>)
      requires Valid()
      modifies this
      ensures View() == RotateOp(parse, old(View()), req, now, answer, secret, native, common)
      ensures var known, unsaved := !Blank(req.id) && req.id in old(identities), hasRepository && !save.Saved?;
              var active := known && old(identities)[req.id].state == Active;
              var started := active && !req.dryRun;
              && (r == Err(Conformance) <==> Blank(req.id))
              && (r == Err(NotFound) <==> !Blank(req.id) && req.id !in old(identities))
              && (r == Err(AlreadyRetired) <==> known && old(identities)[req.id].state == Retired)
              && (r == Err(RotationInProgress) <==> known && old(identities)[req.id].state == Renewing)
              && (r == Err(PersistenceFailure) <==> started && unsaved)
              && (r == Err(Forbidden) <==> started && !unsaved && answer.AdapterError? && answer.forbidden)
              && (r == Err(ProviderFailure) <==> started && !unsaved && answer.AdapterError? && !answer.forbidden)
              && (r.Ok? <==> active && (req.dryRun || (answer.View? && !unsaved)))
              && (r.Ok? && req.dryRun ==> r.value == PlannedRotation(old(identities)[req.id]))
              && (r.Ok? && !req.dryRun ==>
                   && r.value.Renewed? && req.id in identities && r.value.identity == identities[req.id]
                   && Lookup(runs, req.id) == Lookup(old(runs), req.id) + [r.value.run]
                   && r.value.events == Lookup(events, req.id))
              && (!started ==> View() == old(View()))
              && (if started && hasRepository && !save.SetFailed? then saved.Some? && IsSnapshot(View(), saved.value)
                  else saved == old(saved))
    {
      assert req.id in identities ==> identities[req.id].state == Active || identities[req.id].state == Retired;
      RotateOpOk(parse, View(), req, now, answer, secret, native, common);
      var outcome := RotateUnsaved(req, now, answer, secret, native, common);
      r := SaveRotation(outcome, save);
    }

    method Rotate(req: RotateRequest, now: int, answer: AdapterAnswer, secret: bool, native: VaultAnswer,
        common: VaultAnswer, save: SaveAnswer)
      returns (r: Result<RotateResponse, LifecycleError>)
      requires Valid()
      modifies this
      ensures Done(old(View()), old(saved), Rotates(req, now, answer, secret, native, common), save)
      ensures var known, unsaved := !Blank(req.id) && req.id in old(identities), hasRepository && !save.Saved?;
              var active := known && old(identities)[req.id].state == Active;
              var started := active && !req.dryRun;
              && (r == Err(Conformance) <==> Blank(req.id))
              && (r == Err(NotFound) <==> !Blank(req.id) && req.id !in old(identities))
              && (r == Err(AlreadyRetired) <==> known && old(identities)[req.id].state == Retired)
              && (r == Err(RotationInProgress) <==> known && old(identities)[req.id].state == Renewing)
              && (r == Err(PersistenceFailure) <==> started && unsaved)
              && (r == Err(Forbidden) <==> started && !unsaved && answer.AdapterError? && answer.forbidden)
              && (r == Err(ProviderFailure) <==> started && !unsaved && answer.AdapterError? && !answer.forbidden)
              && (r.Ok? <==> active && (req.dryRun || (answer.View? && !unsaved)))
              && (r.Ok? && req.dryRun ==> r.value == PlannedRotation(old(identities)[req.id]))
              && (r.Ok? && !req.dryRun ==>
                   && r.value.Renewed? && req.id in identities && r.value.identity == identities[req.id]
                   && Lookup(runs, req.id) == Lookup(old(runs), req.id) + [r.value.run]
                   && r.value.events == Lookup(events, req.id))
              && (!started ==> View() == old(View()))
              && (if started && hasRepository && !save.SetFailed? then saved.Some? && IsSnapshot(View(), saved.value)
                  else saved == old(saved))
    {
      ghost var before, op := View(), Rotates(req, now, answer, secret, native, common);
      RotateSaves(parse, before, req, now, answer, secret, native, common, Answer(save));
      RotateReached(parse, before, req, now, answer);
      ghost var outcome := Sections.RotateLocked(parse, before, req, now, answer).1;
      r := RotateAndSave(req, now, answer, secret, native, common, save);
      Concludes(before, old(saved), op, save,
        if outcome.AdapterFailed? || outcome.Completed? then Some(View()) else None);
    }

    /** Allocate the run, mark the record renewing and announce the rotation. */
    method StartRun(identity: Identity, operator: string, now: int) returns (run: Run)
      modifies `nextRun, `runs, `identities, `nextEvent, `events, `sink
      ensures View() == StartRotation(old(View()), identity, operator, now)
      ensures run == NewRun(old(View()), identity.id, operator, now)
    {
      var id := identity.id;
      nextRun := nextRun + 1;
      var workflowActor := if operator == SWEEPER then operator else ACTOR_CONTROL_PLANE;
      run := Run(nextRun, id, Running, operator, now, 0, None, "", "");
      runs := runs[id := Lookup(runs, id) + [run]];
      identities := identities[id := identity.(state := Renewing)];
      assert run == NewRun(old(View()), id, operator, now) && Lookup(old(runs), id) == RunsOf(old(View()), id);
      AddEvent(id, now, RotationRequested, operator, InProgress, Some(run.num));
      AddEvent(id, now, RotationStarted, workflowActor, InProgress, Some(run.num));
    }

    /** Overwrite the record and the run just opened, and log the terminal event. */
    method FinishRun(record: Identity, run: Run, kind: EventType, outcome: Outcome, now: int)
      requires Lookup(runs, record.id) != []
      modifies `runs, `identities, `nextEvent, `events, `sink
      ensures View() == FinishRotation(old(View()), record, run, kind, outcome, now)
    {
      var id := record.id;
      var runIndex := |runs[id]| - 1;
      identities := identities[id := record];
      runs := runs[id := runs[id][runIndex := run]];
      assert View() == SetRun(Put(old(View()), id, record), id, run);
      var actor := if run.requestedBy == SWEEPER then run.requestedBy else ACTOR_PROVIDER_ADAPTER;
      AddEvent(id, now, kind, actor, outcome, Some(run.num));
    }

    /** Disable both vault copies. */
    method RevokeCopies(id: string, now: int, native: VaultAnswer, common: VaultAnswer)
      modifies `nextEvent, `events, `sink
      ensures View() == RevokeAll(old(View()), id, now, native, common)
    {
      VaultEvent(id, CredentialRevoked, now, native);
      VaultEvent(id, CredentialRevoked, now, common);
    }

    /** Retire under its first lock, up to its save. */
    method RetireLocked(req: RetireRequest, now: int, answer: AdapterAnswer) returns (r: LockedRetirement)
      modifies `identities, `nextEvent, `events, `sink
      ensures (View(), r) == Sections.RetireLocked(old(View()), req, now, answer)
      ensures r.RetireDone? <==>
              !Blank(req.id) && req.confirm && !req.dryRun && req.id in old(identities) && answer.View?
              && (old(identities)[req.id].state == Active || old(identities)[req.id].state == Renewing)
      ensures !r.RetireDone? ==> View() == old(View())
      ensures var confirmed := req.dryRun || req.confirm;
              var known := !Blank(req.id) && confirmed && req.id in old(identities);
              var retirable := known && old(identities)[req.id].state in {Active, Renewing};
              && (r == RetireRejected(Conformance) <==> Blank(req.id))
              && (r == RetireRejected(ConfirmationNeeded) <==> !Blank(req.id) && !confirmed)
              && (r == RetireRejected(NotFound) <==> !Blank(req.id) && confirmed && req.id !in old(identities))
              && (r == RetireRejected(AlreadyRetired) <==> known && old(identities)[req.id].state == Retired)
              && (r == RetireRejected(Forbidden) <==>
                   retirable && !req.dryRun && answer.AdapterError? && answer.forbidden)
              && (r == RetireRejected(ProviderFailure) <==>
                   retirable && !req.dryRun && answer.AdapterError? && !answer.forbidden)
              && (r.RetirePlanned? <==> retirable && req.dryRun)
              && (r.RetirePlanned? ==> r.identity == old(identities)[req.id])
      ensures r.RetireDone? ==>
              var e := Event(old(nextEvent) + 1, req.id, IdentityRetired,
                             if req.requestedBy == "" then "operator" else req.requestedBy, Success, now, None);
              && r.identity == answer.identity.(id := req.id, state := Retired, health := Attention, updatedAt := now)
              && View() == StoreState(old(identities)[req.id := r.identity],
                                      old(events)[req.id := Lookup(old(events), req.id) + [e]], old(runs),
                                      old(nextEvent) + 1, old(nextRun), old(sink) + [e])
    {
      if Blank(req.id) { return RetireRejected(Conformance); }
      if !req.dryRun && !req.confirm { return RetireRejected(ConfirmationNeeded); }
      if req.id !in identities { return RetireRejected(NotFound); }
      var identity := identities[req.id];
      if identity.state == Retired { return RetireRejected(AlreadyRetired); }
      if !CanTransition(identity.state, Retired) { return RetireRejected(InvalidTransition(identity.state)); }
      if req.dryRun { return RetirePlanned(identity); }
      if answer.AdapterError? { return RetireRejected(ProviderOperationError(answer)); }
      identity := answer.identity.(id := req.id, state := Retired, health := Attention, updatedAt := now);
      identities := identities[identity.id := identity];
      AddEvent(identity.id, now, IdentityRetired, OrDefault(req.requestedBy, ACTOR_OPERATOR), Success, None);
      return RetireDone(identity);
    }

    /** Save, and only then revoke; a failed save skips the revocations. */
    method SaveRetirement(outcome: LockedRetirement, now: int, native: VaultAnswer, common: VaultAnswer,
        save: SaveAnswer)
      returns (r: Result<RetireResponse, LifecycleError>)
      requires Valid()
      modifies `saved, `nextEvent, `events, `sink
      ensures if outcome.RetireDone? && hasRepository && !save.SetFailed?
              then saved.Some? && IsSnapshot(old(View()), saved.value) else saved == old(saved)
      ensures View() == if outcome.RetireDone? && !(hasRepository && !save.Saved?)
                        then RevokeAll(old(View()), outcome.identity.id, now, native, common) else old(View())
      ensures outcome.RetireRejected? ==> r == Err(outcome.error)
      ensures outcome.RetirePlanned? ==> r == Ok(PlannedRetirement(outcome.identity))
      ensures outcome.RetireDone? ==>
                if hasRepository && !save.Saved? then r == Err(PersistenceFailure)
                else r == Ok(Decommissioned(outcome.identity, Lookup(events, outcome.identity.id)))
    {
      if outcome.RetireRejected? { return Err(outcome.error); }
      if outcome.RetirePlanned? { return Ok(PlannedRetirement(outcome.identity)); }
      var error := PersistLocked(save);
      if error.Some? { return Err(error.value); }
      RevokeCopies(outcome.identity.id, now, native, common);
      return Ok(Decommissioned(outcome.identity, Lookup(events, outcome.identity.id)));
    }

    /** Retire with its save, before the invariants are looked at again. */
    method RetireAndSave(req: RetireRequest, now: int, answer: AdapterAnswer, native: VaultAnswer, common: VaultAnswer,
        save: SaveAnswer)
      returns (r: Result<RetireResponse, LifecycleError>)
      requires Valid()
      modifies this
      ensures var (locked, outcome) := Sections.RetireLocked(old(View()), req, now, answer);
              && (if outcome.RetireDone? then Holds(old(saved), locked, save) else saved == old(saved))
              && View() == if Answer(save).Saved? then RetireOp(old(View()), req, now, answer, native, common)
                           else locked
      ensures var confirmed := req.dryRun || req.confirm;
              var known := !Blank(req.id) && confirmed && req.id in old(identities);
              var active := known && old(identities)[req.id].state == Active;
              var unsaved := hasRepository && !save.Saved?;
              && (r == Err(Conformance) <==> Blank(req.id))
              && (r == Err(ConfirmationNeeded) <==> !Blank(req.id) && !confirmed)
              && (r == Err(NotFound) <==> !Blank(req.id) && confirmed && req.id !in old(identities))
              && (r == Err(AlreadyRetired) <==> known && old(identities)[req.id].state == Retired)
              && (r == Err(Forbidden) <==> active && !req.dryRun && answer.AdapterError? && answer.forbidden)
              && (r == Err(ProviderFailure) <==> active && !req.dryRun && answer.AdapterError? && !answer.forbidden)
              && (r == Err(PersistenceFailure) <==> active && !req.dryRun && answer.View? && unsaved)
              && (r.Ok? <==> active && (req.dryRun || (answer.View? && !unsaved)))
              && (r.Ok? && req.dryRun ==> r.value == PlannedRetirement(old(identities)[req.id]))
              && (r.Ok? && !req.dryRun ==>
                   req.id in identities && r.value == Decommissioned(identities[req.id], Lookup(events, req.id)))
              && (!active || req.dryRun || answer.AdapterError? ==> View() == old(View()) && saved == old(saved))
    {
      assert req.id in identities ==> identities[req.id].state == Active || identities[req.id].state == Retired;
      RetireLockedOk(parse, View(), req, now, answer);
      var outcome := RetireLocked(req, now, answer);
      r := SaveRetirement(outcome, now, native, common, save);
    }

    method Retire(req: RetireRequest, now: int, answer: AdapterAnswer, native: VaultAnswer, common: VaultAnswer,
        save: SaveAnswer)
      returns (r: Result<RetireResponse, LifecycleError>)
      requires Valid()
      modifies this
      ensures Done(old(View()), old(saved), Retires(req, now, answer, native, common), save)
      ensures var confirmed := req.dryRun || req.confirm;
              var known := !Blank(req.id) && confirmed && req.id in old(identities);
              var active := known && old(identities)[req.id].state == Active;
              var unsaved := hasRepository && !save.Saved?;
              && (r == Err(Conformance) <==> Blank(req.id))
              && (r == Err(ConfirmationNeeded) <==> !Blank(req.id) && !confirmed)
              && (r == Err(NotFound) <==> !Blank(req.id) && confirmed && req.id !in old(identities))
              && (r == Err(AlreadyRetired) <==> known && old(identities)[req.id].state == Retired)
              && (r == Err(Forbidden) <==> active && !req.dryRun && answer.AdapterError? && answer.forbidden)
              && (r == Err(ProviderFailure) <==> active && !req.dryRun && answer.AdapterError? && !answer.forbidden)
              && (r == Err(PersistenceFailure) <==> active && !req.dryRun && answer.View? && unsaved)
              && (r.Ok? <==> active && (req.dryRun || (answer.View? && !unsaved)))
              && (r.Ok? && req.dryRun ==> r.value == PlannedRetirement(old(identities)[req.id]))
              && (r.Ok? && !req.dryRun ==>
                   req.id in identities && r.value == Decommissioned(identities[req.id], Lookup(events, req.id)))
              && (!active || req.dryRun || answer.AdapterError? ==> View() == old(View()) && saved == old(saved))
    {
      ghost var before, op := View(), Retires(req, now, answer, native, common);
      RetireSaves(parse, before, req, now, answer, native, common, Answer(save));
      ghost var (locked, outcome) := Sections.RetireLocked(before, req, now, answer);
      r := RetireAndSave(req, now, answer, native, common, save);
      Concludes(before, old(saved), op, save, if outcome.RetireDone? then Some(locked) else None);
    }

    /** The last locked section of Delete, up to its save; the value is the
        audit snapshot taken before the purge. */
    method DeleteLocked(req: DeleteRequest, identity: Identity, now: int)
        returns (r: Result<seq<Event>, LifecycleError>)
      modifies `identities, `runs, `nextEvent, `events, `sink
      ensures (View(), r) == DeleteFinal(old(View()), req, identity, now)
      ensures r.Ok? <==> req.id in old(identities)
      ensures r.Ok? ==> identity.id !in identities && identity.id !in events && identity.id !in runs
      ensures r.Ok? ==>
              var e := Event(old(nextEvent) + 1, identity.id, IdentityDeleted,
                             if req.requestedBy == "" then "operator" else req.requestedBy, Success, now, None);
              && r.value == Lookup(old(events), identity.id) + [e]
              && nextEvent == old(nextEvent) + 1 && sink == old(sink) + [e]
      ensures r.Err? ==> r == Err(NotFound) && View() == old(View())
      ensures forall other :: other != identity.id ==>
                && (other in identities <==> other in old(identities))
                && (other in identities ==> identities[other] == old(identities)[other])
                && Lookup(events, other) == Lookup(old(events), other)
                && Lookup(runs, other) == Lookup(old(runs), other)
    {
      if req.id !in identities { return Err(NotFound); }
      AddEvent(identity.id, now, IdentityDeleted, OrDefault(req.requestedBy, ACTOR_OPERATOR), Success, None);
      var final := Lookup(events, identity.id);
      identities, events, runs := identities - {identity.id}, events - {identity.id}, runs - {identity.id};
      return Ok(final);
    }

    /** Delete up to its save: check, revocations, last locked section. */
    method DeleteUnsaved(req: DeleteRequest, now: int, native: VaultAnswer, common: VaultAnswer)
      returns (r: Result<(Identity, seq<Event>), LifecycleError>)
      requires KeyedById(identities)
      modifies `identities, `runs, `nextRun, `nextEvent, `events, `sink
      ensures View() == DeleteOp(old(View()), req, now, native, common)
      ensures match DeleteCheck(old(View()), req)
              case Err(e) => r == Err(e)
              case Ok(identity) =>
                var revoked := BothVaults(old(nextEvent), req.id, CredentialRevoked, now, native, common);
                var e := Event(nextEvent, req.id, IdentityDeleted,
                               if req.requestedBy == "" then "operator" else req.requestedBy, Success, now, None);
                r == Ok((identity, Lookup(old(events), req.id) + (revoked + [e])))
    {
      var check := DeleteCheck(View(), req);
      if check.Err? { return Err(check.error); }
      DeletionEvidence(View(), req, now, native, common);
      RevokeAllRecords(View(), req.id, now, native, common);
      RevokeCopies(check.value.id, now, native, common);
      // No other call came in between, so the record is still there.
      var final := DeleteLocked(req, check.value, now);
      return Ok((check.value, final.value));
    }

    /** The response carries everything the purge removed, the deletion event last. */
    method Delete(req: DeleteRequest, now: int, native: VaultAnswer, common: VaultAnswer, save: SaveAnswer)
      returns (r: Result<(Identity, seq<Event>), LifecycleError>)
      requires Valid()
      modifies this
      ensures Done(old(View()), old(saved), Deletes(req, now, native, common), save)
      ensures var known, unsaved := req.confirm && req.id in old(identities), hasRepository && !save.Saved?;
              var retired := known && old(identities)[req.id].state == Retired;
              && (r == Err(ConfirmationNeeded) <==> !req.confirm)
              && (r == Err(NotFound) <==> req.confirm && req.id !in old(identities))
              && (known && !retired ==> r == Err(NotRetired(old(identities)[req.id].state)))
              && (r == Err(PersistenceFailure) <==> retired && unsaved)
              && (r.Ok? <==> retired && !unsaved)
              && (!retired ==> View() == old(View()))
              && (if retired && hasRepository && !save.SetFailed? then saved.Some? && IsSnapshot(View(), saved.value)
                  else saved == old(saved))
      ensures r.Ok? ==>
              var revoked := BothVaults(old(nextEvent), req.id, CredentialRevoked, now, native, common);
              var e := Event(nextEvent, req.id, IdentityDeleted,
                             if req.requestedBy == "" then "operator" else req.requestedBy, Success, now, None);
              r.value == (old(identities)[req.id], Lookup(old(events), req.id) + (revoked + [e]))
    {
      ghost var before, op := View(), Deletes(req, now, native, common);
      DeleteSaves(parse, before, req, now, native, common, Answer(save));
      StoreAfterOpOk(parse, before, op, Answer(save));
      r := DeleteUnsaved(req, now, native, common);
      var error := SaveIf(r.Ok?, save);
      Concludes(before, old(saved), op, save, if r.Ok? then Some(View()) else None);
      if error.Some? { return Err(error.value); }
    }

    /** Which vault serves a read: the cluster vault only where the native one is
        absent or does not support it, never for an outage. */
    method ReadSecret(native: ReadAnswer, common: ReadAnswer)
        returns (r: Result<(string, VaultReference), LifecycleError>)
      ensures r == UseSource(native, common)
      ensures r.Ok? <==> native.SecretRead? || (common.SecretRead? && !native.ReadFailed?)
      ensures native.SecretRead? ==> r == Ok((native.secret, native.ref))
      ensures r.Ok? && !native.SecretRead? ==> r == Ok((common.secret, common.ref))
      ensures r == Err(VaultUnsupported) <==> native.VaultAbsent? && common.VaultAbsent?
    {
      if native.VaultAbsent? && common.VaultAbsent? { return Err(VaultUnsupported); }
      if native.SecretRead? { return Ok((native.secret, native.ref)); }
      if native.ReadFailed? { return Err(ProviderFailure); }
      if !common.SecretRead? { return Err(ProviderFailure); }
      return Ok((common.secret, common.ref));
    }

    /** Use up to its save. */
    method UseUnsaved(req: UseRequest, now: int, native: ReadAnswer, common: ReadAnswer)
      returns (r: Result<(Identity, string, VaultReference), LifecycleError>)
      modifies `nextEvent, `events, `sink
      ensures View() == UseOp(old(View()), req, now, native, common)
      ensures r.Ok? <==> UseResult(old(View()), req, native, common).Ok?
      ensures var usable := req.id in identities && identities[req.id].state != Retired;
              var served := native.SecretRead? || (common.SecretRead? && !native.ReadFailed?);
              var none := native.VaultAbsent? && common.VaultAbsent?;
              && (r == Err(NotFound) <==> req.id !in identities)
              && (r == Err(AlreadyRetired) <==> req.id in identities && identities[req.id].state == Retired)
              && (r == Err(VaultUnsupported) <==> usable && none)
              && (r == Err(ProviderFailure) <==> usable && !served && !none)
              && (r.Ok? <==> usable && served)
              && (r.Ok? ==> r.value == if native.SecretRead? then (identities[req.id], native.secret, native.ref)
                                       else (identities[req.id], common.secret, common.ref))
              && (r.Err? ==> View() == old(View()))
              && (r.Ok? ==>
                   var e := Event(old(nextEvent) + 1, req.id, CredentialUsed,
                                  if req.requestedBy == "" then "operator" else req.requestedBy, Success, now, None);
                   View() == StoreState(old(identities), old(events)[req.id := Lookup(old(events), req.id) + [e]],
                                        old(runs), old(nextEvent) + 1, old(nextRun), old(sink) + [e]))
    {
      if req.id !in identities { return Err(NotFound); }
      var identity := identities[req.id];
      if identity.state == Retired { return Err(AlreadyRetired); }
      var read := ReadSecret(native, common);
      if read.Err? { return Err(read.error); }
      AddEvent(req.id, now, CredentialUsed, OrDefault(req.requestedBy, ACTOR_OPERATOR), Success, None);
      return Ok((identity, read.value.0, read.value.1));
    }

    /** Use with its save, before the invariants are looked at again. */
    method UseAndSave(req: UseRequest, now: int, native: ReadAnswer, common: ReadAnswer, save: SaveAnswer)
      returns (r: Result<(Identity, string, VaultReference), LifecycleError>)
      requires Valid()
      modifies this
      ensures View() == UseOp(old(View()), req, now, native, common)
      ensures var usable := req.id in old(identities) && old(identities)[req.id].state != Retired;
              var served := native.SecretRead? || (common.SecretRead? && !native.ReadFailed?);
              var none, unsaved := native.VaultAbsent? && common.VaultAbsent?, hasRepository && !save.Saved?;
              && (r == Err(NotFound) <==> req.id !in old(identities))
              && (r == Err(AlreadyRetired) <==> req.id in old(identities) && old(identities)[req.id].state == Retired)
              && (r == Err(VaultUnsupported) <==> usable && none)
              && (r == Err(ProviderFailure) <==> usable && !served && !none)
              && (r == Err(PersistenceFailure) <==> usable && served && unsaved)
              && (r.Ok? <==> usable && served && !unsaved)
              && (r.Ok? ==> r.value == if native.SecretRead? then (old(identities)[req.id], native.secret, native.ref)
                                       else (old(identities)[req.id], common.secret, common.ref))
              && (!(usable && served) ==> View() == old(View()) && saved == old(saved))
              && (usable && served ==>
                   var e := Event(old(nextEvent) + 1, req.id, CredentialUsed,
                                  if req.requestedBy == "" then "operator" else req.requestedBy, Success, now, None);
                   && View() == StoreState(old(identities), old(events)[req.id := Lookup(old(events), req.id) + [e]],
                                           old(runs), old(nextEvent) + 1, old(nextRun), old(sink) + [e])
                   && if hasRepository && !save.SetFailed? then saved.Some? && IsSnapshot(View(), saved.value)
                      else saved == old(saved))
    {
      UseOpOk(View(), req, now, native, common);
      r := UseUnsaved(req, now, native, common);
      var error := SaveIf(r.Ok?, save);
      if error.Some? { return Err(error.value); }
    }

    method Use(req: UseRequest, now: int, native: ReadAnswer, common: ReadAnswer, save: SaveAnswer)
      returns (r: Result<(Identity, string, VaultReference), LifecycleError>)
      requires Valid()
      modifies this
      ensures Done(old(View()), old(saved), Uses(req, now, native, common), save)
      ensures var usable := req.id in old(identities) && old(identities)[req.id].state != Retired;
              var served := native.SecretRead? || (common.SecretRead? && !native.ReadFailed?);
              var none, unsaved := native.VaultAbsent? && common.VaultAbsent?, hasRepository && !save.Saved?;
              && (r == Err(NotFound) <==> req.id !in old(identities))
              && (r == Err(AlreadyRetired) <==> req.id in old(identities) && old(identities)[req.id].state == Retired)
              && (r == Err(VaultUnsupported) <==> usable && none)
              && (r == Err(ProviderFailure) <==> usable && !served && !none)
              && (r == Err(PersistenceFailure) <==> usable && served && unsaved)
              && (r.Ok? <==> usable && served && !unsaved)
              && (r.Ok? ==> r.value == if native.SecretRead? then (old(identities)[req.id], native.secret, native.ref)
                                       else (old(identities)[req.id], common.secret, common.ref))
              && (!(usable && served) ==> View() == old(View()) && saved == old(saved))
              && (usable && served ==>
                   var e := Event(old(nextEvent) + 1, req.id, CredentialUsed,
                                  if req.requestedBy == "" then "operator" else req.requestedBy, Success, now, None);
                   && View() == StoreState(old(identities), old(events)[req.id := Lookup(old(events), req.id) + [e]],
                                           old(runs), old(nextEvent) + 1, old(nextRun), old(sink) + [e])
                   && if hasRepository && !save.SetFailed? then saved.Some? && IsSnapshot(View(), saved.value)
                      else saved == old(saved))
    {
      ghost var before, op := View(), Uses(req, now, native, common);
      UseSaves(parse, before, req, now, native, common, Answer(save));
      UseServed(before, req, native, common);
      r := UseAndSave(req, now, native, common, save);
      Concludes(before, old(saved), op, save,
        if UseResult(before, req, native, common).Ok? then Some(View()) else None);
    }
  }

  lemma UseServed(st: StoreState, req: UseRequest, native: ReadAnswer, common: ReadAnswer)
    ensures UseResult(st, req, native, common).Ok? <==>
            && req.id in st.identities && st.identities[req.id].state != Retired
            && (native.SecretRead? || (common.SecretRead? && !native.ReadFailed?))
  {
  }

  lemma UseOpOk(st: StoreState, req: UseRequest, now: int, native: ReadAnswer, common: ReadAnswer)
    requires StoreOk(st)
    ensures StoreOk(UseOp(st, req, now, native, common))
  {
    if UseResult(st, req, native, common).Ok? {
      var change := UseChanges(st, req.id, req.requestedBy, now);
      ChangeKeepsLists(st, RecordUse(st, req.id, req.requestedBy, now), change);
    }
  }

  lemma ProvisionOpOk(parse: PeriodParser, st: StoreState, req: ProvisionRequest, now: int, created: CreateAnswer,
      native: VaultAnswer, common: VaultAnswer)
    requires StoreOk(st)
    ensures StoreOk(ProvisionOp(parse, st, req, now, created, native, common))
  {
    OpKeeps(parse, st, Provisions(req, now, created, native, common));
  }

  lemma RotateOpOk(parse: PeriodParser, st: StoreState, req: RotateRequest, now: int, answer: AdapterAnswer,
      secret: bool, native: VaultAnswer, common: VaultAnswer)
    requires StoreOk(st)
    ensures StoreOk(RotateOp(parse, st, req, now, answer, secret, native, common))
  {
    OpKeeps(parse, st, Rotates(req, now, answer, secret, native, common));
  }

  lemma RetireLockedOk(parse: PeriodParser, st: StoreState, req: RetireRequest, now: int, answer: AdapterAnswer)
    requires StoreOk(st)
    ensures StoreOk(Sections.RetireLocked(st, req, now, answer).0)
  {
    var alone := Retires(req, now, answer, NoVault, NoVault);
    assert Apply(parse, st, alone) == Sections.RetireLocked(st, req, now, answer).0;
    OpKeeps(parse, st, alone);
  }

  /** Whatever store a snapshot was taken of, restoring it gives a sound one. */
  lemma RestoredValid(st: StoreState, snapshot: Snapshot)
    ensures forall source :: StoreOk(source) && IsSnapshot(source, snapshot) ==>
              StoreOk(Restore(st, snapshot)) && IsSnapshot(Restore(st, snapshot), snapshot)
  {
    forall source | StoreOk(source) && IsSnapshot(source, snapshot)
      ensures StoreOk(Restore(st, snapshot)) && IsSnapshot(Restore(st, snapshot), snapshot)
    {
      RestoredIsSound(source, snapshot);
      assert Restore(st, snapshot) == Restore(source, snapshot).(sink := st.sink);
    }
  }
}
