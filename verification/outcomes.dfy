/** The whole store that each operation leaves, across its sections, in terms of the
    request and the collaborators' answers alone. */
module Outcomes {
  import opened Wrappers
  import opened Text
  import opened Protocol
  import opened Sections
  import opened Numbered
  import opened StoreInvariants
  import opened Interleaving
  import opened Operations

  // ------------------------------------------------------------- vault events

  lemma VaultLogged(st: StoreState, id: string, kind: EventType, now: int, answer: VaultAnswer)
    ensures var st' := Sections.VaultEvent(st, id, kind, now, answer);
            && st'.sink == st.sink + VaultEvents(st.nextEvent, id, kind, now, answer)
            && st' == if answer.NoVault? then st
                      else Recorded(st, id, VaultEvents(st.nextEvent, id, kind, now, answer))
  {
  }

  lemma RecordedTwice(st: StoreState, id: string, a: seq<Event>, b: seq<Event>)
    ensures Recorded(Recorded(st, id, a), id, b) == Recorded(st, id, a + b)
  {
    assert EventsOf(st, id) + a + b == EventsOf(st, id) + (a + b);
    assert st.sink + a + b == st.sink + (a + b);
  }

  lemma RecordedNothing(st: StoreState, id: string)
    requires id in st.events
    ensures Recorded(st, id, []) == st
  {
    assert EventsOf(st, id) + [] == EventsOf(st, id) && st.sink + [] == st.sink;
  }

  /** Both vaults one after the other, for an identity that has a list. */
  lemma BothLogged(st: StoreState, id: string, kind: EventType, now: int, native: VaultAnswer, common: VaultAnswer)
    requires id in st.events
    ensures Sections.VaultEvent(Sections.VaultEvent(st, id, kind, now, native), id, kind, now, common) ==
            Recorded(st, id, BothVaults(st.nextEvent, id, kind, now, native, common))
  {
    var first := VaultEvents(st.nextEvent, id, kind, now, native);
    var mid := Recorded(st, id, first);
    VaultLogged(st, id, kind, now, native);
    RecordedNothing(st, id);
    assert Sections.VaultEvent(st, id, kind, now, native) == mid;
    VaultLogged(mid, id, kind, now, common);
    RecordedNothing(mid, id);
    RecordedTwice(st, id, first, VaultEvents(mid.nextEvent, id, kind, now, common));
  }

  /** The deliveries and the write-back of one identity. */
  lemma DeliveredStore(st: StoreState, identity: Identity, now: int, native: VaultAnswer, common: VaultAnswer)
    requires identity.id in st.events && st.identities == st.identities[identity.id := identity]
    requires identity.updatedAt == now
    ensures DeliverAll(st, identity, now, native, common) ==
            Recorded(st, identity.id, BothVaults(st.nextEvent, identity.id, CredentialDelivered, now, native, common))
            .(identities := st.identities[identity.id :=
                              identity.(metadata := WithVaults(identity.metadata, native, common))])
  {
    BothLogged(st, identity.id, CredentialDelivered, now, native, common);
  }

  lemma DeliveriesOffered(st: StoreState, identity: Identity, now: int, native: VaultAnswer, common: VaultAnswer)
    ensures DeliverAll(st, identity, now, native, common).sink ==
            st.sink + BothVaults(st.nextEvent, identity.id, CredentialDelivered, now, native, common)
  {
    var mid := Deliver(st, identity.id, now, native);
    VaultLogged(st, identity.id, CredentialDelivered, now, native);
    VaultLogged(mid, identity.id, CredentialDelivered, now, common);
    Associates(st.sink, VaultEvents(st.nextEvent, identity.id, CredentialDelivered, now, native),
               VaultEvents(mid.nextEvent, identity.id, CredentialDelivered, now, common));
  }

  /** A logged state and its deliveries. */
  lemma LoggedAndDelivered(plain: StoreState, identity: Identity, trail: seq<Event>, now: int, native: VaultAnswer,
      common: VaultAnswer)
    requires trail != [] && identity.updatedAt == now && plain.identities == plain.identities[identity.id := identity]
    ensures var es := trail +
                        BothVaults(plain.nextEvent + |trail|, identity.id, CredentialDelivered, now, native, common);
            DeliverAll(Recorded(plain, identity.id, trail), identity, now, native, common) ==
            Recorded(plain, identity.id, es)
            .(identities := plain.identities[identity.id :=
                              identity.(metadata := WithVaults(identity.metadata, native, common))])
  {
    DeliveredStore(Recorded(plain, identity.id, trail), identity, now, native, common);
    RecordedTwice(plain, identity.id, trail,
                  BothVaults(plain.nextEvent + |trail|, identity.id, CredentialDelivered, now, native, common));
  }

  // ------------------------------------------------------------ the operations

  /** A provision: one active and healthy record under its own id or its name, with
      the references of the vaults that took the one-time secret, and its events,
      of which those of a failed delivery are audited like the others. */
  lemma ProvisionStore(parse: PeriodParser, st: StoreState, req: ProvisionRequest, now: int, identity: Identity,
      secret: bool, native: VaultAnswer, common: VaultAnswer)
    requires ProvisionError(parse, req, now, Created(identity, secret)) == None
    ensures var id, n := if identity.id == "" then identity.name else identity.id, st.nextEvent;
            var actor := if req.requestedBy == "" then "control-plane" else req.requestedBy;
            var metadata := if secret then WithVaults(identity.metadata, native, common) else identity.metadata;
            var adoption := [Event(n + 1, id, IdentityDiscovered, "discovery", Success, now, None),
                             Event(n + 2, id, IdentityRegistered, actor, Success, now, None)];
            var es := if secret then adoption + BothVaults(n + 2, id, CredentialDelivered, now, native, common)
                      else adoption;
            ProvisionOp(parse, st, req, now, Created(identity, secret), native, common) ==
            StoreState(st.identities[id := identity.(id := id, state := Active, health := Healthy, createdAt := now,
                                                     updatedAt := now, metadata := metadata)],
                       st.events[id := EventsOf(st, id) + es], st.runs, n + |es|, st.nextRun, st.sink + es)
  {
    var created, actor := Provisioned(identity, now), OrDefault(req.requestedBy, ACTOR_CONTROL_PLANE);
    AdoptedStore(st, created, now, actor);
    if secret {
      LoggedAndDelivered(Put(st, created.id, created), created, AdoptionEvents(st.nextEvent, created.id, now, actor),
                         now, native, common);
    }
  }

  function AdoptionEvents(n: nat, id: string, now: int, actor: string): seq<Event> {
    [Event(n + 1, id, IdentityDiscovered, "discovery", Success, now, None),
     Event(n + 2, id, IdentityRegistered, actor, Success, now, None)]
  }

  lemma AdoptedStore(st: StoreState, identity: Identity, now: int, actor: string)
    ensures Adopt(st, identity, now, actor) ==
            Recorded(Put(st, identity.id, identity), identity.id,
                     AdoptionEvents(st.nextEvent, identity.id, now, actor))
  {
    var id, n := identity.id, st.nextEvent;
    var e1, e2 := Event(n + 1, id, IdentityDiscovered, "discovery", Success, now, None),
                  Event(n + 2, id, IdentityRegistered, actor, Success, now, None);
    RecordedTwice(Put(st, id, identity), id, [e1], [e2]);
    assert [e1] + [e2] == AdoptionEvents(n, id, now, actor);
  }

  /** A rotation that the provider carries out: its view is the record, but for the
      id, the state, the health and an expiry one renewal period from now; one more
      finished run with the evidence; three events, which name the sweeper or else
      operator, control plane and adapter; and the deliveries. */
  lemma RotationStore(parse: PeriodParser, st: StoreState, req: RotateRequest, now: int, view: Identity,
      secret: bool, native: VaultAnswer, common: VaultAnswer)
    requires KeyedById(st.identities)
    requires !Blank(req.id) && req.id in st.identities && st.identities[req.id].state == Active && !req.dryRun
    ensures var id, n, no := req.id, st.nextEvent, st.nextRun + 1;
            var actor := if req.requestedBy == "" then "operator" else req.requestedBy;
            var sweeper := actor == "system:sweeper";
            var run := Run(no, id, Succeeded, actor, now, now, Some(Success), view.keyId, "");
            var period := match parse(st.identities[id].renewalPeriod) case Some(p) => p case None => 0;
            var metadata := if secret then WithVaults(view.metadata, native, common) else view.metadata;
            var trail := [Event(n + 1, id, RotationRequested, actor, InProgress, now, Some(no)),
                          Event(n + 2, id, RotationStarted, if sweeper then actor else "control-plane", InProgress, now,
                                Some(no)),
                          Event(n + 3, id, RotationCompleted, if sweeper then actor else "provider-adapter", Success,
                                now, Some(no))];
            var es := if secret then trail + BothVaults(n + 3, id, CredentialDelivered, now, native, common) else trail;
            RotateOp(parse, st, req, now, View(view), secret, native, common) ==
            StoreState(st.identities[id := view.(id := id, state := Active, health := Healthy, lastRotatedAt := now,
                                                 updatedAt := now, expiresAt := now + period, metadata := metadata)],
                       st.events[id := EventsOf(st, id) + es],
                       st.runs[id := RunsOf(st, id) + [run]], n + |es|, no, st.sink + es)
  {
    var rotated, run := Rotated(parse, st.identities[req.id], view, req.id, now),
                        FinalRun(parse, st, req, now, View(view));
    LockedStore(parse, st, req, now, View(view));
    RotationDelivers(parse, st, req, now, view, secret, native, common);
    CompletedTrail(st, req, now, view);
    WithDeliveries(st, rotated, run, TrailOf(st, req, now, View(view)), now, secret, native, common,
                   RotateOp(parse, st, req, now, View(view), secret, native, common));
  }

  lemma WithDeliveries(st: StoreState, rotated: Identity, run: Run, trail: seq<Event>, now: int, secret: bool,
      native: VaultAnswer, common: VaultAnswer, after: StoreState)
    requires rotated.updatedAt == now && |trail| == 3
    requires var locked := Recorded(Unlogged(st, rotated, run), rotated.id, trail);
             after == if secret then DeliverAll(locked, rotated, now, native, common) else locked
    ensures var id := rotated.id;
            var metadata := if secret then WithVaults(rotated.metadata, native, common) else rotated.metadata;
            var es := if secret then trail + BothVaults(st.nextEvent + 3, id, CredentialDelivered, now, native, common)
                      else trail;
            after == StoreState(st.identities[id := rotated.(metadata := metadata)],
                                st.events[id := EventsOf(st, id) + es], st.runs[id := RunsOf(st, id) + [run]],
                                st.nextEvent + |es|, st.nextRun + 1, st.sink + es)
  {
    if secret {
      LoggedAndDelivered(Unlogged(st, rotated, run), rotated, trail, now, native, common);
      FullyRecorded(st, rotated, run, trail +
                    BothVaults(st.nextEvent + 3, rotated.id, CredentialDelivered, now, native, common));
    } else {
      FullyRecorded(st, rotated, run, trail);
    }
  }

  lemma FullyRecorded(st: StoreState, record: Identity, run: Run, es: seq<Event>)
    ensures Recorded(Unlogged(st, record, run), record.id, es) ==
            StoreState(st.identities[record.id := record], st.events[record.id := EventsOf(st, record.id) + es],
                       st.runs[record.id := RunsOf(st, record.id) + [run]], st.nextEvent + |es|, st.nextRun + 1,
                       st.sink + es)
  {
  }

  /** A rotation that the provider refuses: the identity as it was, active and
      flagged, so that it can be retried; a failed run with the message. */
  lemma FailedRotationStore(parse: PeriodParser, st: StoreState, req: RotateRequest, now: int, forbidden: bool,
      message: string, secret: bool, native: VaultAnswer, common: VaultAnswer)
    requires KeyedById(st.identities)
    requires !Blank(req.id) && req.id in st.identities && st.identities[req.id].state == Active && !req.dryRun
    ensures var id, n, no := req.id, st.nextEvent, st.nextRun + 1;
            var actor := if req.requestedBy == "" then "operator" else req.requestedBy;
            var sweeper := actor == "system:sweeper";
            var run := Run(no, id, FailedRun, actor, now, now, Some(Failure), "", message);
            var trail := [Event(n + 1, id, RotationRequested, actor, InProgress, now, Some(no)),
                          Event(n + 2, id, RotationStarted, if sweeper then actor else "control-plane", InProgress, now,
                                Some(no)),
                          Event(n + 3, id, RotationFailed, if sweeper then actor else "provider-adapter", Failure,
                                now, Some(no))];
            RotateOp(parse, st, req, now, AdapterError(forbidden, message), secret, native, common) ==
            StoreState(st.identities[id := st.identities[id].(health := Attention)],
                       st.events[id := EventsOf(st, id) + trail],
                       st.runs[id := RunsOf(st, id) + [run]], n + 3, no, st.sink + trail)
  {
    LockedStore(parse, st, req, now, AdapterError(forbidden, message));
    FailedTrail(st, req, now, forbidden, message);
  }

  lemma RotationDelivers(parse: PeriodParser, st: StoreState, req: RotateRequest, now: int, view: Identity,
      secret: bool, native: VaultAnswer, common: VaultAnswer)
    requires KeyedById(st.identities)
    requires !Blank(req.id) && req.id in st.identities && st.identities[req.id].state == Active && !req.dryRun
    ensures var locked := RotateLocked(parse, st, req, now, View(view)).0;
            RotateOp(parse, st, req, now, View(view), secret, native, common) ==
            if secret
            then DeliverAll(locked, Rotated(parse, st.identities[req.id], view, req.id, now), now, native, common)
            else locked
  {
    assert CanTransition(Active, Renewing);
  }

  function Unlogged(st: StoreState, record: Identity, run: Run): StoreState {
    st.(identities := st.identities[record.id := record], runs := st.runs[record.id := RunsOf(st, record.id) + [run]],
        nextRun := st.nextRun + 1)
  }

  lemma LockedStore(parse: PeriodParser, st: StoreState, req: RotateRequest, now: int, answer: AdapterAnswer)
    requires KeyedById(st.identities)
    requires !Blank(req.id) && req.id in st.identities && st.identities[req.id].state == Active && !req.dryRun
    ensures var record := RotationRecord(parse, st, req, now, answer, false, NoVault, NoVault).value;
            && record.id == req.id
            && RotateLocked(parse, st, req, now, answer).0 ==
               Recorded(Unlogged(st, record, FinalRun(parse, st, req, now, answer)), req.id,
                        TrailOf(st, req, now, answer))
  {
    assert CanTransition(Active, Renewing);
    RotateEffect(parse, st, req, now, answer);
    RotateLockedRecord(parse, st, req, now, answer);
  }

  lemma RunFiled(parse: PeriodParser, st: StoreState, req: RotateRequest, now: int, answer: AdapterAnswer)
    requires KeyedById(st.identities) && RotationRefusal(st, req) == None && !req.dryRun
    ensures Lookup(RotateLocked(parse, st, req, now, answer).0.runs, req.id) ==
            Lookup(st.runs, req.id) + [FinalRun(parse, st, req, now, answer)]
  {
    RotateEffect(parse, st, req, now, answer);
  }

  lemma CompletedTrail(st: StoreState, req: RotateRequest, now: int, view: Identity)
    ensures var id, n, no := req.id, st.nextEvent, st.nextRun + 1;
            var actor := if req.requestedBy == "" then "operator" else req.requestedBy;
            var sweeper := actor == "system:sweeper";
            TrailOf(st, req, now, View(view)) ==
            [Event(n + 1, id, RotationRequested, actor, InProgress, now, Some(no)),
             Event(n + 2, id, RotationStarted, if sweeper then actor else "control-plane", InProgress, now, Some(no)),
             Event(n + 3, id, RotationCompleted, if sweeper then actor else "provider-adapter", Success, now,
                   Some(no))]
  {
  }

  lemma FailedTrail(st: StoreState, req: RotateRequest, now: int, forbidden: bool, message: string)
    ensures var id, n, no := req.id, st.nextEvent, st.nextRun + 1;
            var actor := if req.requestedBy == "" then "operator" else req.requestedBy;
            var sweeper := actor == "system:sweeper";
            TrailOf(st, req, now, AdapterError(forbidden, message)) ==
            [Event(n + 1, id, RotationRequested, actor, InProgress, now, Some(no)),
             Event(n + 2, id, RotationStarted, if sweeper then actor else "control-plane", InProgress, now, Some(no)),
             Event(n + 3, id, RotationFailed, if sweeper then actor else "provider-adapter", Failure, now, Some(no))]
  {
  }

  /** A retirement that the provider agrees to: the provider's view is the record,
      retired and flagged, its event, and then the revocations. */
  lemma RetirementStore(st: StoreState, req: RetireRequest, now: int, view: Identity, native: VaultAnswer,
      common: VaultAnswer)
    requires !Blank(req.id) && req.confirm && !req.dryRun && req.id in st.identities
    requires st.identities[req.id].state == Active || st.identities[req.id].state == Renewing
    ensures var id, n := req.id, st.nextEvent;
            var actor := if req.requestedBy == "" then "operator" else req.requestedBy;
            var es := [Event(n + 1, id, IdentityRetired, actor, Success, now, None)] +
                        BothVaults(n + 1, id, CredentialRevoked, now, native, common);
            RetireOp(st, req, now, View(view), native, common) ==
            StoreState(st.identities[id := view.(id := id, state := Retired, health := Attention, updatedAt := now)],
                       st.events[id := EventsOf(st, id) + es], st.runs, n + |es|, st.nextRun, st.sink + es)
  {
    var id, n := req.id, st.nextEvent;
    var actor := OrDefault(req.requestedBy, ACTOR_OPERATOR);
    var put, retired := Put(st, id, RetiredRecord(view, id, now)),
                        [Event(n + 1, id, IdentityRetired, actor, Success, now, None)];
    var locked := RetireLocked(st, req, now, View(view)).0;
    assert CanTransition(st.identities[id].state, Retired);
    assert locked == Recorded(put, id, retired);
    BothLogged(locked, id, CredentialRevoked, now, native, common);
    RecordedTwice(put, id, retired, BothVaults(n + 1, id, CredentialRevoked, now, native, common));
  }

  /** A confirmed deletion of a retired identity: everything filed under it leaves
      the store, and the sink keeps the revocations and the deletion. */
  lemma DeletionStore(st: StoreState, req: DeleteRequest, now: int, native: VaultAnswer, common: VaultAnswer)
    requires KeyedById(st.identities) && req.confirm && req.id in st.identities
    requires st.identities[req.id].state == Retired
    ensures var id := req.id;
            var actor := if req.requestedBy == "" then "operator" else req.requestedBy;
            var revoked := BothVaults(st.nextEvent, id, CredentialRevoked, now, native, common);
            var es := revoked +
                        [Event(st.nextEvent + |revoked| + 1, id, IdentityDeleted, actor, Success, now, None)];
            DeleteOp(st, req, now, native, common) ==
            StoreState(st.identities - {id}, st.events - {id}, st.runs - {id}, st.nextEvent + |es|, st.nextRun,
                       st.sink + es)
  {
    var revoked := BothVaults(st.nextEvent, req.id, CredentialRevoked, now, native, common);
    RevokedList(st, req.id, now, native, common);
    Purged(st, RevokeAll(st, req.id, now, native, common), req, revoked, now);
  }

  /** And the evidence it returns. */
  lemma DeletionEvidence(st: StoreState, req: DeleteRequest, now: int, native: VaultAnswer, common: VaultAnswer)
    requires req.id in st.identities
    ensures var actor := if req.requestedBy == "" then "operator" else req.requestedBy;
            var revoked := BothVaults(st.nextEvent, req.id, CredentialRevoked, now, native, common);
            var e := Event(st.nextEvent + |revoked| + 1, req.id, IdentityDeleted, actor, Success, now, None);
            DeleteFinal(RevokeAll(st, req.id, now, native, common), req, st.identities[req.id].(id := req.id), now).1 ==
            Ok(EventsOf(st, req.id) + (revoked + [e]))
  {
    var revoked := BothVaults(st.nextEvent, req.id, CredentialRevoked, now, native, common);
    RevokedList(st, req.id, now, native, common);
    var actor := OrDefault(req.requestedBy, ACTOR_OPERATOR);
    var e := Event(st.nextEvent + |revoked| + 1, req.id, IdentityDeleted, actor, Success, now, None);
    Associates(EventsOf(st, req.id), revoked, [e]);
  }

  /** The last section of a Delete after its revocations. */
  lemma Purged(st: StoreState, mid: StoreState, req: DeleteRequest, revoked: seq<Event>, now: int)
    requires KeyedById(st.identities) && req.id in st.identities && mid.identities == st.identities
    requires mid.events - {req.id} == st.events - {req.id} && mid.runs == st.runs && mid.nextRun == st.nextRun
    requires mid.sink == st.sink + revoked && mid.nextEvent == st.nextEvent + |revoked|
    ensures var id := req.id;
            var actor := if req.requestedBy == "" then "operator" else req.requestedBy;
            var es := revoked + [Event(mid.nextEvent + 1, id, IdentityDeleted, actor, Success, now, None)];
            DeleteFinal(mid, req, st.identities[id], now).0 ==
            StoreState(st.identities - {id}, st.events - {id}, st.runs - {id}, st.nextEvent + |es|, st.nextRun,
                       st.sink + es)
  {
    var e := Event(mid.nextEvent + 1, req.id, IdentityDeleted, OrDefault(req.requestedBy, ACTOR_OPERATOR), Success, now,
                   None);
    Associates(st.sink, revoked, [e]);
    assert mid.events[req.id := EventsOf(mid, req.id) + [e]] - {req.id} == st.events - {req.id} by {
      assert mid.events[req.id := EventsOf(mid, req.id) + [e]] - {req.id} == mid.events - {req.id};
    }
  }

  /** The revocations, also of an identity that has no list. */
  lemma RevokedList(st: StoreState, id: string, now: int, native: VaultAnswer, common: VaultAnswer)
    ensures var st' := RevokeAll(st, id, now, native, common);
            var revoked := BothVaults(st.nextEvent, id, CredentialRevoked, now, native, common);
            && EventsOf(st', id) == EventsOf(st, id) + revoked && st'.sink == st.sink + revoked
            && st'.nextEvent == st.nextEvent + |revoked| && st'.events - {id} == st.events - {id}
            && st'.runs == st.runs && st'.nextRun == st.nextRun && st'.identities == st.identities
  {
    var first := VaultEvents(st.nextEvent, id, CredentialRevoked, now, native);
    var mid := Sections.VaultEvent(st, id, CredentialRevoked, now, native);
    OneRevoked(st, id, now, native);
    OneRevoked(mid, id, now, common);
    var second := VaultEvents(mid.nextEvent, id, CredentialRevoked, now, common);
    assert BothVaults(st.nextEvent, id, CredentialRevoked, now, native, common) == first + second;
    Associates(EventsOf(st, id), first, second);
    Associates(st.sink, first, second);
  }

  lemma OneRevoked(st: StoreState, id: string, now: int, answer: VaultAnswer)
    ensures var st' := Sections.Revoke(st, id, now, answer);
            var revoked := VaultEvents(st.nextEvent, id, CredentialRevoked, now, answer);
            && EventsOf(st', id) == EventsOf(st, id) + revoked && st'.sink == st.sink + revoked
            && st'.nextEvent == st.nextEvent + |revoked| && st'.events - {id} == st.events - {id}
            && st'.runs == st.runs && st'.nextRun == st.nextRun && st'.identities == st.identities
  {
  }

  lemma Associates(a: seq<Event>, b: seq<Event>, c: seq<Event>)
    ensures (a + b) + c == a + (b + c)
  {
  }

  // ----------------------------------------------------------- vault metadata

  const VAULT_KEYS: set<string> := {"vault_url", "vault_secret", "vault_version"}
  const COMMON_KEYS: set<string> := {"common_vault_url", "common_vault_secret", "common_vault_version"}

  /** A record mirrored to both vaults carries both references; keys that belong
      to neither vault are kept, and one vault's failure keeps its old keys. */
  lemma VaultReferences(metadata: Metadata, native: VaultAnswer, common: VaultAnswer, key: string)
    ensures var m := WithVaults(metadata, native, common);
            && (native.VaultDone? ==> "vault_secret" in m && m["vault_secret"] == native.ref.secretName)
            && (common.VaultDone? ==> "common_vault_secret" in m && m["common_vault_secret"] == common.ref.secretName)
            && (native.VaultDone? && native.ref.version != ""
              ==> "vault_version" in m && m["vault_version"] == native.ref.version)
            && (native.VaultDone? && native.ref.url != "" ==> "vault_url" in m && m["vault_url"] == native.ref.url)
            && (common.VaultDone? && common.ref.version != "" ==>
                 "common_vault_version" in m && m["common_vault_version"] == common.ref.version)
            && (common.VaultDone? && common.ref.url != ""
              ==> "common_vault_url" in m && m["common_vault_url"] == common.ref.url)
            && (native.VaultDone? && native.ref.version == "" ==> SameAt(m, metadata, "vault_version"))
            && (native.VaultDone? && native.ref.url == "" ==> SameAt(m, metadata, "vault_url"))
            && (common.VaultDone? && common.ref.version == "" ==> SameAt(m, metadata, "common_vault_version"))
            && (common.VaultDone? && common.ref.url == "" ==> SameAt(m, metadata, "common_vault_url"))
            && ((key in VAULT_KEYS ==> !native.VaultDone?) && (key in COMMON_KEYS ==> !common.VaultDone?) ==>
                 (key in m <==> key in metadata) && (key in m ==> m[key] == metadata[key]))
  {
    CommonKeys();
    var m1 := if native.VaultDone? then WithReference(metadata, "", native.ref) else metadata;
    if native.VaultDone? {
      NativeReference(metadata, native.ref, key);
      NativeReference(metadata, native.ref, "common_vault_secret");
      NativeReference(metadata, native.ref, "common_vault_version");
      NativeReference(metadata, native.ref, "common_vault_url");
    }
    if common.VaultDone? {
      CommonReference(m1, common.ref, key);
      CommonReference(m1, common.ref, "vault_secret");
      CommonReference(m1, common.ref, "vault_version");
      CommonReference(m1, common.ref, "vault_url");
    }
  }

  ghost predicate SameAt(m: Metadata, before: Metadata, key: string) {
    (key in m <==> key in before) && (key in m ==> m[key] == before[key])
  }

  lemma CommonKeys()
    ensures VAULT_KEYS !! COMMON_KEYS
  {
    assert forall k :: k in VAULT_KEYS ==> k[0] == 'v';
    assert forall k :: k in COMMON_KEYS ==> k[0] == 'c';
  }

  lemma NativeReference(m: Metadata, ref: VaultReference, key: string)
    ensures var m' := WithReference(m, "", ref);
            && "vault_secret" in m' && m'["vault_secret"] == ref.secretName
            && (ref.version != "" ==> "vault_version" in m' && m'["vault_version"] == ref.version)
            && (ref.url != "" ==> "vault_url" in m' && m'["vault_url"] == ref.url)
            && (ref.version == "" ==> SameAt(m', m, "vault_version"))
            && (ref.url == "" ==> SameAt(m', m, "vault_url"))
            && (key !in VAULT_KEYS ==> SameAt(m', m, key))
  {
    assert "" + "vault_url" == "vault_url" && "" + "vault_secret" == "vault_secret"
      && "" + "vault_version" == "vault_version";
    assert "vault_secret"[6] != "vault_version"[6] && "vault_url"[6] != "vault_secret"[6]
      && "vault_url"[6] != "vault_version"[6];
  }

  lemma CommonReference(m: Metadata, ref: VaultReference, key: string)
    ensures var m' := WithReference(m, "common_", ref);
            && "common_vault_secret" in m' && m'["common_vault_secret"] == ref.secretName
            && (ref.url != "" ==> "common_vault_url" in m' && m'["common_vault_url"] == ref.url)
            && (ref.version != "" ==> "common_vault_version" in m' && m'["common_vault_version"] == ref.version)
            && (ref.version == "" ==> SameAt(m', m, "common_vault_version"))
            && (ref.url == "" ==> SameAt(m', m, "common_vault_url"))
            && (key !in COMMON_KEYS ==> SameAt(m', m, key))
  {
    assert "common_" + "vault_url" == "common_vault_url" && "common_" + "vault_secret" == "common_vault_secret"
           && "common_" + "vault_version" == "common_vault_version";
    assert |"common_vault_url"| == 16 && |"common_vault_secret"| == 19 && |"common_vault_version"| == 20;
  }
}
