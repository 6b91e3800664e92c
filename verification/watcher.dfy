/** Stores that share one repository, seen as a state machine over Redis and
    every store's reload loop. `S` is the serialized state of a store. */
module Watchers {

  /** A reload: taken from the slot, then loaded, then restored under the lock. */
  datatype Reload<S> = Idle | Loading | Restoring(snapshot: S)

  /** One store and its subscription. `dirty` marks local changes not saved yet;
      `missed` that the announcement of what is stored now was dropped before the
      store was listening, with no later save and no reload to make up for it. */
  datatype Watcher<S> = Watcher(
    local: S, dirty: bool, listening: bool, missed: bool,
    inbox: nat, slot: bool, reload: Reload<S>)

  /** `publishing` counts the saves between their Set and their Publish. */
  datatype Cluster<S> = Cluster(stored: S, publishing: nat, watchers: map<nat, Watcher<S>>)

  datatype Step<S> =
    | SetElsewhere(snapshot: S)          // some other process saves
    | Change(k: nat, state: S)           // a store changes in memory
    | SetOwn(k: nat)                     // a store saves what it holds
    | Publish                            // a save is announced to every subscription
    | Deliver(k: nat)                    // a subscription's consumer handles one message
    | Take(k: nat) | Load(k: nat) | Restore(k: nat)
    | Start(k: nat)                      // a store subscribes and restores the stored snapshot
    | Listen(k: nat)                     // ... and only then registers its listener
    | Stop(k: nat)
    | PublishLost | LoadFailed(k: nat)   // faults

  predicate Enabled<S>(c: Cluster<S>, s: Step<S>) {
    match s
    case SetElsewhere(_) => true
    case Publish => c.publishing > 0
    case PublishLost => c.publishing > 0
    case Start(k) => k !in c.watchers
    case Change(k, _) => k in c.watchers
    case SetOwn(k) => k in c.watchers
    case Deliver(k) => k in c.watchers && c.watchers[k].inbox > 0
    case Take(k) => k in c.watchers && c.watchers[k].slot && c.watchers[k].reload.Idle?
    case Load(k) => k in c.watchers && c.watchers[k].reload.Loading?
    case LoadFailed(k) => k in c.watchers && c.watchers[k].reload.Loading?
    case Restore(k) => k in c.watchers && c.watchers[k].reload.Restoring?
    case Listen(k) => k in c.watchers
    case Stop(k) => k in c.watchers
  }

  /** What a step does to the store it concerns. */
  function Moved<S>(w: Watcher<S>, stored: S, s: Step<S>): Watcher<S> {
    match s
    case Change(_, state) => w.(local := state, dirty := true)
    case SetOwn(_) => w.(dirty := false)
    case Deliver(_) =>
      // a full slot already stands for this message
      if w.inbox == 0 then w
      else if w.listening then w.(inbox := w.inbox - 1, slot := true)
      else w.(inbox := w.inbox - 1, missed := true)
    case Take(_) => w.(slot := false, reload := Loading)
    case Load(_) => w.(reload := Restoring(stored), missed := false)
    case LoadFailed(_) => w.(reload := Idle)
    case Restore(_) => if w.reload.Restoring? then w.(local := w.reload.snapshot, dirty := false, reload := Idle) else w
    case Listen(_) => w.(listening := true)
    case _ => w
  }

  function Announced<S>(watchers: map<nat, Watcher<S>>): map<nat, Watcher<S>> {
    map k | k in watchers :: watchers[k].(inbox := watchers[k].inbox + 1)
  }

  /** A new snapshot is stored; its announcement is still to come for everyone. */
  function Renewed<S>(watchers: map<nat, Watcher<S>>): map<nat, Watcher<S>> {
    map k | k in watchers :: watchers[k].(missed := false)
  }

  function Next<S>(c: Cluster<S>, s: Step<S>): Cluster<S> {
    if !Enabled(c, s) then c
    else match s
      case SetElsewhere(snapshot) => Cluster(snapshot, c.publishing + 1, Renewed(c.watchers))
      case Publish => c.(publishing := c.publishing - 1, watchers := Announced(c.watchers))
      case PublishLost => c.(publishing := c.publishing - 1)
      case Start(k) => c.(watchers := c.watchers[k := Watcher(c.stored, false, false, false, 0, false, Idle)])
      case Stop(k) => c.(watchers := c.watchers - {k})
      case SetOwn(k) =>
        Cluster(c.watchers[k].local, c.publishing + 1, Renewed(c.watchers[k := Moved(c.watchers[k], c.stored, s)]))
      case _ => c.(watchers := c.watchers[s.k := Moved(c.watchers[s.k], c.stored, s)])
  }

  function Execute<S>(c: Cluster<S>, steps: seq<Step<S>>): Cluster<S>
    decreases |steps|
  {
    if steps == [] then c else Execute(Next(c, steps[0]), steps[1..])
  }

  // ------------------------------------------------------------- convergence

  /** A notification that will lead to another reload. */
  ghost predicate Coming<S>(c: Cluster<S>, w: Watcher<S>) { c.publishing > 0 || w.inbox > 0 || w.slot }

  ghost predicate Promised<S>(c: Cluster<S>, w: Watcher<S>) {
    Coming(c, w) || w.reload.Loading? || w.reload == Restoring(c.stored)
  }

  /** A store is up to date, has changes of its own, or will reload; and a
      reload that carries an outdated snapshot will be followed by another. */
  ghost predicate Following<S>(c: Cluster<S>, w: Watcher<S>) {
    w.missed ||
    ((w.dirty || w.local == c.stored || Promised(c, w)) &&
     (w.reload.Restoring? && w.reload.snapshot != c.stored ==> Coming(c, w)))
  }

  ghost predicate AllFollow<S>(c: Cluster<S>) { forall k :: k in c.watchers ==> Following(c, c.watchers[k]) }

  ghost predicate Fault<S>(s: Step<S>) { s.PublishLost? || s.LoadFailed? }

  lemma StepFollows<S>(c: Cluster<S>, s: Step<S>)
    requires AllFollow(c) && !Fault(s)
    ensures AllFollow(Next(c, s))
  {
    var c' := Next(c, s);
    forall k | k in c'.watchers ensures Following(c', c'.watchers[k]) {
      if k in c.watchers { assert Following(c, c.watchers[k]); }
    }
  }

  lemma {:induction false} RunFollows<S>(c: Cluster<S>, steps: seq<Step<S>>)
    requires AllFollow(c) && forall s <- steps :: !Fault(s)
    ensures AllFollow(Execute(c, steps))
    decreases |steps|
  {
    if steps != [] {
      StepFollows(c, steps[0]);
      RunFollows(Next(c, steps[0]), steps[1..]);
    }
  }

  /** No save is between Set and Publish, and this store has nothing left to do. */
  ghost predicate Quiet<S>(c: Cluster<S>, k: nat) {
    k in c.watchers && c.publishing == 0 && c.watchers[k].inbox == 0 && !c.watchers[k].slot
      && c.watchers[k].reload.Idle?
  }

  /** Every quiet store without unsaved changes, and for which the last
      announcement was not dropped before it was listening, holds what was last Set. */
  ghost predicate Converged<S>(c: Cluster<S>) {
    forall k :: Quiet(c, k) && !c.watchers[k].dirty && !c.watchers[k].missed ==> c.watchers[k].local == c.stored
  }

  ghost predicate Synced<S>(c: Cluster<S>) {
    forall k :: k in c.watchers ==> c.watchers[k].local == c.stored && c.watchers[k].reload.Idle?
  }

  lemma FollowingConverges<S>(c: Cluster<S>)
    requires AllFollow(c)
    ensures Converged(c)
  {
    forall k | Quiet(c, k) && !c.watchers[k].dirty && !c.watchers[k].missed ensures c.watchers[k].local == c.stored {
      assert Following(c, c.watchers[k]);
    }
  }

  /** From a synced start every reachable state is converged, although messages
      coalesce and a Set can fall between a Load and its restore. */
  lemma Convergence<S>(c: Cluster<S>, steps: seq<Step<S>>)
    requires Synced(c) && forall s <- steps :: !Fault(s)
    ensures Converged(Execute(c, steps))
  {
    RunFollows(c, steps);
    FollowingConverges(Execute(c, steps));
  }

  // ------------------------------------------------- stores that are listening

  /** The store is listening and has not lost an announcement. */
  ghost predicate Attentive<S>(c: Cluster<S>, k: nat) {
    k in c.watchers ==> c.watchers[k].listening && !c.watchers[k].missed
  }

  lemma {:induction false} StaysAttentive<S>(c: Cluster<S>, steps: seq<Step<S>>, k: nat)
    requires Attentive(c, k) && Start(k) !in steps
    ensures Attentive(Execute(c, steps), k)
    decreases |steps|
  {
    if steps != [] {
      assert steps[0] in steps;
      assert Attentive(Next(c, steps[0]), k);
      StaysAttentive(Next(c, steps[0]), steps[1..], k);
    }
  }

  /** A store that was listening at the synced start is, whenever it is quiet and
      has no unsaved changes, at what was last Set. */
  lemma ListenersConverge<S>(c: Cluster<S>, steps: seq<Step<S>>, k: nat)
    requires Synced(c) && Attentive(c, k) && (forall s <- steps :: !Fault(s)) && Start(k) !in steps
    ensures var end := Execute(c, steps);
            Quiet(end, k) && !end.watchers[k].dirty ==> end.watchers[k].local == end.stored
  {
    Convergence(c, steps);
    StaysAttentive(c, steps, k);
  }

  /** Faults heal for every store that is listening when the healing Set is made,
      whatever it missed before. */
  lemma ListenersHeal<S>(c: Cluster<S>, before: seq<Step<S>>, snapshot: S, after: seq<Step<S>>, k: nat)
    requires (forall s <- after :: !Fault(s)) && Start(k) !in after
    requires var mid := Execute(c, before); k in mid.watchers ==> mid.watchers[k].listening
    ensures var end := Execute(c, before + ([SetElsewhere(snapshot)] + after));
            Quiet(end, k) && !end.watchers[k].dirty ==> end.watchers[k].local == end.stored
  {
    SelfStabilizing(c, before, snapshot, after);
    ExecuteConcat(c, before, [SetElsewhere(snapshot)] + after);
    Front(Execute(c, before), SetElsewhere(snapshot), after);
    StaysAttentive(Next(Execute(c, before), SetElsewhere(snapshot)), after, k);
  }

  lemma {:induction false} ExecuteConcat<S>(c: Cluster<S>, a: seq<Step<S>>, b: seq<Step<S>>)
    ensures Execute(c, a + b) == Execute(Execute(c, a), b)
    decreases |a|
  {
    if a == [] {
      assert a + b == b;
    } else {
      assert (a + b)[1..] == a[1..] + b;
      ExecuteConcat(Next(c, a[0]), a[1..], b);
    }
  }

  /** Faults heal: from any state at all, after any steps, one further Set
      followed by fault-free steps converges again. */
  lemma SelfStabilizing<S>(c: Cluster<S>, before: seq<Step<S>>, snapshot: S, after: seq<Step<S>>)
    requires forall s <- after :: !Fault(s)
    ensures Converged(Execute(c, before + ([SetElsewhere(snapshot)] + after)))
  {
    var mid := Execute(c, before);
    ExecuteConcat(c, before, [SetElsewhere(snapshot)] + after);
    assert ([SetElsewhere(snapshot)] + after)[1..] == after;
    var saved := Next(mid, SetElsewhere(snapshot));
    RunFollows(saved, after);
    FollowingConverges(Execute(saved, after));
  }

  /** A quiet cluster in which a save is announced reaches every listening store:
      its own steps bring the store to the new snapshot. */
  lemma Propagation<S>(c: Cluster<S>, k: nat, snapshot: S)
    requires Quiet(c, k) && c.watchers[k].listening
    ensures var steps := [SetElsewhere(snapshot)]
      + ([Publish] + ([Deliver(k)] + ([Take(k)] + ([Load(k)] + [Restore(k)]))));
            var end := Execute(c, steps);
            Quiet(end, k) && end.stored == snapshot && end.watchers[k].local == snapshot
  {
    var c1 := Next(c, SetElsewhere(snapshot));
    var c2 := Next(c1, Publish);
    assert c2.watchers[k] == c.watchers[k].(inbox := 1, missed := false);
    OneReload(c2, k);
    Front(c, SetElsewhere(snapshot), [Publish] + ([Deliver(k)] + ([Take(k)] + ([Load(k)] + [Restore(k)]))));
    Five(c1, Publish, Deliver(k), Take(k), Load(k), Restore(k));
  }

  /** One message, from its delivery to the restore. */
  lemma OneReload<S>(c: Cluster<S>, k: nat)
    requires k in c.watchers && c.watchers[k].listening && c.publishing == 0
    requires c.watchers[k].inbox == 1 && !c.watchers[k].slot && c.watchers[k].reload.Idle?
    ensures var end := Next(Next(Next(Next(c, Deliver(k)), Take(k)), Load(k)), Restore(k));
            Quiet(end, k) && end.stored == c.stored && end.watchers[k].local == c.stored
  {
    var c1 := Next(c, Deliver(k));
    assert c1.watchers[k] == c.watchers[k].(inbox := 0, slot := true);
    var c2 := Next(c1, Take(k));
    assert c2.watchers[k] == c.watchers[k].(inbox := 0, slot := false, reload := Loading);
    var c3 := Next(c2, Load(k));
    assert c3.watchers[k] == c.watchers[k].(inbox := 0, slot := false, reload := Restoring(c.stored), missed := false);
  }

  lemma Five<S>(c: Cluster<S>, s1: Step<S>, s2: Step<S>, s3: Step<S>, s4: Step<S>, s5: Step<S>)
    ensures Execute(c, [s1] + ([s2] + ([s3] + ([s4] + [s5])))) == Next(Next(Next(Next(Next(c, s1), s2), s3), s4), s5)
  {
    Front(c, s1, [s2] + ([s3] + ([s4] + [s5])));
    Front(Next(c, s1), s2, [s3] + ([s4] + [s5]));
    Front(Next(Next(c, s1), s2), s3, [s4] + [s5]);
    Front(Next(Next(Next(c, s1), s2), s3), s4, [s5]);
    assert [s5] == [s5] + [];
    Front(Next(Next(Next(Next(c, s1), s2), s3), s4), s5, []);
  }

  lemma Front<S>(c: Cluster<S>, s: Step<S>, rest: seq<Step<S>>)
    ensures Execute(c, [s] + rest) == Execute(Next(c, s), rest)
  {
    assert ([s] + rest)[1..] == rest;
  }

  // ---------------------------------------------------- why the conditions

  /** A save that is stored but not announced leaves quiet stores behind. */
  lemma LostPublishIsNotSeen<S>(c: Cluster<S>, k: nat, snapshot: S)
    requires Quiet(c, k) && c.watchers[k].local != snapshot
    ensures var end := Execute(c, [SetElsewhere(snapshot)] + [PublishLost]);
            Quiet(end, k) && end.watchers[k].local != end.stored && end.watchers[k] == c.watchers[k].(missed := false)
  {
    Front(c, SetElsewhere(snapshot), [PublishLost]);
    var lost: Step<S> := PublishLost;
    assert [lost] == [lost] + [];
    Front(Next(c, SetElsewhere(snapshot)), lost, []);
  }

  /** A store that is starting restores first and listens afterwards: a save
      announced in between is dropped, and the store stays behind. */
  lemma StartupRace<S>(c: Cluster<S>, k: nat, snapshot: S)
    requires k !in c.watchers && c.publishing == 0 && c.stored != snapshot
    ensures var steps := [Start(k)] + ([SetElsewhere(snapshot)] + ([Publish] + ([Deliver(k)] + [Listen(k)])));
            var end := Execute(c, steps);
            Quiet(end, k) && end.watchers[k].listening && !end.watchers[k].dirty && end.watchers[k].local != end.stored
  {
    var c1 := Next(c, Start(k));
    var c2 := Next(c1, SetElsewhere(snapshot));
    var c3 := Next(c2, Publish);
    assert c3.watchers[k] == c1.watchers[k].(inbox := 1);
    var c4 := Next(c3, Deliver(k));
    var c5 := Next(c4, Listen(k));
    Five(c, Start(k), SetElsewhere(snapshot), Publish, Deliver(k), Listen(k));
  }

  // ------------------------------------------------------------ own changes

  /** Nothing but reloads touches this store: it neither changes, saves nor restarts. */
  ghost predicate OnlyReloads<S>(steps: seq<Step<S>>, k: nat) {
    forall s <- steps :: s != Stop(k) && s != SetOwn(k) && !(s.Change? && s.k == k)
  }

  /** Nobody saves: what is stored stays what it is. */
  ghost predicate NoSaves<S>(steps: seq<Step<S>>) { forall s <- steps :: !s.SetElsewhere? && !s.SetOwn? }

  /** No reload that would put another state in this store's place has loaded, is
      loading or is on its way. */
  ghost predicate Undisturbed<S>(c: Cluster<S>, w: Watcher<S>, state: S) {
    && (w.reload.Restoring? ==> w.reload.snapshot == state)
    && (c.stored == state || (!w.reload.Loading? && !Coming(c, w)))
  }

  ghost predicate Holds<S>(c: Cluster<S>, k: nat, state: S) {
    k in c.watchers && c.watchers[k].local == state && Undisturbed(c, c.watchers[k], state)
  }

  lemma {:induction false} StaysUndisturbed<S>(c: Cluster<S>, steps: seq<Step<S>>, k: nat, state: S)
    requires Holds(c, k, state) && OnlyReloads(steps, k) && NoSaves(steps)
    ensures Holds(Execute(c, steps), k, state)
    decreases |steps|
  {
    if steps != [] {
      assert steps[0] in steps;
      StaysUndisturbed(Next(c, steps[0]), steps[1..], k, state);
    }
  }

  /** How far a store is from taking over what is stored. */
  ghost function Distance<S>(c: Cluster<S>, w: Watcher<S>): nat {
    if w.reload.Loading? then 1
    else if w.reload.Restoring? then (if w.reload.snapshot == c.stored then 0 else 7)
    else if w.slot then 2
    else if w.inbox > 0 then (if w.listening then 3 else 4)
    else if c.publishing > 0 then 5
    else 6
  }

  /** A promised reload can always come next, whatever else is going on. */
  lemma {:induction false} Overtakes<S>(c: Cluster<S>, k: nat) returns (steps: seq<Step<S>>)
    requires k in c.watchers && Promised(c, c.watchers[k])
    ensures OnlyReloads(steps, k) && NoSaves(steps)
    ensures var end := Execute(c, steps);
            k in end.watchers && end.stored == c.stored && end.watchers[k].local == c.stored
    decreases Distance(c, c.watchers[k])
  {
    var w := c.watchers[k];
    if w.reload == Restoring(c.stored) {
      steps := [Restore(k)];
      assert steps[1..] == [];
    } else {
      var s := Nearer(c, w, k);
      var rest := Overtakes(Next(c, s), k);
      steps := [s] + rest;
      Front(c, s, rest);
    }
  }

  function Nearer<S>(c: Cluster<S>, w: Watcher<S>, k: nat): Step<S> {
    if w.reload.Loading? then Load(k)
    else if w.reload.Restoring? then Restore(k)
    else if w.slot then Take(k)
    else if w.inbox > 0 then (if w.listening then Deliver(k) else Listen(k))
    else Publish
  }

  /** The store's next save, after these steps, writes this state. */
  ghost predicate Reaches<S>(c: Cluster<S>, steps: seq<Step<S>>, k: nat, state: S) {
    Next(Execute(c, steps), SetOwn(k)).stored == state
  }

  /** A change made in memory reaches the repository with the store's next save,
      whatever reloads come in between, if and only if none that matters was under
      way or announced when it was made. */
  lemma ChangeReachesRepository<S>(c: Cluster<S>, k: nat, state: S)
    requires k in c.watchers
    ensures var changed := Next(c, Change(k, state));
            (forall between :: OnlyReloads(between, k) && NoSaves(between) ==> Reaches(changed, between, k, state))
            <==> Undisturbed(c, c.watchers[k], state)
  {
    var changed := Next(c, Change(k, state));
    var w := changed.watchers[k];
    if Undisturbed(c, c.watchers[k], state) {
      forall between: seq<Step<S>> | OnlyReloads(between, k) && NoSaves(between)
        ensures Reaches(changed, between, k, state)
      {
        StaysUndisturbed(changed, between, k, state);
      }
    } else if w.reload.Restoring? && w.reload.snapshot != state {
      var reload: seq<Step<S>> := [Restore(k)];
      assert reload[1..] == [];
      assert Execute(changed, reload) == Next(changed, reload[0]);
      assert !Reaches(changed, reload, k, state);
    } else {
      var reload := Overtakes(changed, k);
      assert !Reaches(changed, reload, k, state);
    }
  }

  /** Whatever was announced before, a save by someone else can always overtake it. */
  lemma AnySaveOvertakes<S>(c: Cluster<S>, k: nat, state: S, other: S) returns (between: seq<Step<S>>)
    requires k in c.watchers && other != state
    ensures OnlyReloads(between, k) && Reaches(Next(c, Change(k, state)), between, k, other)
  {
    var changed := Next(c, Change(k, state));
    var saved := Next(changed, SetElsewhere(other));
    var reload := Overtakes(saved, k);
    between := [SetElsewhere(other)] + reload;
    Front(changed, SetElsewhere(other), reload);
  }
}
