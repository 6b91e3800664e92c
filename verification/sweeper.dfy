/** Which identities a sweep renews, and how often it tries one. */
module Sweep {
  import opened Wrappers
  import opened Protocol
  import opened Sorting

  /** Some clock readings; nothing is assumed about their order. */
  datatype Round = Round(now: int, inventory: seq<Identity>)

  datatype Attempt = Attempt(id: string, at: int)

  /** `retryWindow`: a quarter of the interval, at least one nanosecond. */
  function RetryWindow(interval: nat): (w: nat)
    ensures w >= 1
  {
    if interval / 4 <= 0 then 1 else interval / 4
  }

  predicate BackingOff(last: map<string, int>, window: nat, id: string, now: int) {
    id in last && (now < last[id] || now - last[id] < window)
  }

  /** Renewed in this sweep, given the attempts so far. */
  predicate Due(last: map<string, int>, window: nat, v: Identity, now: int) {
    v.state == Active && ComputeUrgency(v, now) == Overdue && !BackingOff(last, window, v.id, now)
  }

  /** What one pass over the inventory selects and remembers. */
  datatype Pass = Pass(last: map<string, int>, candidates: seq<Identity>, skipped: nat)

  function Select(last: map<string, int>, window: nat, inventory: seq<Identity>, now: int): Pass {
    if inventory == [] then Pass(last, [], 0)
    else
      var before, v := Select(last, window, inventory[..|inventory| - 1], now), inventory[|inventory| - 1];
      if Due(before.last, window, v, now) then
        Pass(before.last[v.id := now], before.candidates + [v], before.skipped)
      else before.(skipped := before.skipped + 1)
  }

  class Sweeper {
    const interval: nat
    var lastAttempt: map<string, int>

    constructor (interval: nat)
      ensures this.interval == interval && lastAttempt == map[]
    {
      this.interval, lastAttempt := interval, map[];
    }

    /** Which identities this sweep renews, and what it remembers of them. */
    method SelectCandidates(identities: seq<Identity>, now: int) returns (candidates: seq<Identity>, skipped: nat)
      modifies `lastAttempt
      ensures Pass(lastAttempt, candidates, skipped) == Select(old(lastAttempt), RetryWindow(interval), identities, now)
      ensures |candidates| + skipped == |identities|
      ensures DistinctBy((v: Identity) => v.id, identities) ==>
              forall v :: v in candidates <==>
                && v in identities && v.state == Active && v.expiresAt <= now
                && !(v.id in old(lastAttempt) &&
                     (now < old(lastAttempt)[v.id] ||
                      now - old(lastAttempt)[v.id] < (if interval < 4 then 1 else interval / 4)))
      ensures forall id :: if exists v :: v in candidates && v.id == id
                           then id in lastAttempt && lastAttempt[id] == now
                           else (id in lastAttempt <==> id in old(lastAttempt)) &&
                                (id in lastAttempt ==> lastAttempt[id] == old(lastAttempt)[id])
    {
      Accounting(lastAttempt, RetryWindow(interval), identities, now);
      SelectedExactly(lastAttempt, RetryWindow(interval), identities, now);
      candidates, skipped := Walk(identities, now);
    }

    /** The loop itself. */
    method Walk(identities: seq<Identity>, now: int) returns (candidates: seq<Identity>, skipped: nat)
      modifies `lastAttempt
      ensures Pass(lastAttempt, candidates, skipped) == Select(old(lastAttempt), RetryWindow(interval), identities, now)
    {
      candidates, skipped := [], 0;
      var retryWindow := interval / 4;
      if retryWindow <= 0 { retryWindow := 1; }
      for i := 0 to |identities|
        invariant Pass(lastAttempt, candidates, skipped) == Select(old(lastAttempt), retryWindow, identities[..i], now)
      {
        var identity := identities[i];
        assert identities[..i + 1][..i] == identities[..i];
        if identity.state != Active || ComputeUrgency(identity, now) != Overdue {
          skipped := skipped + 1;
          continue;
        }
        if identity.id in lastAttempt {
          var last := lastAttempt[identity.id];
          if now < last || now - last < retryWindow {
            skipped := skipped + 1;
            continue;
          }
        }
        lastAttempt := lastAttempt[identity.id := now];
        candidates := candidates + [identity];
      }
      assert identities[..|identities|] == identities;
    }
  }

  // ------------------------------------------------------------ one selection

  /** Every listed identity is counted once, as considered or as skipped. */
  lemma {:induction false} Accounting(last: map<string, int>, window: nat, inventory: seq<Identity>, now: int)
    ensures var pass := Select(last, window, inventory, now); |pass.candidates| + pass.skipped == |inventory|
  {
    if inventory != [] { Accounting(last, window, inventory[..|inventory| - 1], now); }
  }

  lemma SelectedExactly(last: map<string, int>, window: nat, inventory: seq<Identity>, now: int)
    requires window >= 1
    ensures var pass := Select(last, window, inventory, now);
            && (DistinctBy((v: Identity) => v.id, inventory) ==>
                 forall v :: v in pass.candidates <==>
                   && v in inventory && v.state == Active && v.expiresAt <= now
                   && !(v.id in last && (now < last[v.id] || now - last[v.id] < window)))
            && (forall id :: if exists v :: v in pass.candidates && v.id == id
                             then id in pass.last && pass.last[id] == now
                             else (id in pass.last <==> id in last) && (id in pass.last ==> pass.last[id] == last[id]))
  {
    var pass := Select(last, window, inventory, now);
    if DistinctBy((v: Identity) => v.id, inventory) {
      forall v
        ensures v in pass.candidates <==>
                && v in inventory && v.state == Active && v.expiresAt <= now
                && !(v.id in last && (now < last[v.id] || now - last[v.id] < window))
      {
        CandidatesExact(last, window, inventory, now, v);
      }
    }
    forall id
      ensures if exists v :: v in pass.candidates && v.id == id
              then id in pass.last && pass.last[id] == now
              else (id in pass.last <==> id in last) && (id in pass.last ==> pass.last[id] == last[id])
    {
      Remembered(last, window, inventory, now, id);
    }
  }

  /** Only the candidates' attempts are remembered, at the reading of this sweep. */
  lemma {:induction false} Remembered(last: map<string, int>, window: nat, inventory: seq<Identity>, now: int,
      id: string)
    ensures var pass := Select(last, window, inventory, now);
            if exists v :: v in pass.candidates && v.id == id then id in pass.last && pass.last[id] == now
            else (id in pass.last <==> id in last) && (id in last ==> pass.last[id] == last[id])
  {
    if inventory != [] {
      var rest, v := inventory[..|inventory| - 1], inventory[|inventory| - 1];
      Remembered(last, window, rest, now, id);
      var before, pass := Select(last, window, rest, now), Select(last, window, inventory, now);
      assert forall w ::
        w in pass.candidates <==> w in before.candidates || (Due(before.last, window, v, now) && w == v);
    }
  }

  /** No identity is selected twice, even if it were listed twice; and every
      candidate was due before the sweep began. */
  lemma {:induction false} CandidatesDistinct(last: map<string, int>, window: nat, inventory: seq<Identity>, now: int)
    requires window >= 1
    ensures var pass := Select(last, window, inventory, now);
            DistinctBy((v: Identity) => v.id, pass.candidates)
            && forall v <- pass.candidates :: v in inventory && Due(last, window, v, now)
  {
    if inventory != [] {
      var rest, v := inventory[..|inventory| - 1], inventory[|inventory| - 1];
      CandidatesDistinct(last, window, rest, now);
      Remembered(last, window, rest, now, v.id);
      var before := Select(last, window, rest, now);
      if Due(before.last, window, v, now) {
        forall i | 0 <= i < |before.candidates| ensures before.candidates[i].id != v.id {
          assert before.candidates[i] in before.candidates;
          assert v.id in before.last && before.last[v.id] == now ==> BackingOff(before.last, window, v.id, now);
        }
      }
    }
  }

  /** With each identity listed once, as the store lists them, the candidates are
      exactly the active identities that have expired, but for those with a
      remembered attempt later than now or less than the window ago. */
  lemma CandidatesExact(last: map<string, int>, window: nat, inventory: seq<Identity>, now: int, v: Identity)
    requires window >= 1 && DistinctBy((v: Identity) => v.id, inventory)
    ensures v in Select(last, window, inventory, now).candidates <==>
            && v in inventory && v.state == Active && v.expiresAt <= now
            && !(v.id in last && (now < last[v.id] || now - last[v.id] < window))
  {
    DueExactly(last, window, inventory, now, v);
    UrgencyExactly(v, now);
  }

  lemma {:induction false} DueExactly(last: map<string, int>, window: nat, inventory: seq<Identity>, now: int,
      v: Identity)
    requires window >= 1 && DistinctBy((v: Identity) => v.id, inventory)
    ensures v in Select(last, window, inventory, now).candidates <==> v in inventory && Due(last, window, v, now)
  {
    CandidatesDistinct(last, window, inventory, now);
    if inventory != [] {
      var rest, u := inventory[..|inventory| - 1], inventory[|inventory| - 1];
      DueExactly(last, window, rest, now, v);
      CandidatesDistinct(last, window, rest, now);
      Remembered(last, window, rest, now, u.id);
      var before := Select(last, window, rest, now);
      assert forall w <- before.candidates :: w.id != u.id by {
        forall w | w in before.candidates ensures w.id != u.id {
          var i :| 0 <= i < |rest| && rest[i] == w;
        }
      }
      assert Due(before.last, window, u, now) <==> Due(last, window, u, now);
      assert inventory == rest + [u];
    }
  }

  // --------------------------------------------------------------- many sweeps

  function AttemptsOf(candidates: seq<Identity>, now: int): seq<Attempt> {
    seq(|candidates|, i requires 0 <= i < |candidates| => Attempt(candidates[i].id, now))
  }

  /** The memory and the log of attempts after a whole run of sweeps. */
  function Sweeps(window: nat, rounds: seq<Round>): (map<string, int>, seq<Attempt>) {
    if rounds == [] then (map[], [])
    else
      var (last, log) := Sweeps(window, rounds[..|rounds| - 1]);
      var round := rounds[|rounds| - 1];
      var pass := Select(last, window, round.inventory, round.now);
      (pass.last, log + AttemptsOf(pass.candidates, round.now))
  }

  /** Later attempts at one identity come at least a window later. */
  ghost predicate Spaced(window: nat, log: seq<Attempt>) {
    forall i, j :: 0 <= i < j < |log| && log[i].id == log[j].id ==> log[j].at >= log[i].at + window
  }

  /** No attempt is later than the remembered one. */
  ghost predicate Bounded(last: map<string, int>, log: seq<Attempt>) {
    forall a <- log :: a.id in last && a.at <= last[a.id]
  }

  lemma RoundSpaced(last: map<string, int>, window: nat, log: seq<Attempt>, round: Round)
    requires window >= 1 && Spaced(window, log) && Bounded(last, log)
    ensures var pass := Select(last, window, round.inventory, round.now);
            var log' := log + AttemptsOf(pass.candidates, round.now);
            Spaced(window, log') && Bounded(pass.last, log')
  {
    var pass := Select(last, window, round.inventory, round.now);
    var more := AttemptsOf(pass.candidates, round.now);
    var log' := log + more;
    CandidatesDistinct(last, window, round.inventory, round.now);
    forall i, j | 0 <= i < j < |log'| && log'[i].id == log'[j].id ensures log'[j].at >= log'[i].at + window {
      if j >= |log| {
        var v := pass.candidates[j - |log|];
        assert v in pass.candidates && Due(last, window, v, round.now);
        if i < |log| { assert log[i] in log; }
      }
    }
    forall a | a in log' ensures a.id in pass.last && a.at <= pass.last[a.id] {
      Remembered(last, window, round.inventory, round.now, a.id);
      if a in log {
        if v :| v in pass.candidates && v.id == a.id { assert Due(last, window, v, round.now); }
      } else {
        var i :| 0 <= i < |more| && more[i] == a;
        assert pass.candidates[i] in pass.candidates;
      }
    }
  }

  /** Whatever the clock does and whatever the inventories hold, a sweeper's
      attempts at one identity are at least the retry window apart, over any
      number of sweeps. */
  lemma {:induction false} Spacing(interval: nat, rounds: seq<Round>)
    ensures var (last, log) := Sweeps(RetryWindow(interval), rounds);
            && Spaced(RetryWindow(interval), log) && Bounded(last, log)
            && (forall i, j :: 0 <= i < j < |log| && log[i].id == log[j].id ==>
                 log[j].at - log[i].at >= (if interval < 4 then 1 else interval / 4))
  {
    if rounds != [] {
      Spacing(interval, rounds[..|rounds| - 1]);
      var (last, log) := Sweeps(RetryWindow(interval), rounds[..|rounds| - 1]);
      RoundSpaced(last, RetryWindow(interval), log, rounds[|rounds| - 1]);
    }
  }
}
