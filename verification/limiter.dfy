/** The sliding-window connection limit, with its attempts compacted in place. */
module Limiter {

  const HOUR: int := 3_600_000_000_000

  /** The attempts later than the cutoff, in order. */
  function Kept(attempts: seq<int>, cutoff: int): seq<int> {
    if attempts == [] then []
    else Kept(attempts[..|attempts| - 1], cutoff) +
         (if attempts[|attempts| - 1] > cutoff then [attempts[|attempts| - 1]] else [])
  }

  /** One attempt: what is remembered, and whether it is accepted. */
  function Attempt(attempts: seq<int>, now: int, max: nat): (seq<int>, bool) {
    var kept := Kept(attempts, now - HOUR);
    if |kept| >= max then (kept, false) else (kept + [now], true)
  }

  /** A slice: the first `len` elements of shared storage. */
  datatype Slice = Slice(storage: array<int>, len: nat)
  {
    ghost predicate Ok()
      reads storage
    {
      len <= storage.Length
    }

    ghost function Contents(): seq<int>
      requires Ok()
      reads storage
    {
      storage[..len]
    }
  }

  lemma {:induction false} KeptLength(attempts: seq<int>, cutoff: int)
    ensures |Kept(attempts, cutoff)| <= |attempts|
  {
    if attempts != [] { KeptLength(attempts[..|attempts| - 1], cutoff); }
  }

  /** The positions of the attempts later than the cutoff. */
  ghost function Recent(attempts: seq<int>, cutoff: int): set<int> {
    set i | 0 <= i < |attempts| && attempts[i] > cutoff
  }

  /** As many as are later than the cutoff ... */
  lemma {:induction false} KeptCounts(attempts: seq<int>, cutoff: int)
    ensures |Kept(attempts, cutoff)| == |Recent(attempts, cutoff)|
  {
    if attempts != [] {
      var n := |attempts| - 1;
      KeptCounts(attempts[..n], cutoff);
      var before := Recent(attempts[..n], cutoff);
      assert Recent(attempts, cutoff) == if attempts[n] > cutoff then before + {n} else before;
    }
  }

  /** ... and each as often as before. */
  lemma {:induction false} KeptTimes(attempts: seq<int>, cutoff: int, x: int)
    ensures multiset(Kept(attempts, cutoff))[x] == if x > cutoff then multiset(attempts)[x] else 0
  {
    if attempts != [] {
      var n := |attempts| - 1;
      KeptTimes(attempts[..n], cutoff, x);
      assert attempts == attempts[..n] + [attempts[n]];
    }
  }

  lemma AttemptExactly(attempts: seq<int>, now: int, max: nat)
    ensures var (after, ok) := Attempt(attempts, now, max);
            && (ok <==> |Recent(attempts, now - 3_600_000_000_000)| < max)
            && |after| == |Recent(attempts, now - 3_600_000_000_000)| + (if ok then 1 else 0)
            && (forall x :: multiset(after)[x] ==
                  (if x > now - 3_600_000_000_000 then multiset(attempts)[x] else 0) +
                  (if ok && x == now then 1 else 0))
  {
    KeptCounts(attempts, now - HOUR);
    forall x
      ensures multiset(Kept(attempts, now - HOUR))[x] == if x > now - HOUR then multiset(attempts)[x] else 0
    {
      KeptTimes(attempts, now - HOUR, x);
    }
  }

  /** And in their order: filtering goes attempt by attempt. */
  lemma {:induction false} KeptInOrder(a: seq<int>, b: seq<int>, cutoff: int)
    ensures Kept(a + b, cutoff) == Kept(a, cutoff) + Kept(b, cutoff)
    decreases |b|
  {
    if b == [] {
      assert a + b == a;
    } else {
      var n := |b| - 1;
      assert (a + b)[..|a| + n] == a + b[..n];
      KeptInOrder(a, b[..n], cutoff);
    }
  }

  /** Filter a slice into its own storage: writes never overtake reads. */
  method CompactInPlace(attempts: Slice, cutoff: int) returns (kept: Slice)
    requires attempts.Ok()
    modifies attempts.storage
    ensures kept.storage == attempts.storage && kept.len <= attempts.len && kept.Ok()
    ensures kept.Contents() == Kept(old(attempts.Contents()), cutoff)
  {
    var storage := attempts.storage;
    ghost var before := attempts.Contents();
    var n := 0;
    for i := 0 to attempts.len
      invariant n <= i
      invariant storage[..n] == Kept(before[..i], cutoff)
      invariant storage[i..attempts.len] == before[i..]
    {
      var attempt := storage[i];
      assert attempt == storage[i..attempts.len][0] == before[i];
      assert before[..i + 1][..i] == before[..i];
      ghost var rest := storage[i..attempts.len];
      if attempt > cutoff {
        storage[n] := attempt;
        assert storage[..n + 1] == storage[..n] + [attempt];
        n := n + 1;
      }
      assert storage[i + 1..attempts.len] == rest[1..] == before[i + 1..];
    }
    assert before[..attempts.len] == before;
    return Slice(storage, n);
  }

  /** Append, in place while there is room and into larger storage otherwise. */
  method Append(s: Slice, x: int) returns (t: Slice)
    requires s.Ok()
    modifies s.storage
    ensures t.Ok() && t.Contents() == old(s.Contents()) + [x]
    ensures t.storage == s.storage || fresh(t.storage)
  {
    var storage := s.storage;
    if s.len == storage.Length {
      storage := new int[2 * s.len + 1];
      for i := 0 to s.len
        invariant storage[..i] == s.storage[..i]
        invariant s.storage[..] == old(s.storage[..])
      {
        storage[i] := s.storage[i];
        assert storage[..i + 1] == storage[..i] + [storage[i]];
      }
    }
    storage[s.len] := x;
    return Slice(storage, s.len + 1);
  }

  class ConnectionLimiter {
    const maxConnections: nat
    var connections: map<string, Slice>

    ghost function Storage(): set<object>
      reads this
    {
      set key | key in connections :: connections[key].storage
    }

    /** Slices of different keys do not share storage. */
    ghost predicate Valid()
      reads this, Storage()
    {
      && (forall key :: key in connections ==> connections[key].Ok())
      && (forall a, b :: a in connections && b in connections && a != b ==>
        connections[a].storage != connections[b].storage)
    }

    ghost function Attempts(key: string): seq<int>
      requires Valid()
      reads this, Storage()
    {
      if key in connections then connections[key].Contents() else []
    }

    constructor (maxConnections: nat)
      ensures Valid() && this.maxConnections == maxConnections && connections == map[]
    {
      this.maxConnections, connections := maxConnections, map[];
    }

    method AllowConnection(key: string, now: int) returns (ok: bool)
      requires Valid()
      modifies this, Storage()
      ensures Valid()
      ensures (Attempts(key), ok) == Attempt(old(Attempts(key)), now, maxConnections)
      ensures forall other :: other != key ==> Attempts(other) == old(Attempts(other))
      ensures ok <==> |Recent(old(Attempts(key)), now - 3_600_000_000_000)| < maxConnections
      ensures |Attempts(key)| == |Recent(old(Attempts(key)), now - 3_600_000_000_000)| + (if ok then 1 else 0)
      ensures forall x :: multiset(Attempts(key))[x] ==
                (if x > now - 3_600_000_000_000 then multiset(old(Attempts(key)))[x] else 0) +
                (if ok && x == now then 1 else 0)
    {
      AttemptExactly(Attempts(key), now, maxConnections);
      ok := Admit(key, now);
    }

    method Admit(key: string, now: int) returns (ok: bool)
      requires Valid()
      modifies this, Storage()
      ensures Valid()
      ensures (Attempts(key), ok) == Attempt(old(Attempts(key)), now, maxConnections)
      ensures forall other :: other != key ==> Attempts(other) == old(Attempts(other))
      ensures forall o :: o in Storage() ==> o in old(Storage()) || fresh(o)
    {
      var cutoff := now - HOUR;
      var attempts: Slice;
      if key in connections {
        attempts := connections[key];
      } else {
        var none := new int[0];
        attempts := Slice(none, 0);
      }
      var kept := CompactInPlace(attempts, cutoff);
      if kept.len >= maxConnections {
        connections := connections[key := kept];
        return false;
      }
      var more := Append(kept, now);
      connections := connections[key := more];
      return true;
    }
  }

  // --------------------------------------------------------------- whole runs

  /** What one key's list and the log of accepted attempts become. */
  function Run(times: seq<int>, max: nat): (seq<int>, seq<int>) {
    if times == [] then ([], [])
    else
      var (attempts, log) := Run(times[..|times| - 1], max);
      var now := times[|times| - 1];
      var (attempts', ok) := Attempt(attempts, now, max);
      (attempts', if ok then log + [now] else log)
  }

  ghost predicate NonDecreasing(s: seq<int>) { forall i, j :: 0 <= i < j < |s| ==> s[i] <= s[j] }

  /** `attempts` is what is left of the log, and all that was dropped is at least
      an hour before `now`. */
  ghost predicate Tail(attempts: seq<int>, log: seq<int>, now: int) {
    && |attempts| <= |log| && attempts == log[|log| - |attempts|..]
    && (forall i :: 0 <= i < |log| - |attempts| ==> log[i] <= now - HOUR)
    && (forall i :: 0 <= i < |log| ==> log[i] <= now)
  }

  /** Any max + 1 accepted attempts in a row take at least an hour. */
  ghost predicate Spread(log: seq<int>, max: nat) {
    forall i :: 0 <= i && i + max < |log| ==> log[i + max] - log[i] >= HOUR
  }

  /** Filtering a non-decreasing list cuts a front off it. */
  lemma {:induction false} KeptIsSuffix(attempts: seq<int>, cutoff: int) returns (d: nat)
    requires NonDecreasing(attempts)
    ensures d <= |attempts| && Kept(attempts, cutoff) == attempts[d..]
    ensures forall i :: 0 <= i < d ==> attempts[i] <= cutoff
  {
    if attempts == [] {
      d := 0;
    } else {
      var n := |attempts| - 1;
      d := KeptIsSuffix(attempts[..n], cutoff);
      if attempts[n] > cutoff {
        assert attempts[d..] == attempts[..n][d..] + [attempts[n]];
      } else {
        NothingKept(attempts, cutoff);
        d := |attempts|;
      }
    }
  }

  lemma {:induction false} NothingKept(attempts: seq<int>, cutoff: int)
    requires forall i :: 0 <= i < |attempts| ==> attempts[i] <= cutoff
    ensures Kept(attempts, cutoff) == []
  {
    if attempts != [] { NothingKept(attempts[..|attempts| - 1], cutoff); }
  }

  lemma TailShrink(attempts: seq<int>, log: seq<int>, before: int, now: int, d: nat)
    requires Tail(attempts, log, before) && before <= now
    requires d <= |attempts| && forall i :: 0 <= i < d ==> attempts[i] <= now - HOUR
    ensures Tail(attempts[d..], log, now)
  {
    var gone := |log| - |attempts|;
    assert attempts[d..] == log[gone + d..];
    forall i | 0 <= i < gone + d ensures log[i] <= now - HOUR { if i >= gone { assert log[i] == attempts[i - gone]; } }
  }

  lemma TailGrow(kept: seq<int>, log: seq<int>, now: int)
    requires Tail(kept, log, now)
    ensures Tail(kept + [now], log + [now], now)
  {
    var k := |log| - |kept|;
    assert (log + [now])[k..] == log[k..] + [now];
  }

  lemma SpreadGrows(kept: seq<int>, log: seq<int>, now: int, max: nat)
    requires Tail(kept, log, now) && Spread(log, max) && |kept| < max
    ensures Spread(log + [now], max) && (NonDecreasing(log) ==> NonDecreasing(log + [now]))
  {
    var log' := log + [now];
    forall i | 0 <= i && i + max < |log'| ensures log'[i + max] - log'[i] >= HOUR {
      if i + max == |log| { assert i < |log| - |kept|; } else { assert log'[i + max] == log[i + max]; }
    }
  }

  lemma AttemptKeeps(attempts: seq<int>, log: seq<int>, before: int, now: int, max: nat)
    requires Tail(attempts, log, before) && NonDecreasing(log) && Spread(log, max) && before <= now
    ensures var (attempts', ok) := Attempt(attempts, now, max);
            var log' := if ok then log + [now] else log;
            Tail(attempts', log', now) && NonDecreasing(log') && Spread(log', max)
  {
    var d := KeptIsSuffix(attempts, now - HOUR);
    TailShrink(attempts, log, before, now, d);
    var kept := attempts[d..];
    if |kept| < max {
      TailGrow(kept, log, now);
      SpreadGrows(kept, log, now, max);
    }
  }

  lemma {:induction false} RunKeeps(times: seq<int>, max: nat)
    requires NonDecreasing(times)
    ensures var (attempts, log) := Run(times, max);
            && NonDecreasing(log) && Spread(log, max)
            && (if times == [] then attempts == [] && log == [] else Tail(attempts, log, times[|times| - 1]))
  {
    if times != [] {
      var n := |times| - 1;
      RunKeeps(times[..n], max);
      var (attempts, log) := Run(times[..n], max);
      AttemptKeeps(attempts, log, if n == 0 then times[n] else times[n - 1], times[n], max);
    }
  }

  /** Accepted attempts in the half-open hour from `from`. */
  function InHour(log: seq<int>, from: int): nat {
    if log == [] then 0
    else InHour(log[..|log| - 1], from) + (if from <= log[|log| - 1] < from + HOUR then 1 else 0)
  }

  lemma {:induction false} InHourSplit(log: seq<int>, from: int, k: nat)
    requires k <= |log| && forall i :: 0 <= i < k ==> log[i] < from
    ensures InHour(log, from) <= |log| - k
  {
    if |log| > k {
      InHourSplit(log[..|log| - 1], from, k);
    } else if log != [] {
      InHourSplit(log[..|log| - 1], from, k - 1);
    }
  }

  lemma {:induction false} SpreadBounds(log: seq<int>, max: nat, from: int)
    requires NonDecreasing(log) && Spread(log, max)
    ensures InHour(log, from) <= max
  {
    if log != [] {
      var n := |log| - 1;
      if from <= log[n] < from + HOUR && n >= max {
        forall i | 0 <= i < n - max + 1
          ensures log[i] < from
        {
          assert log[i] <= log[n - max] && log[n] - log[n - max] >= HOUR;
        }
        InHourSplit(log, from, n - max + 1);
      } else if n >= max {
        SpreadBounds(log[..n], max, from);
      } else {
        InHourSplit(log, from, 0);
      }
    }
  }

  /** For non-decreasing times no half-open hour, wherever it starts, holds more
      than the maximum of accepted attempts. */
  lemma NeverMoreThanMax(times: seq<int>, max: nat, from: int)
    requires NonDecreasing(times)
    ensures InHour(Run(times, max).1, from) <= max
  {
    RunKeeps(times, max);
    SpreadBounds(Run(times, max).1, max, from);
  }

  /** And no fewer are accepted than that allows: for non-decreasing times an attempt
      is refused only if the maximum was accepted in the hour before it. */
  lemma AcceptsUnlessFull(times: seq<int>, now: int, max: nat)
    requires NonDecreasing(times + [now])
    ensures var (attempts, log) := Run(times, max);
            Attempt(attempts, now, max).1 <==> InHour(log, now - 3_600_000_000_000 + 1) < max
  {
    var (attempts, log) := Run(times, max);
    if times == [] { return; }
    var before := times[|times| - 1];
    assert (times + [now])[|times| - 1] == before && (times + [now])[|times|] == now;
    NonDecreasingFront(times, now);
    RunKeeps(times, max);
    RefusedOnlyWhenFull(attempts, log, before, now, max);
  }

  lemma RefusedOnlyWhenFull(attempts: seq<int>, log: seq<int>, before: int, now: int, max: nat)
    requires Tail(attempts, log, before) && NonDecreasing(log) && before <= now
    ensures Attempt(attempts, now, max).1 <==> InHour(log, now - 3_600_000_000_000 + 1) < max
  {
    var d := KeptIsSuffix(attempts, now - HOUR);
    TailShrink(attempts, log, before, now, d);
    var kept := attempts[d..];
    KeptIsLater(attempts, now - HOUR);
    var k := |log| - |kept|;
    forall i | k <= i < |log| ensures now - HOUR < log[i] <= now { assert log[i] == kept[i - k]; }
    InHourExactly(log, now - HOUR + 1, k);
  }

  lemma NonDecreasingFront(times: seq<int>, now: int)
    requires NonDecreasing(times + [now])
    ensures NonDecreasing(times)
  {
    forall i, j | 0 <= i < j < |times| ensures times[i] <= times[j] {
      assert (times + [now])[i] == times[i] && (times + [now])[j] == times[j];
    }
  }

  lemma {:induction false} KeptIsLater(attempts: seq<int>, cutoff: int)
    ensures forall i :: 0 <= i < |Kept(attempts, cutoff)| ==> Kept(attempts, cutoff)[i] > cutoff
  {
    if attempts != [] { KeptIsLater(attempts[..|attempts| - 1], cutoff); }
  }

  lemma {:induction false} InHourExactly(log: seq<int>, from: int, k: nat)
    requires k <= |log|
    requires forall i :: 0 <= i < k ==> log[i] < from
    requires forall i :: k <= i < |log| ==> from <= log[i] < from + HOUR
    ensures InHour(log, from) == |log| - k
  {
    if |log| > k {
      InHourExactly(log[..|log| - 1], from, k);
    } else if log != [] {
      InHourExactly(log[..|log| - 1], from, k - 1);
    }
  }

  function Zeros(n: nat): seq<int> {
    if n == 0 then [] else Zeros(n - 1) + [0]
  }

  lemma {:induction false} ZerosKept(n: nat)
    ensures |Zeros(n)| == n && Kept(Zeros(n), 0) == [] && Kept(Zeros(n), 0 - HOUR) == Zeros(n)
      && InHour(Zeros(n), 0) == n
  {
    if n > 0 {
      ZerosKept(n - 1);
      assert Zeros(n)[..n - 1] == Zeros(n - 1);
    }
  }

  lemma {:induction false} ZerosRun(n: nat, max: nat)
    requires n <= max
    ensures Run(Zeros(n), max) == (Zeros(n), Zeros(n))
  {
    ZerosKept(n);
    if n > 0 {
      ZerosRun(n - 1, max);
      ZerosKept(n - 1);
      assert Zeros(n)[..n - 1] == Zeros(n - 1);
      assert Attempt(Zeros(n - 1), 0, max) == (Zeros(n - 1) + [0], true);
    }
  }

  lemma RunAppend(times: seq<int>, now: int, max: nat)
    ensures var (attempts, log) := Run(times, max);
            var (attempts', ok) := Attempt(attempts, now, max);
            Run(times + [now], max) == (attempts', if ok then log + [now] else log)
  {
    assert (times + [now])[..|times|] == times;
  }

  /** Times must not go back: after the maximum at time 0 and one more an hour
      later, a clock reading half an hour lets a further attempt in. */
  lemma ClockGoingBack(max: nat)
    requires max >= 2
    ensures InHour(Run(Zeros(max) + [HOUR] + [HOUR / 2], max).1, 0) == max + 1
  {
    ZerosKept(max);
    ZerosRun(max, max);
    var later := Zeros(max) + [HOUR];
    RunAppend(Zeros(max), HOUR, max);
    assert HOUR - HOUR == 0 && Attempt(Zeros(max), HOUR, max) == ([] + [HOUR], true);
    var back := later + [HOUR / 2];
    RunAppend(later, HOUR / 2, max);
    assert [HOUR][..0] == [] && Kept([HOUR], HOUR / 2 - HOUR) == [HOUR];
    assert later[..max] == Zeros(max) && back[..max + 1] == later;
    assert InHour(later, 0) == max;
  }
}
