/** The sweep's worker pool: one feeder, several workers and a limiter shared with
    overlapping sweeps, in every interleaving. Candidates are named by position. */
module Workers {

  datatype Worker =
    | Waiting
    | Holding(job: nat)     // received a candidate, waits for a limiter slot
    | Rotating(job: nat)    // inside Store.Rotate
    | Reporting(job: nat, failed: bool)
    | Exited

  /** `n` candidates, of which the first `sent` were handed out. `started` logs the
      Rotate calls, `done` the jobs counted in the result, `dropped` those a
      canceled worker gave up; `others` are limiter slots of other sweeps. */
  datatype Pool = Pool(
    n: nat, sent: nat, closed: bool, canceled: bool, workers: seq<Worker>,
    capacity: nat, others: nat,
    rotated: nat, failures: seq<nat>,
    started: seq<nat>, done: set<nat>, dropped: set<nat>)

  datatype Step =
    | Hand(w: nat) | CloseJobs | Cancel
    | TakeSlot(w: nat) | GiveUp(w: nat) | Rotated(w: nat, failed: bool) | Report(w: nat) | Exit(w: nat)
    | OthersTake | OthersFree

  function SlotsUsed(workers: seq<Worker>): nat {
    if workers == [] then 0
    else SlotsUsed(workers[..|workers| - 1]) + (if workers[|workers| - 1].Rotating? then 1 else 0)
  }

  predicate Enabled(p: Pool, s: Step) {
    match s
    case Hand(w) => w < |p.workers| && p.workers[w].Waiting? && !p.closed && p.sent < p.n
    case CloseJobs => !p.closed && (p.sent == p.n || p.canceled)
    case Cancel => true
    case TakeSlot(w) => w < |p.workers| && p.workers[w].Holding? && SlotsUsed(p.workers) + p.others < p.capacity
    case GiveUp(w) => w < |p.workers| && p.workers[w].Holding? && p.canceled
    case Rotated(w, _) => w < |p.workers| && p.workers[w].Rotating?
    case Report(w) => w < |p.workers| && p.workers[w].Reporting?
    case Exit(w) => w < |p.workers| && p.workers[w].Waiting? && p.closed
    case OthersTake => SlotsUsed(p.workers) + p.others < p.capacity
    case OthersFree => p.others > 0
  }

  function Become(p: Pool, w: nat, state: Worker): Pool
    requires w < |p.workers|
  {
    p.(workers := p.workers[w := state])
  }

  function Next(p: Pool, s: Step): Pool {
    if !Enabled(p, s) then p
    else match s
      case Hand(w) => Become(p, w, Holding(p.sent)).(sent := p.sent + 1)
      case CloseJobs => p.(closed := true)
      case Cancel => p.(canceled := true)
      case TakeSlot(w) => Become(p, w, Rotating(p.workers[w].job)).(started := p.started + [p.workers[w].job])
      case GiveUp(w) => Become(p, w, Exited).(dropped := p.dropped + {p.workers[w].job})
      case Rotated(w, failed) => Become(p, w, Reporting(p.workers[w].job, failed))
      case Report(w) =>
        var job, p' := p.workers[w].job, Become(p, w, Waiting).(done := p.done + {p.workers[w].job});
        if p.workers[w].failed then p'.(failures := p.failures + [job]) else p'.(rotated := p.rotated + 1)
      case Exit(w) => Become(p, w, Exited)
      case OthersTake => p.(others := p.others + 1)
      case OthersFree => p.(others := p.others - 1)
  }

  function Execute(p: Pool, steps: seq<Step>): Pool
    decreases |steps|
  {
    if steps == [] then p else Execute(Next(p, steps[0]), steps[1..])
  }

  /** Before the first candidate is sent. */
  ghost predicate Opening(p: Pool) {
    && p.sent == 0 && !p.closed && !p.canceled && |p.workers| > 0 && p.others <= p.capacity
    && (forall w <- p.workers :: w.Waiting?)
    && p.rotated == 0 && p.failures == [] && p.started == [] && p.done == {} && p.dropped == {}
  }

  /** All workers have returned. */
  ghost predicate Finished(p: Pool) { forall w <- p.workers :: w.Exited? }

  // ---------------------------------------------------------------- the jobs

  predicate Busy(w: Worker) { w.Holding? || w.Rotating? || w.Reporting? }

  ghost predicate HeldBy(p: Pool, w: nat, job: nat) { w < |p.workers| && Busy(p.workers[w]) && p.workers[w].job == job }

  ghost predicate InFlight(p: Pool, job: nat) { exists w: nat :: HeldBy(p, w, job) }

  /** Every job handed out is in exactly one place. */
  ghost predicate JobOk(p: Pool, job: nat) {
    && (job < p.sent <==> job in p.done || job in p.dropped || InFlight(p, job))
    && !(job in p.done && job in p.dropped)
    && (InFlight(p, job) ==> job !in p.done && job !in p.dropped)
    && (forall v: nat, w: nat :: HeldBy(p, v, job) && HeldBy(p, w, job) ==> v == w)
  }

  ghost predicate JobsOk(p: Pool) { forall job: nat :: JobOk(p, job) }

  /** A started Rotate is still running, waiting to be reported or counted. */
  ghost predicate BegunOk(p: Pool) {
    && (forall i, j :: 0 <= i < j < |p.started| ==> p.started[i] != p.started[j])
    && (forall job <- p.started :: job < p.sent && job !in p.dropped)
    && (forall w: nat :: w < |p.workers| && p.workers[w].Holding? ==> p.workers[w].job !in p.started)
    && (forall w: nat :: w < |p.workers| && (p.workers[w].Rotating? || p.workers[w].Reporting?) ==>
      p.workers[w].job in p.started)
    && (forall job <- p.done :: job in p.started)
  }

  ghost predicate CountsOk(p: Pool) {
    && |p.done| == p.rotated + |p.failures|
    && (forall job <- p.failures :: job in p.done)
    && (p.dropped != {} ==> p.canceled)
    && (p.closed ==> p.sent == p.n || p.canceled)
    && p.sent <= p.n
    && (!p.closed && !p.canceled ==> forall w <- p.workers :: !w.Exited?)
  }

  predicate SlotsOk(p: Pool) { SlotsUsed(p.workers) + p.others <= p.capacity }

  ghost predicate PoolOk(p: Pool) { JobsOk(p) && BegunOk(p) && CountsOk(p) && SlotsOk(p) }

  lemma {:induction false} SlotsUpdate(workers: seq<Worker>, w: nat, state: Worker)
    requires w < |workers|
    ensures SlotsUsed(workers[w := state]) ==
            SlotsUsed(workers) - (if workers[w].Rotating? then 1 else 0) + (if state.Rotating? then 1 else 0)
  {
    var n := |workers| - 1;
    if w < n {
      assert workers[w := state][..n] == workers[..n][w := state];
      SlotsUpdate(workers[..n], w, state);
    } else {
      assert workers[w := state][..n] == workers[..n];
    }
  }

  lemma {:induction false} NoSlots(workers: seq<Worker>)
    requires forall w <- workers :: !w.Rotating?
    ensures SlotsUsed(workers) == 0
  {
    if workers != [] { NoSlots(workers[..|workers| - 1]); }
  }

  lemma OpeningOk(p: Pool)
    requires Opening(p)
    ensures PoolOk(p)
  {
    NoSlots(p.workers);
    forall w: nat | w < |p.workers| ensures p.workers[w].Waiting? { assert p.workers[w] in p.workers; }
    forall job: nat ensures JobOk(p, job) {}
  }

  lemma StepJobs(p: Pool, s: Step, job: nat)
    requires JobsOk(p)
    ensures JobOk(Next(p, s), job)
  {
    assert JobOk(p, job);
    var p' := Next(p, s);
    forall v: nat | Enabled(p, s) ensures HeldBy(p', v, job) <==>
      if s.Hand? && v == s.w then job == p.sent
      else if (s.GiveUp? || s.Report?) && v == s.w then false
      else HeldBy(p, v, job) {}
    if Enabled(p, s) && (s.GiveUp? || s.Report?) { assert HeldBy(p, s.w, p.workers[s.w].job); }
    if Enabled(p, s) && s.Hand? { assert HeldBy(p', s.w, p.sent); assert !HeldBy(p, s.w, job); }
    forall v: nat | HeldBy(p, v, job) && Enabled(p, s) && !((s.GiveUp? || s.Report?) && v == s.w)
      ensures HeldBy(p', v, job) {}
  }

  lemma StepBegun(p: Pool, s: Step)
    requires JobsOk(p) && BegunOk(p)
    ensures BegunOk(Next(p, s))
  {
    if Enabled(p, s) && (s.TakeSlot? || s.GiveUp?) {
      var job := p.workers[s.w].job;
      assert HeldBy(p, s.w, job) && JobOk(p, job);
      forall w: nat | w < |p.workers| && w != s.w && Busy(p.workers[w]) ensures p.workers[w].job != job {
        assert HeldBy(p, w, p.workers[w].job);
      }
    }
  }

  lemma StepCounts(p: Pool, s: Step)
    requires JobsOk(p) && CountsOk(p)
    ensures CountsOk(Next(p, s))
  {
    if Enabled(p, s) && s.Report? { assert HeldBy(p, s.w, p.workers[s.w].job) && JobOk(p, p.workers[s.w].job); }
  }

  lemma StepSlots(p: Pool, s: Step)
    requires SlotsOk(p)
    ensures SlotsOk(Next(p, s))
  {
    if !Enabled(p, s) { return; }
    match s {
      case Hand(w) => SlotsUpdate(p.workers, w, Holding(p.sent));
      case TakeSlot(w) => SlotsUpdate(p.workers, w, Rotating(p.workers[w].job));
      case GiveUp(w) => SlotsUpdate(p.workers, w, Exited);
      case Rotated(w, failed) => SlotsUpdate(p.workers, w, Reporting(p.workers[w].job, failed));
      case Report(w) => SlotsUpdate(p.workers, w, Waiting);
      case Exit(w) => SlotsUpdate(p.workers, w, Exited);
      case _ =>
    }
  }

  lemma {:induction false} RunKeeps(p: Pool, steps: seq<Step>)
    requires PoolOk(p)
    ensures PoolOk(Execute(p, steps))
    decreases |steps|
  {
    if steps != [] {
      forall job: nat ensures JobOk(Next(p, steps[0]), job) { StepJobs(p, steps[0], job); }
      StepBegun(p, steps[0]);
      StepCounts(p, steps[0]);
      StepSlots(p, steps[0]);
      RunKeeps(Next(p, steps[0]), steps[1..]);
    }
  }

  // ------------------------------------------------------------ main results

  /** All positions below n. */
  function Range(n: nat): (r: set<nat>)
    ensures |r| == n && forall i: nat :: i in r <==> i < n
  {
    if n == 0 then {} else Range(n - 1) + {n - 1}
  }

  lemma {:induction false} UnchangedSize(p: Pool, steps: seq<Step>)
    ensures var q := Execute(p, steps); q.n == p.n && |q.workers| == |p.workers| && q.capacity == p.capacity
    ensures Execute(p, steps).canceled <==> p.canceled || Cancel in steps
    decreases |steps|
  {
    if steps != [] {
      UnchangedSize(Next(p, steps[0]), steps[1..]);
      assert steps == [steps[0]] + steps[1..];
    }
  }

  lemma AllSettled(end: Pool)
    requires JobsOk(end) && Finished(end)
    ensures end.done !! end.dropped && end.done + end.dropped == Range(end.sent)
    ensures |end.done| + |end.dropped| == end.sent
  {
    forall job: nat
      ensures (job < end.sent <==> job in end.done + end.dropped) && !(job in end.done && job in end.dropped)
    {
      assert JobOk(end, job);
      forall w: nat ensures !HeldBy(end, w, job) { if w < |end.workers| { assert end.workers[w] in end.workers; } }
    }
    assert end.done + end.dropped == Range(end.sent);
    assert |end.done + end.dropped| == |end.done| + |end.dropped|;
  }

  /** In every interleaving, once all workers have returned: each candidate was
      counted at most once, and each exactly once if the sweep was not canceled. */
  lemma SweepAccounting(p: Pool, steps: seq<Step>)
    requires Opening(p) && Finished(Execute(p, steps))
    ensures var end := Execute(p, steps);
            && end.rotated + |end.failures| + |end.dropped| == end.sent <= p.n
            && (Cancel !in steps ==> end.rotated + |end.failures| == p.n && end.done == Range(p.n))
  {
    var end := Execute(p, steps);
    OpeningOk(p);
    RunKeeps(p, steps);
    UnchangedSize(p, steps);
    AllSettled(end);
    assert end.workers[0] in end.workers;
  }

  /** In every reachable state: no candidate's Rotate is started twice, and the
      rotations of all overlapping sweeps together never exceed the limiter. */
  lemma SweepSafety(p: Pool, steps: seq<Step>)
    requires Opening(p)
    ensures var at := Execute(p, steps);
            && (forall i, j :: 0 <= i < j < |at.started| ==> at.started[i] != at.started[j])
            && (forall job <- at.started :: job < at.n)
            && SlotsUsed(at.workers) + at.others <= p.capacity
  {
    OpeningOk(p);
    RunKeeps(p, steps);
    UnchangedSize(p, steps);
  }

  // -------------------------------------------------------------- termination

  function Weight(w: Worker): nat {
    match w
    case Waiting => 1
    case Holding(_) => 4
    case Rotating(_) => 3
    case Reporting(_, _) => 2
    case Exited => 0
  }

  function Weights(workers: seq<Worker>): nat {
    if workers == [] then 0 else Weights(workers[..|workers| - 1]) + Weight(workers[|workers| - 1])
  }

  function Measure(p: Pool): nat
    requires p.sent <= p.n
  {
    4 * (p.n - p.sent) + Weights(p.workers) + (if p.closed then 0 else 1)
  }

  lemma {:induction false} WeightsUpdate(workers: seq<Worker>, w: nat, state: Worker)
    requires w < |workers|
    ensures Weights(workers[w := state]) == Weights(workers) - Weight(workers[w]) + Weight(state)
  {
    var n := |workers| - 1;
    if w < n {
      assert workers[w := state][..n] == workers[..n][w := state];
      WeightsUpdate(workers[..n], w, state);
    } else {
      assert workers[w := state][..n] == workers[..n];
    }
  }

  /** Every step of this sweep brings it closer to its end ... */
  lemma Progress(p: Pool, s: Step)
    requires PoolOk(p) && Enabled(p, s) && !s.Cancel? && !s.OthersTake? && !s.OthersFree?
    ensures Next(p, s).sent <= p.n && Measure(Next(p, s)) < Measure(p)
  {
    match s
    case CloseJobs =>
    case Hand(w) => WeightsUpdate(p.workers, w, Holding(p.sent));
    case TakeSlot(w) => WeightsUpdate(p.workers, w, Rotating(p.workers[w].job));
    case GiveUp(w) => WeightsUpdate(p.workers, w, Exited);
    case Rotated(w, failed) => WeightsUpdate(p.workers, w, Reporting(p.workers[w].job, failed));
    case Report(w) => WeightsUpdate(p.workers, w, Waiting);
    case Exit(w) => WeightsUpdate(p.workers, w, Exited);
  }

  /** ... and until then one is possible, unless other sweeps fill the limiter. */
  lemma NeverStuck(p: Pool) returns (s: Step)
    requires PoolOk(p) && !Finished(p) && p.others < p.capacity
    ensures Enabled(p, s) && !s.Cancel? && !s.OthersTake? && !s.OthersFree?
  {
    var w :| 0 <= w < |p.workers| && !p.workers[w].Exited?;
    match p.workers[w] {
      case Rotating(_) => s := Rotated(w, false);
      case Reporting(_, _) => s := Report(w);
      case Waiting => s := if p.closed then Exit(w) else if p.sent == p.n then CloseJobs else Hand(w);
      case Holding(_) =>
        if SlotsUsed(p.workers) + p.others < p.capacity {
          s := TakeSlot(w);
        } else {
          var v := SomeRotating(p.workers);
          s := Rotated(v, false);
        }
    }
  }

  lemma {:induction false} SomeRotating(workers: seq<Worker>) returns (w: nat)
    requires SlotsUsed(workers) > 0
    ensures w < |workers| && workers[w].Rotating?
  {
    w := |workers| - 1;
    if !workers[w].Rotating? { w := SomeRotating(workers[..w]); }
  }
}
