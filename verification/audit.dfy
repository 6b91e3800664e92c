/** The audit log's promises about rotations and about losing no event. */
module Audit {
  import opened Wrappers
  import opened Protocol
  import opened Sections
  import opened Numbered
  import opened StoreInvariants

  // ------------------------------------------------------- rotation shape

  /** The events carrying the run's number are exactly events[i..i+3]:
      requested, started and the terminal event of the run's status. */
  ghost predicate ShapeAt(events: seq<Event>, i: nat, run: Run) {
    && i + 3 <= |events|
    && Trail(events[i..i + 3], run)
    && (forall j :: 0 <= j < |events| && events[j].run == Some(run.num) ==> i <= j < i + 3)
  }

  ghost predicate HasShape(events: seq<Event>, run: Run) { exists i: nat :: ShapeAt(events, i, run) }

  ghost predicate Finished(run: Run) { run.status == Succeeded || run.status == FailedRun }

  ghost predicate Names(run: Run, e: Event) { e.run == Some(run.num) }

  /** Every run is finished and has its three events. */
  ghost predicate RunsHaveTrails(events: seq<Event>, runs: seq<Run>) {
    forall r <- runs :: Finished(r) && HasShape(events, r)
  }

  /** Every event that names a run names one of these. */
  ghost predicate TrailsHaveRuns(events: seq<Event>, runs: seq<Run>) {
    forall e <- events :: e.run.Some? ==> exists r :: r in runs && Names(r, e)
  }

  ghost predicate ListShape(events: seq<Event>, runs: seq<Run>) {
    RunsHaveTrails(events, runs) && TrailsHaveRuns(events, runs)
  }

  ghost predicate AuditShape(st: StoreState) {
    forall id :: ListShape(EventsOf(st, id), RunsOf(st, id))
  }

  lemma EmptyShape()
    ensures AuditShape(EMPTY)
  {
  }

  /** Seen from the whole store: all events naming a stored run, whatever list
      they are in, are its three adjacent ones. */
  lemma ShapeIsGlobal(st: StoreState, id: string, run: Run, other: string, j: nat)
    requires ListsOk(st) && AuditShape(st)
    requires run in RunsOf(st, id)
    requires j < |EventsOf(st, other)| && EventsOf(st, other)[j].run == Some(run.num)
    ensures other == id
    ensures exists i: nat :: ShapeAt(EventsOf(st, id), i, run) && i <= j < i + 3
  {
    var e := EventsOf(st, other)[j];
    assert ListShape(EventsOf(st, other), RunsOf(st, other)) && ListShape(EventsOf(st, id), RunsOf(st, id));
    assert e in EventsOf(st, other);
    var r :| r in RunsOf(st, other) && Names(r, e);
    RunNumberUnique(st, id, run, other, r);
    assert HasShape(EventsOf(st, id), run);
    var i: nat :| ShapeAt(EventsOf(st, id), i, run);
  }

  lemma RunNumberUnique(st: StoreState, a: string, r: Run, b: string, q: Run)
    requires ListsOk(st) && r in RunsOf(st, a) && q in RunsOf(st, b) && r.num == q.num
    ensures a == b && r == q
  {
    var i :| 0 <= i < |st.runs[a]| && st.runs[a][i] == r;
    var j :| 0 <= j < |st.runs[b]| && st.runs[b][j] == q;
    FiledOnce(RunNum, RunOwner, st.nextRun, st.runs, a, i, b, j);
  }

  // ---------------------------------------------------------- one list grows

  lemma ShapeAppend(events: seq<Event>, run: Run, more: seq<Event>)
    requires HasShape(events, run) && forall e <- more :: e.run != Some(run.num)
    ensures HasShape(events + more, run)
  {
    var i: nat :| ShapeAt(events, i, run);
    ShapeAtAppend(events, i, run, more);
  }

  lemma ShapeAtAppend(events: seq<Event>, i: nat, run: Run, more: seq<Event>)
    requires ShapeAt(events, i, run) && forall e <- more :: e.run != Some(run.num)
    ensures ShapeAt(events + more, i, run)
  {
    var all := events + more;
    assert all[i..i + 3] == events[i..i + 3];
    forall k | 0 <= k < |more| ensures more[k].run != Some(run.num) { assert more[k] in more; }
    forall j | 0 <= j < |all| ensures all[j] == if j < |events| then events[j] else more[j - |events|] {}
  }

  lemma NewShape(events: seq<Event>, trail: seq<Event>, run: Run)
    requires Trail(trail, run) && forall e <- events :: e.run != Some(run.num)
    ensures HasShape(events + trail, run)
  {
    var all, i := events + trail, |events|;
    assert all[i..i + 3] == trail;
    forall j | 0 <= j < i ensures all[j] == events[j] && all[j].run != Some(run.num) { assert events[j] in events; }
    assert ShapeAt(all, i, run);
  }

  lemma ListNoted(events: seq<Event>, runs: seq<Run>, more: seq<Event>)
    requires ListShape(events, runs) && forall e <- more :: e.run.None?
    ensures ListShape(events + more, runs)
  {
    forall r | r in runs ensures HasShape(events + more, r) { ShapeAppend(events, r, more); }
    forall e | e in events + more && e.run.Some? ensures exists r :: r in runs && Names(r, e) {
      assert e in events;
    }
  }

  lemma ListRotated(events: seq<Event>, runs: seq<Run>, run: Run, trail: seq<Event>)
    requires ListShape(events, runs) && Trail(trail, run)
    requires (forall r <- runs :: r.num != run.num) && (forall e <- events :: e.run != Some(run.num))
    ensures ListShape(events + trail, runs + [run])
  {
    forall r | r in runs + [run] ensures Finished(r) && HasShape(events + trail, r) {
      if r in runs { ShapeAppend(events, r, trail); } else { NewShape(events, trail, run); }
    }
    forall e | e in events + trail && e.run.Some? ensures exists r :: r in runs + [run] && Names(r, e) {
      if e in events {
        var r :| r in runs && Names(r, e);
        assert r in runs + [run];
      } else {
        assert run in runs + [run] && Names(run, e);
      }
    }
  }

  // -------------------------------------------------------- the store's steps

  /** Events that name no run are appended to one list. */
  ghost predicate Noted(st: StoreState, st': StoreState, id: string, more: seq<Event>) {
    Appends(st, st', id, more) && SameRuns(st, st') && (forall e <- more :: e.run.None?)
  }

  lemma NotedKeepsShape(st: StoreState, st': StoreState, id: string, more: seq<Event>)
    requires AuditShape(st) && Noted(st, st', id, more)
    ensures AuditShape(st')
  {
    forall a ensures ListShape(EventsOf(st', a), RunsOf(st', a)) {
      assert ListShape(EventsOf(st, a), RunsOf(st, a));
      if a == id { ListNoted(EventsOf(st, id), RunsOf(st, id), more); }
    }
  }

  /** No stored event names the run about to be created. */
  lemma FreshRun(st: StoreState, id: string, n: nat)
    requires ListsOk(st) && AuditShape(st) && n > st.nextRun
    ensures forall e <- EventsOf(st, id) :: e.run != Some(n)
    ensures forall r <- RunsOf(st, id) :: r.num != n
  {
    assert ListShape(EventsOf(st, id), RunsOf(st, id));
    forall r | r in RunsOf(st, id) ensures r.num != n {
      assert ListOk(RunNum, RunOwner, st.nextRun, id, st.runs[id]) && RunNum(r) <= st.nextRun;
    }
  }

  lemma RotationKeepsShape(st: StoreState, st': StoreState, id: string, run: Run, trail: seq<Event>)
    requires ListsOk(st) && AuditShape(st) && Rotation(st, st', id, run, trail)
    ensures AuditShape(st')
  {
    FreshRun(st, id, run.num);
    forall a ensures ListShape(EventsOf(st', a), RunsOf(st', a)) {
      assert ListShape(EventsOf(st, a), RunsOf(st, a));
      if a == id { ListRotated(EventsOf(st, id), RunsOf(st, id), run, trail); }
    }
  }

  lemma PurgeKeepsShape(st: StoreState, id: string)
    requires AuditShape(st)
    ensures AuditShape(Purge(st, id))
  {
    var st' := Purge(st, id);
    forall a ensures ListShape(EventsOf(st', a), RunsOf(st', a)) {
      if a != id { assert ListShape(EventsOf(st, a), RunsOf(st, a)); }
    }
  }
}
