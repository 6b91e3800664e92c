/** No audit event is lost, duplicated or reordered between the store and the
    audit sink, in any interleaving. */
module Conservation {
  import opened Wrappers
  import opened Protocol
  import opened Sections
  import opened Numbered
  import opened StoreInvariants
  import opened Audit
  import opened Machine
  import opened Interleaving

  /** The events of one identity, in log order. */
  function EventsIn(log: seq<Event>, id: string): seq<Event> { Project(EventOwner, log, id) }

  lemma SuffixProject(log: seq<Event>, more: seq<Event>, m: nat, owner: string, id: string)
    requires m <= |log| && forall i :: 0 <= i < |more| ==> EventOwner(more[i]) == owner
    ensures EventsIn((log + more)[m..], id)
      == if id == owner then EventsIn(log[m..], id) + more else EventsIn(log[m..], id)
  {
    assert (log + more)[m..] == log[m..] + more;
    ProjectConcat(EventOwner, log[m..], more, id);
    ProjectOwned(EventOwner, more, owner, id);
  }

  // ----------------------------------------------------------------- totals

  /** How many events are stored, over all identities. */
  ghost function Total(m: map<string, seq<Event>>): nat
    decreases |m|
  {
    if m == map[] then 0
    else
      var id :| id in m;
      |m[id]| + Total(m - {id})
  }

  lemma {:induction false} TotalSplit(m: map<string, seq<Event>>, id: string)
    requires id in m
    ensures Total(m) == |m[id]| + Total(m - {id})
    decreases |m|
  {
    var k :| k in m && Total(m) == |m[k]| + Total(m - {k});
    if k != id {
      TotalSplit(m - {k}, id);
      assert m - {k} - {id} == m - {id} - {k};
      TotalSplit(m - {id}, k);
    }
  }

  lemma TotalUpdate(m: map<string, seq<Event>>, id: string, s: seq<Event>)
    ensures Total(m[id := s]) == Total(m) - |Lookup(m, id)| + |s|
  {
    var m' := m[id := s];
    TotalSplit(m', id);
    if id in m {
      TotalSplit(m, id);
      assert m' - {id} == m - {id};
    } else {
      assert m' - {id} == m;
    }
  }

  lemma TotalRemove(m: map<string, seq<Event>>, id: string)
    ensures Total(m - {id}) == Total(m) - |Lookup(m, id)|
  {
    if id in m { TotalSplit(m, id); } else { assert m - {id} == m; }
  }

  // -------------------------------------------------------------- invariant

  /** Where in the sink the identity's log was last purged. */
  function Mark(marks: map<string, nat>, id: string): nat { if id in marks then marks[id] else 0 }

  /** What an identity's list held before the first event of this execution. */
  function Inherited(start: StoreState, marks: map<string, nat>, id: string): seq<Event> {
    if id in marks then [] else EventsOf(start, id)
  }

  /** One list is its inheritance followed by the sink's events since the last purge. */
  ghost predicate ListConserved(start: StoreState, st: StoreState, marks: map<string, nat>, id: string) {
    && Mark(marks, id) <= |st.sink|
    && EventsOf(st, id) == Inherited(start, marks, id) + EventsIn(st.sink[Mark(marks, id)..], id)
  }

  ghost predicate SinkNumbered(start: StoreState, st: StoreState) {
    && st.nextEvent == start.nextEvent + |st.sink|
    && (forall i :: 0 <= i < |st.sink| ==> st.sink[i].num == start.nextEvent + 1 + i)
  }

  ghost predicate Conserved(start: StoreState, sys: System) {
    && SinkNumbered(start, sys.st)
    && (forall id :: ListConserved(start, sys.st, sys.marks, id))
    && Total(sys.st.events) + sys.purged == Total(start.events) + (sys.st.nextEvent - start.nextEvent)
  }

  lemma ListGrows(start: StoreState, st: StoreState, st': StoreState, marks: map<string, nat>, id: string,
      more: seq<Event>, a: string)
    requires ListConserved(start, st, marks, a)
    requires st'.sink == st.sink + more && (forall i :: 0 <= i < |more| ==> EventOwner(more[i]) == id)
    requires EventsOf(st', a) == if a == id then EventsOf(st, a) + more else EventsOf(st, a)
    ensures ListConserved(start, st', marks, a)
  {
    var m := Mark(marks, a);
    SuffixProject(st.sink, more, m, id, a);
    Associates(Inherited(start, marks, a), EventsIn(st.sink[m..], a), more);
  }

  lemma Associates(a: seq<Event>, b: seq<Event>, c: seq<Event>)
    ensures (a + b) + c == a + (b + c)
  {
  }

  lemma AppendConserves(start: StoreState, st: StoreState, st': StoreState, marks: map<string, nat>, id: string,
      more: seq<Event>)
    requires SinkNumbered(start, st) && (forall a :: ListConserved(start, st, marks, a))
    requires Appends(st, st', id, more)
    ensures SinkNumbered(start, st') && (forall a :: ListConserved(start, st', marks, a))
    ensures Total(st'.events) == Total(st.events) + |more|
  {
    forall i | 0 <= i < |more| ensures EventOwner(more[i]) == id && more[i].num == st.nextEvent + 1 + i {
      assert EventOwner(more[i]) == id && EventNum(more[i]) == st.nextEvent + 1 + i;
    }
    forall a ensures ListConserved(start, st', marks, a) { ListGrows(start, st, st', marks, id, more, a); }
    TotalUpdate(st.events, id, EventsOf(st, id) + more);
  }

  lemma PurgeConserves(start: StoreState, st: StoreState, marks: map<string, nat>, id: string, marks': map<string, nat>)
    requires forall a :: ListConserved(start, st, marks, a)
    requires marks' == marks[id := |st.sink|]
    ensures forall a :: ListConserved(start, Purge(st, id), marks', a)
    ensures Total(Purge(st, id).events) == Total(st.events) - |EventsOf(st, id)|
  {
    forall a ensures ListConserved(start, Purge(st, id), marks', a) {
      assert ListConserved(start, st, marks, a);
    }
    TotalRemove(st.events, id);
  }

  lemma StepConserves(parse: PeriodParser, start: StoreState, sys: System, s: Step)
    requires SystemOk(sys) && Conserved(start, sys)
    ensures Conserved(start, Next(parse, sys, s))
  {
    if Enabled(parse, sys, s) {
      var change := StepChanges(parse, sys, s);
      ChangeConserves(start, sys, Next(parse, sys, s), change);
    }
  }

  lemma ChangeConserves(start: StoreState, sys: System, sys': System, change: Change)
    requires Conserved(start, sys) && Changes(sys.st, sys'.st, change)
    requires !change.Deletion? ==> sys'.marks == sys.marks && sys'.purged == sys.purged
    requires change.Deletion? ==> |change.more| == 1 && sys'.marks == sys.marks[change.id := |sys'.st.sink|]
                                  && sys'.purged == sys.purged + |EventsOf(sys.st, change.id)| + 1
    ensures Conserved(start, sys')
  {
    match change {
      case Quiet => QuietConserves(start, sys, sys');
      case Note(id, more) => AppendConserves(start, sys.st, sys'.st, sys.marks, id, more);
      case NewRotation(id, run, trail) => AppendConserves(start, sys.st, sys'.st, sys.marks, id, trail);
      case Deletion(id, more) =>
        var noted := Recorded(sys.st, id, more);
        AppendConserves(start, sys.st, noted, sys.marks, id, more);
        PurgeConserves(start, noted, sys.marks, id, sys'.marks);
    }
  }

  lemma QuietConserves(start: StoreState, sys: System, sys': System)
    requires Conserved(start, sys) && SameLog(sys.st, sys'.st) && sys'.marks == sys.marks && sys'.purged == sys.purged
    ensures Conserved(start, sys')
  {
    forall a ensures ListConserved(start, sys'.st, sys'.marks, a) { assert ListConserved(start, sys.st, sys.marks, a); }
  }

  // ------------------------------------------------------------ main result

  lemma {:induction false} ExecuteConserves(parse: PeriodParser, start: StoreState, sys: System, steps: seq<Step>)
    requires SystemOk(sys) && Conserved(start, sys)
    ensures Conserved(start, Execute(parse, sys, steps))
    decreases |steps|
  {
    if steps != [] {
      StepConserves(parse, start, sys, steps[0]);
      StepKeeps(parse, sys, steps[0]);
      ExecuteConserves(parse, start, Next(parse, sys, steps[0]), steps[1..]);
    }
  }

  /** In every reachable state of every interleaving: the sink was offered the
      next numbers in order without a gap; every identity's list is what it
      inherited (nothing, once deleted) followed by its events offered since its
      last Delete; and stored plus purged events account for the counter. */
  lemma EventConservation(parse: PeriodParser, sys: System, steps: seq<Step>, id: string)
    requires Initial(sys)
    ensures var end := Execute(parse, sys, steps);
            && SinkNumbered(sys.st, end.st)
            && ListConserved(sys.st, end.st, end.marks, id)
            && (sys.st == EMPTY ==> end.st.nextEvent == Total(end.st.events) + end.purged)
  {
    forall a ensures ListConserved(sys.st, sys.st, sys.marks, a) {}
    assert SystemOk(sys);
    ExecuteConserves(parse, sys.st, sys, steps);
    assert ListConserved(sys.st, Execute(parse, sys, steps).st, Execute(parse, sys, steps).marks, id);
  }
}
