/** The audit fan-out: every child is offered every event, whatever the others do. */
module AuditSinks {
  import opened Wrappers
  import opened Protocol

  /** How a child's file operations end. */
  datatype WriteOutcome = Written | Cancelled | NotWritten | NotSynced

  datatype SinkError = SinkClosed | WriteError

  class FileAuditSink {
    var closed: bool
    /** The file's lines. */
    var lines: seq<Event>
    /** Every event Append was called with. */
    ghost var offered: seq<Event>

    constructor ()
      ensures !closed && lines == [] && offered == []
    {
      closed, lines, offered := false, [], [];
    }

    /** One line per event; an error after the write leaves the line in the file. */
    method Append(event: Event, outcome: WriteOutcome) returns (error: Option<SinkError>)
      modifies this
      ensures offered == old(offered) + [event] && closed == old(closed)
      ensures lines == old(lines) + (if !closed && (outcome.Written? || outcome.NotSynced?) then [event] else [])
      ensures error.None? <==> !closed && outcome.Written?
    {
      offered := offered + [event];
      if outcome.Cancelled? { return Some(WriteError); }
      if closed { return Some(SinkClosed); }
      if outcome.NotWritten? { return Some(WriteError); }
      lines := lines + [event];
      if outcome.NotSynced? { return Some(WriteError); }
      return None;
    }

    method Close()
      modifies `closed
      ensures closed
    {
      closed := true;
    }
  }

  /** The log as a child sees it that is configured k times. */
  function Repeated(log: seq<Event>, k: nat): seq<Event> {
    if log == [] then [] else Repeated(log[..|log| - 1], k) + Copies(log[|log| - 1], k)
  }

  function Copies(event: Event, k: nat): seq<Event> {
    if k == 0 then [] else Copies(event, k - 1) + [event]
  }

  /** A child configured once sees the log itself. */
  lemma {:induction false} RepeatedOnce(log: seq<Event>)
    ensures Repeated(log, 1) == log
  {
    if log != [] {
      RepeatedOnce(log[..|log| - 1]);
      assert Copies(log[|log| - 1], 1) == Copies(log[|log| - 1], 0) + [log[|log| - 1]];
      assert log == log[..|log| - 1] + [log[|log| - 1]];
    }
  }

  lemma OneMoreCopy(offered: seq<Event>, event: Event, k: nat)
    ensures (offered + Copies(event, k)) + [event] == offered + Copies(event, k + 1)
  {
    assert Copies(event, k + 1) == Copies(event, k) + [event];
  }

  lemma OneMoreCounted(sinks: seq<FileAuditSink>, i: nat, c: FileAuditSink)
    requires i < |sinks|
    ensures multiset(sinks[..i + 1])[c] == multiset(sinks[..i])[c] + (if c == sinks[i] then 1 else 0)
  {
    assert sinks[..i + 1] == sinks[..i] + [sinks[i]];
  }

  class MultiAuditSink {
    const sinks: seq<FileAuditSink>
    var closed: bool
    /** The events accepted so far, and what each child had been offered before. */
    ghost var log: seq<Event>
    ghost const before: map<FileAuditSink, seq<Event>>

    /** Every child was offered the whole log, in order. */
    ghost predicate Valid()
      reads this, sinks
    {
      forall c <- sinks :: c in before && c.offered == before[c] + Repeated(log, multiset(sinks)[c])
    }

    constructor (sinks: seq<FileAuditSink>)
      requires sinks != []
      ensures Valid() && this.sinks == sinks && !closed && log == []
    {
      this.sinks, closed, log := sinks, false, [];
      this.before := map c | c in sinks :: c.offered;
      new;
      forall c | c in this.sinks ensures c.offered == before[c] + Repeated(log, multiset(this.sinks)[c]) {
        assert c.offered + [] == c.offered;
      }
    }

    /** `outcomes` says how each child's write ends; none of them is reported. */
    method Append(event: Event, outcomes: nat -> WriteOutcome) returns (error: Option<SinkError>)
      requires Valid()
      modifies this`log, sinks
      ensures Valid()
      ensures error == if closed then Some(SinkClosed) else None
      ensures log == if closed then old(log) else old(log) + [event]
      ensures forall c <- sinks :: c.closed == old(c.closed)
    {
      if closed { return Some(SinkClosed); }
      OfferAll(event, outcomes);
      log := log + [event];
      assert log[..|log| - 1] == old(log);
      forall c | c in sinks ensures c.offered == before[c] + Repeated(log, multiset(sinks)[c]) {
        var k := multiset(sinks)[c];
        assert old(c.offered) == before[c] + Repeated(old(log), k);
        assert before[c] + Repeated(old(log), k) + Copies(event, k)
          == before[c] + (Repeated(old(log), k) + Copies(event, k));
      }
      return None;
    }

    method OfferAll(event: Event, outcomes: nat -> WriteOutcome)
      modifies sinks
      ensures forall c <- sinks ::
        && c.offered == old(c.offered) + Copies(event, multiset(sinks)[c])
        && c.closed == old(c.closed)
    {
      for i := 0 to |sinks|
        invariant forall c <- sinks ::
                    c.offered == old(c.offered) + Copies(event, multiset(sinks[..i])[c]) && c.closed == old(c.closed)
      {
        label L:
        var ignored := sinks[i].Append(event, outcomes(i));
        forall c | c in sinks
          ensures c.offered == old(c.offered) + Copies(event, multiset(sinks[..i + 1])[c]) && c.closed == old(c.closed)
        {
          OneMoreCounted(sinks, i, c);
          if c == sinks[i] {
            assert old@L(c.offered) == old(c.offered) + Copies(event, multiset(sinks[..i])[c]);
            OneMoreCopy(old(c.offered), event, multiset(sinks[..i])[c]);
          }
        }
      }
      assert sinks[..|sinks|] == sinks;
    }

    /** Closing stops the fan-out and closes every child. */
    method Close()
      requires Valid()
      modifies `closed, sinks`closed
      ensures Valid() && closed && (!old(closed) ==> forall c <- sinks :: c.closed)
    {
      if closed { return; }
      closed := true;
      for i := 0 to |sinks|
        invariant closed && forall j :: 0 <= j < i ==> sinks[j].closed
      {
        sinks[i].Close();
      }
    }

    /** Children configured once, whatever fails beside them, have been offered
        the same events in the same order. */
    lemma SameSequence(a: FileAuditSink, b: FileAuditSink)
      requires Valid() && a in sinks && b in sinks && multiset(sinks)[a] == 1 && multiset(sinks)[b] == 1
      requires before[a] == before[b] == []
      ensures a.offered == b.offered == log
    {
      RepeatedOnce(log);
      assert [] + log == log;
    }
  }
}
