/** The repository's listeners: one-slot channels that coalesce notifications. */
module RedisRepository {
  import opened Wrappers

  /** A buffered channel of capacity one, closed at most once. */
  class Listener {
    var buffered: bool
    var closed: bool
    /** How often the channel itself was closed; a second time would panic. */
    var closes: nat

    constructor ()
      ensures !buffered && !closed && closes == 0
    {
      buffered, closed, closes := false, false, 0;
    }

    /** A non-blocking send; on a closed channel it would panic. */
    method Offer()
      requires !closed
      modifies `buffered
      ensures buffered
    {
      if !buffered { buffered := true; }
    }

    method CloseOnce()
      modifies `closed, `closes
      ensures closed && closes == old(closes) + (if old(closed) then 0 else 1)
    {
      if !closed {
        closed := true;
        closes := closes + 1;
      }
    }

    /** Receive: an item, or nothing once the channel is closed and drained. */
    method Receive() returns (item: bool)
      requires buffered || closed
      modifies `buffered
      ensures item == old(buffered) && !buffered
    {
      item := buffered;
      buffered := false;
    }
  }

  class Repository {
    var closed: bool
    var listeners: set<Listener>

    /** Only open channels are listed, and none once the repository is closed. */
    ghost predicate Valid()
      reads this, listeners
    {
      && (forall l :: l in listeners ==> !l.closed && l.closes == 0)
      && (closed ==> listeners == {})
    }

    constructor ()
      ensures Valid() && !closed && listeners == {}
    {
      closed, listeners := false, {};
    }

    method Changes() returns (r: Option<Listener>)
      requires Valid()
      modifies `listeners
      ensures Valid()
      ensures closed ==> r == None && listeners == old(listeners)
      ensures !closed ==> r.Some? && fresh(r.value) && listeners == old(listeners) + {r.value} && !r.value.buffered
    {
      if closed { return None; }
      var listener := new Listener();
      listeners := listeners + {listener};
      return Some(listener);
    }

    /** The locked half of removing a listener; its channel is closed after the
        lock is released, when nothing can send to it any more. */
    method Unlist(listener: Listener)
      requires Valid()
      modifies `listeners
      ensures Valid() && listeners == old(listeners) - {listener}
    {
      listeners := listeners - {listener};
    }

    method RemoveListener(listener: Listener)
      requires Valid()
      modifies `listeners, listener`closed, listener`closes
      ensures Valid() && listener.closed && listeners == old(listeners) - {listener}
      ensures listener.closes == old(listener.closes) + (if old(listener.closed) then 0 else 1)
      ensures forall l :: l in listeners ==> l.buffered == old(l.buffered)
    {
      Unlist(listener);
      listener.CloseOnce();
    }

    /** One message: every listed channel ends up with an item waiting, and no
        send reaches a closed channel. */
    method ConsumeOne()
      requires Valid()
      modifies listeners`buffered
      ensures Valid()
      ensures forall l :: l in listeners ==> l.buffered
    {
      var todo := listeners;
      while todo != {}
        invariant todo <= listeners && Valid()
        invariant forall l :: l in listeners - todo ==> l.buffered
        decreases todo
      {
        var l :| l in todo;
        l.Offer();
        todo := todo - {l};
      }
    }

    method Close()
      requires Valid()
      modifies this, listeners`closed, listeners`closes
      ensures Valid() && closed && listeners == {}
      ensures forall l :: l in old(listeners) ==> l.closed && l.closes == 1 && l.buffered == old(l.buffered)
    {
      if closed { return; }
      closed := true;
      var todo := listeners;
      listeners := {};
      while todo != {}
        invariant todo <= old(listeners) && closed && listeners == {}
        invariant forall l :: l in old(listeners) - todo ==> l.closed && l.closes == 1
        invariant forall l :: l in todo ==> !l.closed && l.closes == 0
        decreases todo
      {
        var l :| l in todo;
        l.CloseOnce();
        todo := todo - {l};
      }
    }
  }
}
