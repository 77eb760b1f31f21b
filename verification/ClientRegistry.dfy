/** The client's subscriber list, as the mutex-protected methods change it.
    Closing a channel twice panics, so the closing methods demand that it is
    open. */
module ClientRegistry {
  import opened ClientFanout

  class Listener {
    var done: bool   // the done channel is closed
    var closed: bool // the event channel is closed

    constructor ()
      ensures !done && !closed
    {
      done, closed := false, false;
    }

    method CloseDone()
      requires !done
      modifies this`done
      ensures done
    {
      done := true;
    }

    method CloseEvents()
      requires !closed
      modifies this`closed
      ensures closed
    {
      closed := true;
    }
  }

  class Registry {
    var listeners: seq<Listener>
    var shut: bool

    ghost predicate Valid()
      reads this, listeners
    {
      Distinct(listeners) && forall s <- listeners :: !s.done && !s.closed
    }

    constructor ()
      ensures Valid() && listeners == [] && !shut
    {
      listeners, shut := [], false;
    }

    method Events() returns (s: Listener)
      requires Valid()
      modifies this`listeners
      ensures Valid() && fresh(s) && listeners == old(listeners) + [s]
    {
      s := new Listener();
      listeners := listeners + [s];
    }

    /** Forgets exactly this listener and signals it; unknown ones are ignored. */
    method Unsubscribe(s: Listener)
      requires Valid()
      modifies this`listeners, s`done
      ensures Valid() && listeners == Without(old(listeners), s)
      ensures s.done == (old(s.done) || s in old(listeners))
    {
      var i := 0;
      while i < |listeners|
        invariant 0 <= i <= |listeners| && listeners == old(listeners)
        invariant s !in listeners[..i]
        invariant Without(listeners, s) == listeners[..i] + Without(listeners[i..], s)
      {
        if listeners[i] == s {
          WithoutMembers(listeners, s);
          WithoutDistinct(listeners, s);
          assert Without(listeners[i..], s) == listeners[i + 1..];
          listeners := listeners[..i] + listeners[i + 1..];
          s.CloseDone();
          return;
        }
        assert listeners[i..][1..] == listeners[i + 1..];
        i := i + 1;
      }
    }

    /** The end of Close: every remaining listener's channel is closed, once.
        A second Close does nothing. */
    method Close()
      requires Valid()
      modifies this, listeners
      ensures Valid() && shut
      ensures !old(shut) ==> listeners == [] && forall s <- old(listeners) :: s.closed && !s.done
      ensures old(shut) ==> listeners == old(listeners) && forall s <- listeners :: !s.closed
    {
      if shut {
        return;
      }
      shut := true;
      for i := 0 to |listeners|
        invariant listeners == old(listeners) && shut
        invariant forall j :: 0 <= j < i ==> listeners[j].closed
        invariant forall j :: i <= j < |listeners| ==> !listeners[j].closed
        invariant forall s <- listeners :: !s.done
      {
        listeners[i].CloseEvents();
      }
      listeners := [];
    }
  }
}
