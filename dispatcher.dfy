/**
 * The event dispatcher of `src/event_dispatcher/mod.rs`: listeners are kept
 * by event name, and `dispatch` calls those registered under a name, in
 * order, on one event.
 *
 * Its loop checks the event after each call and breaks when propagation is
 * NOT stopped. So the first listener is always called; if it leaves the event
 * stopped, every later listener is called too (the flag is never cleared);
 * otherwise dispatch ends after that first call.
 */
module Dispatcher {
  import opened Events

  /**
   * A listener. Its callback receives the event name and the event and can
   * only read the propagation flag and stop propagation; it is modelled by
   * what it decides: given the name and the flag it sees, whether it calls
   * `stop_propagation`.
   */
  datatype EventListener = EventListener(callback: (string, bool) -> bool)
  {
    /** `call`: run the callback once, with the same name and event. */
    method Call(eventName: string, event: Event)
      modifies event
      ensures event.propagationStopped == Stopped(this, eventName, old(event.propagationStopped))
    {
      if callback(eventName, event.IsPropagationStopped()) {
        event.StopPropagation();
      }
    }
  }

  /** The flag after listener `l` was called on an event whose flag was `stopped`. */
  function Stopped(l: EventListener, eventName: string, stopped: bool): (after: bool)
    ensures stopped ==> after
    ensures !stopped ==> (after <==> l.callback(eventName, false))
  {
    stopped || l.callback(eventName, stopped)
  }

  /** What a dispatch did: how many listeners it called, and the final flag. */
  datatype Outcome = Outcome(called: nat, stopped: bool)

  function Shift(k: nat, o: Outcome): Outcome
  {
    o.(called := k + o.called)
  }

  /** The loop of `dispatch` over the listeners `ls`, on an event whose flag is `stopped`. */
  function Propagate(ls: seq<EventListener>, eventName: string, stopped: bool): (o: Outcome)
    ensures o.called <= |ls|
    ensures |ls| > 0 ==> o.called > 0
  {
    if |ls| == 0 then Outcome(0, stopped)
    else
      var after := Stopped(ls[0], eventName, stopped);
      if !after then Outcome(1, false)
      else Shift(1, Propagate(ls[1..], eventName, after))
  }

  /**
   * The flags listeners see, one per listener called: `flags[i]` is the flag
   * after listener `i` ran. Written out without the loop.
   */
  function Flags(ls: seq<EventListener>, eventName: string, stopped: bool): (fs: seq<bool>)
    ensures |fs| == |ls|
  {
    if |ls| == 0 then []
    else
      var after := Stopped(ls[0], eventName, stopped);
      [after] + Flags(ls[1..], eventName, after)
  }

  /** On a stopped event, every listener is called and the event stays stopped. */
  lemma {:induction false} PropagateStopped(ls: seq<EventListener>, eventName: string)
    ensures Propagate(ls, eventName, true) == Outcome(|ls|, true)
  {
    if |ls| > 0 {
      PropagateStopped(ls[1..], eventName);
    }
  }

  /**
   * The outcome of a dispatch, in closed form: nobody is called when there
   * are no listeners; otherwise, if the first listener leaves the event
   * stopped (because it was stopped already or because it stops it), all of
   * them are called and the event ends stopped, and if not, only the first is
   * called and the event ends not stopped.
   */
  lemma PropagateOutcome(ls: seq<EventListener>, eventName: string, stopped: bool)
    ensures |ls| == 0 ==> Propagate(ls, eventName, stopped) == Outcome(0, stopped)
    ensures |ls| > 0 && Stopped(ls[0], eventName, stopped) ==>
              Propagate(ls, eventName, stopped) == Outcome(|ls|, true)
    ensures |ls| > 0 && !Stopped(ls[0], eventName, stopped) ==>
              Propagate(ls, eventName, stopped) == Outcome(1, false)
  {
    if |ls| > 0 && Stopped(ls[0], eventName, stopped) {
      PropagateStopped(ls[1..], eventName);
    }
  }

  /**
   * The listeners called are a prefix of the vector that ends at the first
   * listener after whose call propagation is not stopped, or the whole vector
   * when every call leaves it stopped.
   */
  lemma {:induction false} CalledPrefix(ls: seq<EventListener>, eventName: string, stopped: bool)
    ensures var o := Propagate(ls, eventName, stopped);
            var fs := Flags(ls, eventName, stopped);
            && (forall i :: 0 <= i < o.called - 1 ==> fs[i])
            && (o.called < |ls| ==> !fs[o.called - 1])
            && (o.called > 0 ==> o.stopped == fs[o.called - 1])
  {
    if |ls| > 0 {
      var after := Stopped(ls[0], eventName, stopped);
      if after {
        CalledPrefix(ls[1..], eventName, after);
        var o' := Propagate(ls[1..], eventName, after);
        var fs' := Flags(ls[1..], eventName, after);
        assert Flags(ls, eventName, stopped) == [after] + fs';
        if |ls| > 1 {
          assert o'.called > 0;
        }
      }
    }
  }

  /** The source's `EventDispatcher`: listener vectors by event name. */
  datatype EventDispatcher = EventDispatcher(listeners: map<string, seq<EventListener>>)
  {
    /** The listeners `dispatch` finds for a name (`listeners.get`): none when it has no entry. */
    function ListenersFor(eventName: string): (ls: seq<EventListener>)
      ensures eventName !in listeners ==> ls == []
      ensures eventName in listeners ==> ls == listeners[eventName]
    {
      if eventName in listeners then listeners[eventName] else []
    }

    /**
     * `dispatch(event_name, event)`: the listeners registered under the name are
     * called in order until, after a call, propagation is not stopped. The
     * dispatcher itself is a value and is not changed. `called` counts the calls.
     */
    method Dispatch(eventName: string, event: Event) returns (called: nat)
      modifies event
      ensures Outcome(called, event.propagationStopped)
              == Propagate(ListenersFor(eventName), eventName, old(event.propagationStopped))
    {
      called := 0;
      if eventName in listeners {
        var ls := listeners[eventName];
        var i := 0;
        while i < |ls|
          invariant 0 <= i <= |ls| && called == i
          invariant Propagate(ls, eventName, old(event.propagationStopped))
                    == Shift(i, Propagate(ls[i..], eventName, event.propagationStopped))
        {
          assert ls[i..][1..] == ls[i + 1..];
          ls[i].Call(eventName, event);
          called := called + 1;
          if !event.IsPropagationStopped() {
            break;
          }
          i := i + 1;
        }
      }
    }
  }

  /** `EventDispatcher::new()`: no listener under any name. */
  function NewDispatcher(): (d: EventDispatcher)
    ensures forall eventName :: d.ListenersFor(eventName) == []
  {
    EventDispatcher(map[])
  }

  /** Dispatching on a new dispatcher, or a name that has no entry, calls nobody and leaves the flag. */
  lemma UnknownNameDoesNothing(d: EventDispatcher, eventName: string, stopped: bool)
    requires eventName !in d.listeners
    ensures Propagate(d.ListenersFor(eventName), eventName, stopped) == Outcome(0, stopped)
  {
  }
}
