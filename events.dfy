/**
 * The two event types of `src/event_dispatcher/event/mod.rs`. Each carries a
 * propagation flag that starts cleared and that `StopPropagation` sets; no
 * operation clears it again, so an event is a two-state machine
 * (not stopped, then stopped for good).
 */
module Events {
  import opened Wrappers

  /** The plain event. */
  class Event {
    var propagationStopped: bool

    /** `Event::new()`: propagation not stopped. */
    constructor ()
      ensures !propagationStopped
    {
      propagationStopped := false;
    }

    /** `is_propagation_stopped`; reading the flag changes nothing. */
    predicate IsPropagationStopped()
      reads this
    {
      propagationStopped
    }

    /** `stop_propagation`: set the flag; setting it twice is the same as once. */
    method StopPropagation()
      modifies this
      ensures IsPropagationStopped()
    {
      propagationStopped := true;
    }
  }

  /**
   * The event asking listeners for a response to `request`. The source holds
   * mutable references to the caller's strings; here the event holds the values.
   */
  class GetResponseEvent {
    var propagationStopped: bool
    var request: string
    var response: Option<string>

    /** `GetResponseEvent::new(request)`: not stopped, the given request, no response. */
    constructor (request: string)
      ensures !propagationStopped
      ensures this.request == request && response == None
    {
      propagationStopped := false;
      this.request := request;
      response := None;
    }

    predicate IsPropagationStopped()
      reads this
    {
      propagationStopped
    }

    /** Sets the flag and leaves the request and the response alone. */
    method StopPropagation()
      modifies this`propagationStopped
      ensures IsPropagationStopped()
    {
      propagationStopped := true;
    }
  }

  /**
   * The test `test_event`: for a fresh `Event` and a fresh `GetResponseEvent`
   * on `"ping"`, propagation is not stopped, and it is after `stop_propagation`.
   */
  method TestEvent()
  {
    var baseEvent := new Event();
    assert !baseEvent.IsPropagationStopped();
    baseEvent.StopPropagation();
    assert baseEvent.IsPropagationStopped();

    var getResponseEvent := new GetResponseEvent("ping");
    assert !getResponseEvent.IsPropagationStopped();
    getResponseEvent.StopPropagation();
    assert getResponseEvent.IsPropagationStopped();
    assert getResponseEvent.request == "ping" && getResponseEvent.response == None;
  }
}
