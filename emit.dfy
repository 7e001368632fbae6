/** Stage four, printEvent: every event goes to config.ChanEvents when the
    embedding program supplied that channel, and is otherwise counted and handed
    to the printer. The stage never sends an error. */
module Emit {
  import opened Events

  /** What is observable of the two sinks and the event counter. */
  datatype SinkState = SinkState(chanEvents: seq<OutputEvent>, printed: seq<OutputEvent>, eventCounter: nat)

  /** Where a run of events ends up: all appended to the channel, or all
      printed in order and counted. */
  function Delivered(chanEvents: bool, s: SinkState, events: seq<OutputEvent>): (r: SinkState)
    ensures chanEvents ==> r.printed == s.printed && r.eventCounter == s.eventCounter
    ensures !chanEvents ==> r.chanEvents == s.chanEvents
  {
    if chanEvents then s.(chanEvents := s.chanEvents + events)
    else SinkState(s.chanEvents, s.printed + events, s.eventCounter + |events|)
  }

  /** The counter has counted exactly the events printed so far. */
  predicate Counted(s: SinkState)
  {
    s.eventCounter == |s.printed|
  }

  /** Every event lands in exactly one sink, in order, and the counter keeps
      counting what was printed. */
  lemma DeliveredAccounts(chanEvents: bool, s: SinkState, events: seq<OutputEvent>)
    ensures var r := Delivered(chanEvents, s, events);
            && |r.chanEvents| + |r.printed| == |s.chanEvents| + |s.printed| + |events|
            && (if chanEvents then r.chanEvents[|s.chanEvents|..] == events
                else r.printed[|s.printed|..] == events)
            && (Counted(s) ==> Counted(r))
  {
    var r := Delivered(chanEvents, s, events);
    if chanEvents {
      assert r.chanEvents[|s.chanEvents|..] == events;
    } else {
      assert r.printed[|s.printed|..] == events;
    }
  }

  /** Delivering two runs one after the other is delivering them joined: the
      per-event loop and the whole stage agree. */
  lemma DeliveredConcat(chanEvents: bool, s: SinkState, a: seq<OutputEvent>, b: seq<OutputEvent>)
    ensures Delivered(chanEvents, Delivered(chanEvents, s, a), b) == Delivered(chanEvents, s, a + b)
  {
    if chanEvents {
      assert s.chanEvents + a + b == s.chanEvents + (a + b);
    } else {
      assert s.printed + a + b == s.printed + (a + b);
    }
  }

  /** config.ChanEvents, the printer and stats.eventCounter, whose bodies are
      outside this model. */
  class Sinks {
    var chanEvents: seq<OutputEvent>
    var printed: seq<OutputEvent>
    var eventCounter: nat

    function State(): SinkState
      reads this
    {
      SinkState(chanEvents, printed, eventCounter)
    }

    constructor ()
      ensures State() == SinkState([], [], 0) && Counted(State())
    {
      chanEvents, printed, eventCounter := [], [], 0;
    }

    /** `ChanEvents <- e` */
    method Send(e: OutputEvent)
      modifies this
      ensures State() == old(State()).(chanEvents := old(chanEvents) + [e])
    {
      chanEvents := chanEvents + [e];
    }

    /** stats.eventCounter.Increment() */
    method Increment()
      modifies this
      ensures State() == old(State()).(eventCounter := old(eventCounter) + 1)
    {
      eventCounter := eventCounter + 1;
    }

    /** printer.Print(e) */
    method Print(e: OutputEvent)
      modifies this
      ensures State() == old(State()).(printed := old(printed) + [e])
    {
      printed := printed + [e];
    }
  }

  /** The loop at lines 239-246. */
  method PrintEvents(t: Tracee, events: seq<OutputEvent>, sinks: Sinks)
    modifies sinks
    ensures sinks.State() == Delivered(t.config.chanEvents, old(sinks.State()), events)
  {
    var i := 0;
    while i < |events|
      invariant 0 <= i <= |events|
      invariant sinks.State() == Delivered(t.config.chanEvents, old(sinks.State()), events[..i])
    {
      var printEvent := events[i];
      DeliveredConcat(t.config.chanEvents, old(sinks.State()), events[..i], [printEvent]);
      assert events[..i] + [printEvent] == events[..i + 1];
      if t.config.chanEvents {
        sinks.Send(printEvent);
      } else {
        sinks.Increment();
        sinks.Print(printEvent);
      }
      i := i + 1;
    }
    assert events[..i] == events;
  }
}
