/** Stage two, processRawEvent: events failing shouldProcessEvent are dropped
    without an error; the rest go through processEvent, which works on the
    event's header and argument map in place; an event it fails is dropped
    with that one error, and the others are forwarded in input order. */
module Process {
  import opened Wrappers
  import opened Errors
  import opened Events
  import Stage

  /** One pass of the loop at lines 119-133. */
  function ProcessOne(t: Tracee, e: RawEvent, u: ()): (r: Stage.Step<RawEvent, ()>)
    ensures !t.shouldProcessEvent(e) ==> r.out == None && r.errs == []
    ensures (t.shouldProcessEvent(e) && t.processEvent(e.ctx, e.rawArgs).StepErr?) ==>
              r.out == None && r.errs == [t.processEvent(e.ctx, e.rawArgs).err]
    ensures r.out.Some? <==> t.shouldProcessEvent(e) && t.processEvent(e.ctx, e.rawArgs).StepOk?
    ensures r.out.Some? ==> r.errs == [] && r.out.value.argsTags == e.argsTags
    ensures r.out.Some? ==>
              var p := t.processEvent(e.ctx, e.rawArgs);
              r.out.value == RawEvent(p.ctx, p.rawArgs, e.argsTags)
  {
    if !t.shouldProcessEvent(e) then Stage.Step(None, [], ())
    else
      match t.processEvent(e.ctx, e.rawArgs)
      case StepErr(err) => Stage.Step(None, [err], ())
      case StepOk(ctx, rawArgs) => Stage.Step(Some(RawEvent(ctx, rawArgs, e.argsTags)), [], ())
  }

  method ProcessRawEvents(t: Tracee, events: seq<RawEvent>) returns (out: seq<RawEvent>, errs: seq<Error>)
    ensures (out, errs, ()) == Stage.Run(ProcessOne, t, events, ())
  {
    out, errs := [], [];
    var i := 0;
    while i < |events|
      invariant 0 <= i <= |events|
      invariant (out, errs, ()) == Stage.Run(ProcessOne, t, events[..i], ())
    {
      var rawEvent := events[i];
      Stage.RunOneMore(ProcessOne, t, events, (), i);
      ghost var step := ProcessOne(t, rawEvent, ());
      if !t.shouldProcessEvent(rawEvent) {
        assert out + Stage.Emitted(step) == out && errs + step.errs == errs;
        i := i + 1;
        continue;
      }
      var result := t.processEvent(rawEvent.ctx, rawEvent.rawArgs);
      if result.StepErr? {
        assert out + Stage.Emitted(step) == out;
        errs := errs + [result.err];
        i := i + 1;
        continue;
      }
      assert step.out == Some(RawEvent(result.ctx, result.rawArgs, rawEvent.argsTags));
      assert errs + step.errs == errs;
      out := out + [RawEvent(result.ctx, result.rawArgs, rawEvent.argsTags)];
      i := i + 1;
    }
    assert events[..i] == events;
  }

  /** Positions of the events shouldProcessEvent turns away. */
  function Rejected(t: Tracee, events: seq<RawEvent>): set<nat>
  {
    set i | 0 <= i < |events| && !t.shouldProcessEvent(events[i])
  }

  /** Extending the input by one event adds its position to the rejected set
      exactly when the predicate turns it away. */
  lemma RejectedOneMore(t: Tracee, events: seq<RawEvent>)
    requires events != []
    ensures var n := |events| - 1;
            |Rejected(t, events)| == |Rejected(t, events[..n])| + (if t.shouldProcessEvent(events[n]) then 0 else 1)
  {
    var n := |events| - 1;
    var prefix := events[..n];
    assert forall i :: 0 <= i < n ==> events[i] == prefix[i];
    if t.shouldProcessEvent(events[n]) {
      assert Rejected(t, events) == Rejected(t, prefix);
    } else {
      assert Rejected(t, events) == Rejected(t, prefix) + {n};
    }
  }

  /** Every input is accounted for once: forwarded, turned away silently by the
      predicate, or dropped with exactly one error. */
  lemma {:induction false} ProcessAccounting(t: Tracee, events: seq<RawEvent>)
    ensures var (out, errs, _) := Stage.Run(ProcessOne, t, events, ());
            |out| + |errs| + |Rejected(t, events)| == |events|
  {
    if events != [] {
      var n := |events| - 1;
      var prefix := events[..n];
      ProcessAccounting(t, prefix);
      RejectedOneMore(t, events);
      var (out', errs', _) := Stage.Run(ProcessOne, t, prefix, ());
      var step := ProcessOne(t, events[n], ());
      var (out, errs, _) := Stage.Run(ProcessOne, t, events, ());
      assert |out| == |out'| + |Stage.Emitted(step)| && |errs| == |errs'| + |step.errs|;
    }
  }
}
