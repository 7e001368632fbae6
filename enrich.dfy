/** Stage three, prepareEventForPrint: drop what shouldPrintEvent turns away,
    run prepareArgsForPrint (one error and a drop if it fails), pair every
    argument with its name and type from the metadata tables (a miss costs one
    error and leaves that slot's metadata partly empty, but the event goes on),
    attach the stack if configured, normalise the timestamp, and build the
    output event with newEvent (one error and a drop if that fails). */
module Enrich {
  import opened Binary
  import opened Wrappers
  import opened Errors
  import opened EventContext
  import opened Events
  import opened StackAddresses
  import Stage

  /** `rawArgs[tag]` in Go: nil (None) for a tag that is not in the map. */
  function ArgAt(rawArgs: ArgMap, tag: Tag): (v: Option<ArgValue>)
    ensures v.Some? <==> tag in rawArgs
    ensures v.Some? ==> v.value == rawArgs[tag]
  {
    if tag in rawArgs then Some(rawArgs[tag]) else None
  }

  /** DecParamName[EventID%2]. For a negative odd id Go's index is -1 and the
      program panics; the stage's precondition rules that out, so the table
      picked for it here is never used. */
  function NameTable(t: Tracee, eventId: i32): map<Tag, string>
  {
    t.decParamName[if GoRem2(eventId) == 0 then 0 else 1]
  }

  /** ParamTypes[EventID]; a missing event id reads as an empty (nil) map. */
  function TypeTable(t: Tracee, eventId: i32): map<string, string>
  {
    if eventId in t.paramTypes then t.paramTypes[eventId] else map[]
  }

  /** Both lookups for a tag succeed. */
  predicate Resolves(t: Tracee, eventId: i32, tag: Tag)
  {
    tag in NameTable(t, eventId) && NameTable(t, eventId)[tag] in TypeTable(t, eventId)
  }

  /** Lines 187-200 for one slot: its metadata and what it sends on errc. */
  function ResolveMeta(t: Tracee, eventId: i32, tag: Tag): (r: (ArgMeta, seq<Error>))
    ensures |r.1| <= 1 && (r.1 == [] <==> Resolves(t, eventId, tag))
  {
    var names := NameTable(t, eventId);
    if tag !in names then (ArgMeta("", ""), [InvalidArgTag(eventId)])
    else
      var argName := names[tag];
      var types := TypeTable(t, eventId);
      if argName !in types then (ArgMeta(argName, ""), [InvalidArgType(argName, eventId)])
      else (ArgMeta(argName, types[argName]), [])
  }

  /** A missing name leaves the slot's metadata empty, a missing type leaves
      only the type empty, each with its one error; a slot that resolves gets
      both and no error. */
  lemma ResolveMetaCases(t: Tracee, eventId: i32, tag: Tag)
    ensures tag !in NameTable(t, eventId) ==>
              ResolveMeta(t, eventId, tag) == (ArgMeta("", ""), [InvalidArgTag(eventId)])
    ensures tag in NameTable(t, eventId) ==>
              var name := NameTable(t, eventId)[tag];
              && (name in TypeTable(t, eventId) ==>
                    ResolveMeta(t, eventId, tag) == (ArgMeta(name, TypeTable(t, eventId)[name]), []))
              && (name !in TypeTable(t, eventId) ==>
                    ResolveMeta(t, eventId, tag) == (ArgMeta(name, ""), [InvalidArgType(name, eventId)]))
  {
  }

  /** `args` after the loop: Argnum slots, the first |argsTags| looked up by tag. */
  function ArgsFor(argnum: byte, rawArgs: ArgMap, argsTags: seq<Tag>): seq<Option<ArgValue>>
  {
    seq(argnum, i requires 0 <= i < argnum => if i < |argsTags| then ArgAt(rawArgs, argsTags[i]) else None)
  }

  /** `argMetas` after the loop. */
  function MetasFor(t: Tracee, eventId: i32, argnum: byte, argsTags: seq<Tag>): seq<ArgMeta>
  {
    seq(argnum, i requires 0 <= i < argnum =>
      if i < |argsTags| then ResolveMeta(t, eventId, argsTags[i]).0 else ArgMeta("", ""))
  }

  /** Both slices have Argnum slots. Slot i of args holds rawArgs[argsTags[i]]
      (None for a tag the map lacks). Slot i of argMetas is empty when the
      name lookup misses, holds only the name when the type lookup misses, and
      holds both otherwise. Slots past the tags stay zero. */
  lemma SlotsAfterLoop(t: Tracee, eventId: i32, argnum: byte, rawArgs: ArgMap, argsTags: seq<Tag>)
    requires |argsTags| <= argnum
    ensures |ArgsFor(argnum, rawArgs, argsTags)| == argnum && |MetasFor(t, eventId, argnum, argsTags)| == argnum
    ensures forall i :: 0 <= i < |argsTags| ==>
              ArgsFor(argnum, rawArgs, argsTags)[i] == (if argsTags[i] in rawArgs then Some(rawArgs[argsTags[i]]) else None)
    ensures forall i :: 0 <= i < |argsTags| ==>
              var names, types, meta := NameTable(t, eventId), TypeTable(t, eventId), MetasFor(t, eventId, argnum, argsTags)[i];
              && (argsTags[i] !in names ==> meta == ArgMeta("", ""))
              && (argsTags[i] in names && names[argsTags[i]] !in types ==> meta == ArgMeta(names[argsTags[i]], ""))
              && (argsTags[i] in names && names[argsTags[i]] in types ==> meta == ArgMeta(names[argsTags[i]], types[names[argsTags[i]]]))
    ensures forall i :: |argsTags| <= i < argnum ==>
              ArgsFor(argnum, rawArgs, argsTags)[i] == None && MetasFor(t, eventId, argnum, argsTags)[i] == ArgMeta("", "")
  {
    forall i | 0 <= i < |argsTags| {
      ResolveMetaCases(t, eventId, argsTags[i]);
    }
  }

  /** What the loop sends on errc, slot by slot. */
  function MetaErrors(t: Tracee, eventId: i32, argsTags: seq<Tag>): seq<Error>
  {
    if argsTags == [] then []
    else
      var n := |argsTags| - 1;
      MetaErrors(t, eventId, argsTags[..n]) + ResolveMeta(t, eventId, argsTags[n]).1
  }

  /** Positions whose name or type lookup misses. */
  function Unresolved(t: Tracee, eventId: i32, argsTags: seq<Tag>): set<nat>
  {
    set i | 0 <= i < |argsTags| && !Resolves(t, eventId, argsTags[i])
  }

  /** One error per slot whose metadata does not fully resolve, so none at all
      exactly when every tag resolves. */
  lemma {:induction false} OneErrorPerUnresolvedSlot(t: Tracee, eventId: i32, argsTags: seq<Tag>)
    ensures |MetaErrors(t, eventId, argsTags)| == |Unresolved(t, eventId, argsTags)|
    ensures MetaErrors(t, eventId, argsTags) == [] <==> forall i :: 0 <= i < |argsTags| ==> Resolves(t, eventId, argsTags[i])
  {
    if argsTags != [] {
      var n := |argsTags| - 1;
      var prefix := argsTags[..n];
      OneErrorPerUnresolvedSlot(t, eventId, prefix);
      assert forall i :: 0 <= i < n ==> argsTags[i] == prefix[i];
      if Resolves(t, eventId, argsTags[n]) {
        assert Unresolved(t, eventId, argsTags) == Unresolved(t, eventId, prefix);
      } else {
        assert Unresolved(t, eventId, argsTags) == Unresolved(t, eventId, prefix) + {n};
      }
    }
  }

  /** Filling slot i: the tables after the loop over argsTags[..i+1] are the
      ones after argsTags[..i] with slot i set, and one more slot's errors. */
  lemma SlotOneMore(t: Tracee, eventId: i32, argnum: byte, rawArgs: ArgMap, argsTags: seq<Tag>, i: nat)
    requires i < |argsTags| <= argnum
    ensures ArgsFor(argnum, rawArgs, argsTags[..i + 1])
         == ArgsFor(argnum, rawArgs, argsTags[..i])[i := ArgAt(rawArgs, argsTags[i])]
    ensures MetasFor(t, eventId, argnum, argsTags[..i + 1])
         == MetasFor(t, eventId, argnum, argsTags[..i])[i := ResolveMeta(t, eventId, argsTags[i]).0]
    ensures MetaErrors(t, eventId, argsTags[..i + 1])
         == MetaErrors(t, eventId, argsTags[..i]) + ResolveMeta(t, eventId, argsTags[i]).1
  {
    assert argsTags[..i + 1][..i] == argsTags[..i];
  }

  /** The loop at lines 185-201, filling `args` and `argMetas` by index. */
  method AssembleArgs(t: Tracee, ctx: Context, rawArgs: ArgMap, argsTags: seq<Tag>)
    returns (args: seq<Option<ArgValue>>, argMetas: seq<ArgMeta>, errs: seq<Error>)
    requires |argsTags| <= ctx.argnum
    requires |argsTags| > 0 ==> GoRem2(ctx.eventId) != -1
    ensures args == ArgsFor(ctx.argnum, rawArgs, argsTags)
    ensures argMetas == MetasFor(t, ctx.eventId, ctx.argnum, argsTags)
    ensures errs == MetaErrors(t, ctx.eventId, argsTags)
  {
    args := seq(ctx.argnum, _ => None);
    argMetas := seq(ctx.argnum, _ => ArgMeta("", ""));
    errs := [];
    assert argsTags[..0] == [];
    var i := 0;
    while i < |argsTags|
      invariant 0 <= i <= |argsTags|
      invariant args == ArgsFor(ctx.argnum, rawArgs, argsTags[..i])
      invariant argMetas == MetasFor(t, ctx.eventId, ctx.argnum, argsTags[..i])
      invariant errs == MetaErrors(t, ctx.eventId, argsTags[..i])
    {
      var tag := argsTags[i];
      ghost var slot := ResolveMeta(t, ctx.eventId, tag);
      SlotOneMore(t, ctx.eventId, ctx.argnum, rawArgs, argsTags, i);
      ResolveMetaCases(t, ctx.eventId, tag);
      args := args[i := if tag in rawArgs then Some(rawArgs[tag]) else None];
      var names := t.decParamName[GoRem2(ctx.eventId)];
      assert names == NameTable(t, ctx.eventId);
      if tag !in names {
        assert slot == (ArgMeta("", ""), [InvalidArgTag(ctx.eventId)]);
        errs := errs + [InvalidArgTag(ctx.eventId)];
        i := i + 1;
        continue;
      }
      var argName := names[tag];
      argMetas := argMetas[i := argMetas[i].(name := argName)];
      var types := if ctx.eventId in t.paramTypes then t.paramTypes[ctx.eventId] else map[];
      assert types == TypeTable(t, ctx.eventId);
      if argName !in types {
        assert slot == (ArgMeta(argName, ""), [InvalidArgType(argName, ctx.eventId)]);
        errs := errs + [InvalidArgType(argName, ctx.eventId)];
        i := i + 1;
        continue;
      }
      assert slot == (ArgMeta(argName, types[argName]), []);
      argMetas := argMetas[i := argMetas[i].(typeName := types[argName])];
      i := i + 1;
    }
    assert argsTags[..i] == argsTags;
  }

  /** Lines 212-218: monotonic time since tracee started, or wall-clock time,
      in uint64 arithmetic. Adding back the start time, or taking the boot time
      off again, gives the kernel timestamp, wrap-around included. */
  function NormalizeTs(t: Tracee, ts: u64): (r: u64)
    ensures t.config.output.relativeTime ==> AddU64(r, t.startTime) == ts
    ensures !t.config.output.relativeTime ==> SubU64(r, t.bootTime) == ts
    ensures t.config.output.relativeTime && t.startTime <= ts ==> r == ts - t.startTime
    ensures !t.config.output.relativeTime && ts + t.bootTime < TwoTo64 ==> r == ts + t.bootTime
  {
    if t.config.output.relativeTime then
      AddSubInverse(ts, t.startTime);
      SubU64(ts, t.startTime)
    else
      AddSubInverse(ts, t.bootTime);
      AddU64(ts, t.bootTime)
  }

  /** The stack newEvent receives: none, without touching the map, when stack
      output is off. */
  function StackFor(t: Tracee, stackId: u32, st: StoreState): (r: (seq<u64>, StoreState))
    ensures !t.config.output.stackAddresses ==> r == ([], st)
  {
    if t.config.output.stackAddresses then StackLookup(stackId, st) else ([], st)
  }

  /** One pass of the loop at lines 174-230. */
  function PrintOne(t: Tracee, e: RawEvent, st: StoreState): (r: Stage.Step<OutputEvent, StoreState>)
    ensures !t.shouldPrintEvent(e) ==> r == Stage.Step(None, [], st)
    ensures (t.shouldPrintEvent(e) && t.prepareArgsForPrint(e.ctx, e.rawArgs).StepErr?) ==>
              r == Stage.Step(None, [t.prepareArgsForPrint(e.ctx, e.rawArgs).err], st)
    ensures !t.config.output.stackAddresses ==> r.state == st
    ensures |r.state.lookups| <= |st.lookups| + 1
    ensures (t.shouldPrintEvent(e) && t.prepareArgsForPrint(e.ctx, e.rawArgs).StepOk?) ==>
              var p := t.prepareArgsForPrint(e.ctx, e.rawArgs);
              var (stack, st') := StackFor(t, p.ctx.stackId, st);
              var built := t.newEvent(p.ctx.(ts := NormalizeTs(t, p.ctx.ts)),
                                      MetasFor(t, p.ctx.eventId, p.ctx.argnum, e.argsTags),
                                      ArgsFor(p.ctx.argnum, p.rawArgs, e.argsTags), stack);
              && (r.out.Some? <==> built.Success?)
              && (r.out.Some? ==> r.out.value == built.value)
              && r.errs == MetaErrors(t, p.ctx.eventId, e.argsTags) + (if built.Failure? then [built.error] else [])
              && r.state == st'
  {
    if !t.shouldPrintEvent(e) then Stage.Step(None, [], st)
    else
      match t.prepareArgsForPrint(e.ctx, e.rawArgs)
      case StepErr(err) => Stage.Step(None, [err], st)
      case StepOk(ctx, rawArgs) =>
        var args := ArgsFor(ctx.argnum, rawArgs, e.argsTags);
        var argMetas := MetasFor(t, ctx.eventId, ctx.argnum, e.argsTags);
        var metaErrs := MetaErrors(t, ctx.eventId, e.argsTags);
        var (stack, st') := StackFor(t, ctx.stackId, st);
        var ctx' := ctx.(ts := NormalizeTs(t, ctx.ts));
        match t.newEvent(ctx', argMetas, args, stack)
        case Failure(err) => Stage.Step(None, metaErrs + [err], st')
        case Success(evt) => Stage.Step(Some(evt), metaErrs, st')
  }

  /** Events that reach the argument loop without making Go panic: no more tags
      than Argnum slots, and an event id whose `%2` is a valid table index. */
  predicate SafeToPrint(t: Tracee, e: RawEvent)
  {
    t.shouldPrintEvent(e) && t.prepareArgsForPrint(e.ctx, e.rawArgs).StepOk? ==>
      var ctx := t.prepareArgsForPrint(e.ctx, e.rawArgs).ctx;
      |e.argsTags| <= ctx.argnum && (|e.argsTags| > 0 ==> GoRem2(ctx.eventId) != -1)
  }

  /** With stack output on, every blob in the map can be read without
      panicking; with it off the map is never read. */
  predicate StoreFits(t: Tracee, entries: map<u32, seq<byte>>)
  {
    t.config.output.stackAddresses ==> forall id :: id in entries ==> Fits(entries[id], t.maxStackDepth)
  }

  /** The body of the loop at lines 174-230 for one event. */
  method PrepareEvent(t: Tracee, rawEvent: RawEvent, store: StackAddressesMap)
    returns (evt: Option<OutputEvent>, errs: seq<Error>)
    requires SafeToPrint(t, rawEvent)
    requires StoreFits(t, store.entries)
    modifies store
    ensures Stage.Step(evt, errs, store.State()) == PrintOne(t, rawEvent, old(store.State()))
    ensures StoreFits(t, store.entries)
  {
    evt, errs := None, [];
    if !t.shouldPrintEvent(rawEvent) {
      return;
    }
    var prepared := t.prepareArgsForPrint(rawEvent.ctx, rawEvent.rawArgs);
    if prepared.StepErr? {
      errs := [prepared.err];
      return;
    }
    var ctx := prepared.ctx;
    var args, argMetas, metaErrs := AssembleArgs(t, ctx, prepared.rawArgs, rawEvent.argsTags);
    errs := metaErrs;
    var stackAddresses: seq<u64> := [];
    if t.config.output.stackAddresses {
      stackAddresses := GetStackAddresses(store, ctx.stackId, t.maxStackDepth);
    }
    if t.config.output.relativeTime {
      ctx := ctx.(ts := SubU64(ctx.ts, t.startTime));
    } else {
      ctx := ctx.(ts := AddU64(ctx.ts, t.bootTime));
    }
    var built := t.newEvent(ctx, argMetas, args, stackAddresses);
    if built.Failure? {
      errs := errs + [built.error];
      return;
    }
    evt := Some(built.value);
  }

  /** prepareEventForPrint over its input, in order. */
  method PrepareEventsForPrint(t: Tracee, events: seq<RawEvent>, store: StackAddressesMap)
    returns (out: seq<OutputEvent>, errs: seq<Error>)
    requires forall e :: e in events ==> SafeToPrint(t, e)
    requires StoreFits(t, store.entries)
    modifies store
    ensures (out, errs, store.State()) == Stage.Run(PrintOne, t, events, old(store.State()))
  {
    out, errs := [], [];
    var i := 0;
    while i < |events|
      invariant 0 <= i <= |events|
      invariant StoreFits(t, store.entries)
      invariant (out, errs, store.State()) == Stage.Run(PrintOne, t, events[..i], old(store.State()))
    {
      ghost var out0 := out;
      Stage.RunOneMore(PrintOne, t, events, old(store.State()), i);
      ghost var step := PrintOne(t, events[i], store.State());
      var evt, evtErrs := PrepareEvent(t, events[i], store);
      assert step == Stage.Step(evt, evtErrs, store.State());
      if evt.Some? {
        out := out + [evt.value];
      }
      assert out == out0 + Stage.Emitted(step);
      errs := errs + evtErrs;
      i := i + 1;
    }
    assert events[..i] == events;
  }
}
