# tracee-ebpf event pipeline, sequential model

This project models the per-item logic of the tracee-ebpf event pipeline
(`tracee-ebpf/tracee/events_pipeline.go`) and proves properties about it.
The pipeline turns the raw records that the eBPF programs send to user space
into output events. It has four stages:

1. **decodeRawEvent** reads the fixed 112-byte little-endian `context` header
   of each record. It then calls `readArgFromBuff` exactly `Argnum` times and
   fills `argsTags` by index and `rawArgs` by tag.
2. **processRawEvent** drops events that `shouldProcessEvent` rejects. It
   runs `processEvent` on the rest and drops, with one error, any event
   where that step fails.
3. **prepareEventForPrint** does the same with `shouldPrintEvent` and
   `prepareArgsForPrint`. For each surviving event it then:
   - pairs every argument slot with its name and type from `DecParamName`
     and `ParamTypes`;
   - attaches the stack addresses from `StackAddressesMap` when configured,
     deleting the map entry after a successful lookup;
   - makes the timestamp relative to the start time or absolute with the
     boot time, in uint64 arithmetic;
   - builds the output event with `newEvent`.
4. **printEvent** sends each event to `ChanEvents` when that channel is
   configured. Otherwise it counts the event and prints it.

Channels become sequences, and each stage's error channel becomes a list the
stage appends to. Every stage is one pass over its input.

Modules:

- **`Binary`**: the integer types, little-endian bytes, uint64 wrap-around
  and Go's truncated `% 2`.
- **`EventContext`**: the header layout and its decoder.
- **`Events`**: raw events and the `Tracee` receiver. Its external
  collaborators are function-valued fields.
- **`Stage`**: the loop every stage shares, with its order and error
  lemmas.
- **`Decode`, `Process`, `Enrich`, `Emit`**: the four stages.
- **`StackAddresses`**: `getStackAddresses` and the stack map.
- **`Pipeline`**: `runEventPipeline` with the stages run one after another.

The loops are imperative Dafny methods. Each method is proved against a
specification function, and the properties the source promises are proved
as lemmas about those functions. The stack map and the output sinks are
classes whose methods update their fields. The fixed-size stack buffer and
the `argsTags` slice are arrays written by index. The `args` and `argMetas`
slices are sequences updated by index.

## Model

| member | source | states |
|---|---|---|
| Binary.FromToLE | tracee-ebpf/tracee/events_pipeline.go:86 | reading back the n little-endian bytes of x gives x |
| Binary.ToFromLE | tracee-ebpf/tracee/events_pipeline.go:86 | writing back the value of a byte string in its own width gives the same bytes |
| Binary.AddSubInverse | tracee-ebpf/tracee/events_pipeline.go:212-218 | uint64 subtraction undoes uint64 addition and vice versa, wrap-around included |
| Binary.GoRem2 | tracee-ebpf/tracee/events_pipeline.go:187 | Go's `% 2` differs from the argument by a multiple of 2 and takes the argument's sign (0 or 1 for non-negative, 0 or -1 for negative) |
| EventContext.DecodeContext | tracee-ebpf/tracee/events_pipeline.go:56-90 | a header decodes exactly when at least 112 bytes are present; an empty record gives io.EOF and a short one io.ErrUnexpectedEOF; decoding consumes exactly 112 bytes; Argnum is byte 108 |
| EventContext.DecodeEncode | tracee-ebpf/tracee/events_pipeline.go:56-86 | decoding the packed little-endian layout of any header, followed by any bytes, gives back that header and those bytes, whatever the padding holds |
| EventContext.EncodeDecode | tracee-ebpf/tracee/events_pipeline.go:56-86 | every record that decodes is the layout of its decoded header (with its own padding) followed by the remaining bytes |
| EventContext.PaddingIgnored | tracee-ebpf/tracee/events_pipeline.go:73-74 | records that differ only in the three padding bytes decode identically |
| Decode.ReadSlots | tracee-ebpf/tracee/events_pipeline.go:94-95 | the argument loop makes exactly n reads, each starting where the previous one stopped |
| Decode.ArgsMapLastWins | tracee-ebpf/tracee/events_pipeline.go:92-102 | rawArgs holds exactly the tags that were read, and each maps to the value of the last read with that tag |
| Decode.OneErrorPerFailedRead | tracee-ebpf/tracee/events_pipeline.go:95-99 | exactly one error per failed read, and every error is a failed read's |
| Decode.ReadArgs | tracee-ebpf/tracee/events_pipeline.go:92-102 | the loop leaves argsTags with one slot per read (a failed read's slot keeps the zero tag), rawArgs with last-wins bindings, and one error per failed read |
| Decode.DecodeOne | tracee-ebpf/tracee/events_pipeline.go:83-104 | a record yields an event exactly when its header decodes; a short record yields only the EOF error; an event's header is the decoded one and it has Argnum tags |
| Decode.DecodeRawEvents | tracee-ebpf/tracee/events_pipeline.go:83-108 | the stage's output and errors are those of the per-record pass run over the records in order |
| Decode.DecodeKeepsLongRecords | tracee-ebpf/tracee/events_pipeline.go:86-90 | every emitted event comes from a record of at least 112 bytes |
| Decode.DecodedEventsWellFormed | tracee-ebpf/tracee/events_pipeline.go:83-104 | every emitted event has exactly Argnum tags, and there is one event per record long enough for a header, including those whose argument reads failed |
| Process.ProcessOne | tracee-ebpf/tracee/events_pipeline.go:119-132 | a rejected event is dropped without error; a failing processEvent drops it with its one error; otherwise the updated event is forwarded with no error and its tags unchanged |
| Process.ProcessRawEvents | tracee-ebpf/tracee/events_pipeline.go:119-133 | the stage's output and errors are those of the per-event pass run in order |
| Process.ProcessAccounting | tracee-ebpf/tracee/events_pipeline.go:119-127 | each input is forwarded, turned away silently, or dropped with one error, so forwarded + errors + rejected = inputs |
| Stage.RunKeepsOrder | tracee-ebpf/tracee/events_pipeline.go:119-132 | output order is input order: the k-th output comes from the k-th kept item, kept positions strictly increase, and every item that produced a value is kept |
| Stage.RunErrors | tracee-ebpf/tracee/events_pipeline.go:119-132 | the stage's errors are the errors of each pass concatenated in input order |
| Stage.ComposeIncreasing | tracee-ebpf/tracee/events_pipeline.go:14-44 | chaining two order-preserving stages gives an order-preserving composition |
| StackAddresses.StackAddressesMap.GetValue | tracee-ebpf/tracee/events_pipeline.go:145 | returns the blob stored under the id, or nothing if the id has aged out, and records the lookup |
| StackAddresses.StackAddressesMap.DeleteKey | tracee-ebpf/tracee/events_pipeline.go:163 | removes the id and records the delete |
| StackAddresses.WordAt | tracee-ebpf/tracee/events_pipeline.go:151-153 | word i of the blob is the little-endian value of bytes 8i to 8i+8 |
| StackAddresses.UntilZeroShape | tracee-ebpf/tracee/events_pipeline.go:151-159 | the stack is the longest zero-free prefix of the words: a prefix, with no zero, and either all words or followed by a zero word |
| StackAddresses.StackLookup | tracee-ebpf/tracee/events_pipeline.go:138-166 | every call looks the id up; an absent id gives an empty stack with no delete; a present id is deleted |
| StackAddresses.StackLookupBounds | tracee-ebpf/tracee/events_pipeline.go:139-159 | the returned stack holds no zero address and has at most maxStackDepth entries |
| StackAddresses.GetStackAddresses | tracee-ebpf/tracee/events_pipeline.go:138-166 | the buffer loop returns the stack, and leaves the map, exactly as the lookup specification says |
| Enrich.ArgAt | tracee-ebpf/tracee/events_pipeline.go:186 | `RawArgs[tag]` is the bound value if the tag is in the map and nil otherwise |
| Enrich.ResolveMeta | tracee-ebpf/tracee/events_pipeline.go:187-200 | a slot sends at most one error, and none exactly when both its name and its type resolve |
| Enrich.ResolveMetaCases | tracee-ebpf/tracee/events_pipeline.go:187-200 | a missing name leaves Name and Type empty with an invalid-tag error; a missing type sets Name only, with an invalid-type error; otherwise both are set and there is no error |
| Enrich.SlotsAfterLoop | tracee-ebpf/tracee/events_pipeline.go:183-201 | args and argMetas have Argnum slots; `args[i] = RawArgs[ArgsTags[i]]`; argMetas[i] follows the three lookup cases; slots past the tags stay zero |
| Enrich.OneErrorPerUnresolvedSlot | tracee-ebpf/tracee/events_pipeline.go:187-200 | one error per slot whose metadata does not resolve, so no error exactly when all resolve |
| Enrich.AssembleArgs | tracee-ebpf/tracee/events_pipeline.go:183-201 | the index-filling loop produces exactly the specified args, argMetas and error list |
| Enrich.NormalizeTs | tracee-ebpf/tracee/events_pipeline.go:212-218 | relative mode gives a value which, added back to the start time modulo 2^64, is Ts; absolute mode gives one which, less the boot time modulo 2^64, is Ts; without wrap-around these are plain subtraction and addition |
| Enrich.StackFor | tracee-ebpf/tracee/events_pipeline.go:204-207 | with stack output off the stack is empty and the map is not touched |
| Enrich.PrintOne | tracee-ebpf/tracee/events_pipeline.go:174-229 | a rejected event is dropped silently; a failing prepareArgsForPrint drops it with one error; otherwise newEvent is called with the prepared header (its timestamp normalised once), the looked-up metadata, the arguments and the stack, and the event is sent exactly when newEvent succeeds, even after metadata misses; the errors are the metadata errors followed by newEvent's one error if it fails; with stack output off the map is untouched; at most one lookup per event |
| Enrich.PrepareEvent | tracee-ebpf/tracee/events_pipeline.go:174-229 | one pass of the loop produces the specified event, errors and map, and keeps every stored blob readable |
| Enrich.PrepareEventsForPrint | tracee-ebpf/tracee/events_pipeline.go:174-230 | the stage's output, errors and final map are those of the per-event pass run in order |
| Emit.DeliveredAccounts | tracee-ebpf/tracee/events_pipeline.go:239-246 | every event lands in exactly one sink, in order, and a counter that counted the printed events still does |
| Emit.DeliveredConcat | tracee-ebpf/tracee/events_pipeline.go:239-246 | delivering two runs one after the other is delivering them joined |
| Emit.Sinks.Send | tracee-ebpf/tracee/events_pipeline.go:241 | appends the event to ChanEvents and changes nothing else |
| Emit.Sinks.Increment | tracee-ebpf/tracee/events_pipeline.go:243 | adds one to the event counter and changes nothing else |
| Emit.Sinks.Print | tracee-ebpf/tracee/events_pipeline.go:244 | appends the event to the printed events and changes nothing else |
| Emit.PrintEvents | tracee-ebpf/tracee/events_pipeline.go:239-246 | with ChanEvents set, all events go to the channel; otherwise all are printed in order and counted |
| Pipeline.RunEventPipeline | tracee-ebpf/tracee/events_pipeline.go:14-44 | the composed stages produce the specified sink contents, final stack map and errors |
| Pipeline.PipelineKeepsOrder | tracee-ebpf/tracee/events_pipeline.go:14-44 | output event j is what decoding, processing and preparing its origin record made of it, in turn; every origin is a record of at least 112 bytes, and origins strictly increase, so output order is record order |

## Left out

- **Concurrency.** Goroutines, channels, the `done` cancellation, and the
  channel buffer sizes (lines 78-79, 114-115, 169-170, 236) are not
  modelled. Each stage runs to the end of its input before the next starts.
- **Error fan-in.** `MergeErrors`, `WaitForPipeline` and `handleError`
  (lines 251-289) are not modelled.
- Pipeline.RunEventPipeline: its error list is the decode errors, then the
  process errors, then the prepare errors. The real fan-in interleaves the
  stages' errors in a scheduling-dependent order, so only each stage's own
  order is guaranteed.
- **External bodies.** `readArgFromBuff`, `shouldProcessEvent`,
  `processEvent`, `shouldPrintEvent`, `prepareArgsForPrint` and `newEvent`
  are not modelled. They are function-valued fields of `Tracee`, and
  argument values and output events are opaque types.
- **Collaborators as pure functions.** `shouldProcessEvent`,
  `processEvent`, `shouldPrintEvent` and `prepareArgsForPrint` are methods
  on `*Tracee` (lines 120, 123, 175, 178), and their bodies are not part of
  this model. Here each is a pure function of the event it is given. If
  they read or update tracee's own state, the concurrent stages can
  interleave those effects: stage three's calls for one event may see the
  effects of `processEvent` on later events. The sequential result of
  Pipeline.RunEventPipeline matches the program only when these
  collaborators do not depend on such state.
- **Printer and counter.** The printer and `stats.eventCounter` are modelled
  only as the `Sinks` class.
- **Stack map internals.** The kernel map's eviction is not modelled. A
  `GetValue` error is modelled as a missing id.
- StackAddresses.StackAddressesMap.DeleteKey: always succeeds. The source
  ignores its error (line 163), so a failed delete is not modelled.
- **Argument buffer.** `readArgFromBuff` consumes from a `bytes.Buffer`.
  Each read returns the remaining bytes, and the next read starts there.
- **Failed argument reads.** After a failed read the Go loop `continue`s
  (lines 96-99): the record's remaining reads still run and the event is
  still sent with a zero tag in that slot.
- **Panics become preconditions.** Each of these makes Go panic, so the
  model requires it not to happen:
  - more tags than Argnum, which would index `args` out of range;
  - a negative odd EventID reaching the metadata loop, which would index
    `DecParamName` with -1 (Enrich.SafeToPrint);
  - with stack output on, a stack blob that is not whole 8-byte words or
    that overruns `maxStackDepth` slots (StackAddresses.Fits,
    Enrich.StoreFits).
- Enrich.NameTable: gives table 1 for a negative odd id. That case is never
  reached because the preconditions exclude it.
- **Platform.** `strconv.IntSize` is taken to be 64, so stack frames are 8
  bytes.
- StackAddresses.GetStackAddresses: the error result is always nil (lines
  147, 165), so it is not returned.
- Emit.Sinks: `eventCounter` is an unbounded natural. The counter type's
  width and atomicity are not modelled.
- **Error texts.** The `fmt.Errorf` messages at lines 191 and 198 are
  modelled as the `InvalidArgTag(eventId)` and
  `InvalidArgType(argName, eventId)` error values, not as strings.
- **Empty stage.** `printEvent` never sends on its error channel, so that
  stage has no error list.
