/** The records that flow between the stages, and the `Tracee` receiver the
    stages run on: its configuration, lookup tables and the collaborators whose
    bodies are outside this model, each given as a function. */
module Events {
  import opened Binary
  import opened Wrappers
  import opened Errors
  import opened EventContext

  /** argTag, a uint8 naming one argument's slot within its event type. */
  type Tag = byte

  /** An argument value as readArgFromBuff returns it (a Go interface{}). */
  type ArgValue

  /** The external.Event that newEvent builds. */
  type OutputEvent

  type ArgMap = map<Tag, ArgValue>

  datatype RawEvent = RawEvent(ctx: Context, rawArgs: ArgMap, argsTags: seq<Tag>)

  /** external.ArgMeta; Go's zero value has both strings empty. */
  datatype ArgMeta = ArgMeta(name: string, typeName: string)

  /** readArgFromBuff: a tag and value, or an error; either way, the bytes of
      the record it left unread, where the next read starts. */
  datatype ArgRead =
    | ArgOk(tag: Tag, value: ArgValue, rest: seq<byte>)
    | ArgErr(err: Error, rest: seq<byte>)

  /** What processEvent and prepareArgsForPrint leave in the header and the
      argument map they are handed by reference, or the error they return. */
  datatype StepResult =
    | StepOk(ctx: Context, rawArgs: ArgMap)
    | StepErr(err: Error)

  /** DecParamName, a Go [2]map[argTag]string. */
  type NameTables = s: seq<map<Tag, string>> | |s| == 2 witness [map[], map[]]

  datatype OutputConfig = OutputConfig(stackAddresses: bool, relativeTime: bool)

  /** `chanEvents` says whether config.ChanEvents is non-nil. */
  datatype Config = Config(output: OutputConfig, chanEvents: bool)

  datatype Tracee = Tracee(
    readArgFromBuff: seq<byte> -> ArgRead,
    shouldProcessEvent: RawEvent -> bool,
    processEvent: (Context, ArgMap) -> StepResult,
    shouldPrintEvent: RawEvent -> bool,
    prepareArgsForPrint: (Context, ArgMap) -> StepResult,
    newEvent: (Context, seq<ArgMeta>, seq<Option<ArgValue>>, seq<u64>) -> Result<OutputEvent, Error>,
    decParamName: NameTables,
    paramTypes: map<i32, map<string, string>>,
    config: Config,
    startTime: u64,
    bootTime: u64,
    maxStackDepth: nat)
}
