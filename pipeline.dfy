/** runEventPipeline with the goroutines taken out: the four stages run one
    after the other over a list of records, each stage's output list being the
    next stage's input, and the errors of all stages collected into one list. */
module Pipeline {
  import opened Binary
  import opened Wrappers
  import opened Errors
  import opened EventContext
  import opened Events
  import opened StackAddresses
  import opened Emit
  import Stage
  import Decode
  import Process
  import Enrich

  /** What decodeRawEvent sends on. */
  function Decoded(t: Tracee, records: seq<seq<byte>>): seq<RawEvent>
  {
    Stage.Run(Decode.DecodeOne, t, records, ()).0
  }

  /** What processRawEvent sends on. */
  function Processed(t: Tracee, records: seq<seq<byte>>): seq<RawEvent>
  {
    Stage.Run(Process.ProcessOne, t, Decoded(t, records), ()).0
  }

  /** What prepareEventForPrint sends on and on errc, and the stack map after it. */
  function Prepared(t: Tracee, records: seq<seq<byte>>, st: StoreState): (seq<OutputEvent>, seq<Error>, StoreState)
  {
    Stage.Run(Enrich.PrintOne, t, Processed(t, records), st)
  }

  /** The errors of the three stages that send any, stage by stage. */
  function PipelineErrors(t: Tracee, records: seq<seq<byte>>, st: StoreState): seq<Error>
  {
    Stage.Run(Decode.DecodeOne, t, records, ()).1
      + Stage.Run(Process.ProcessOne, t, Decoded(t, records), ()).1
      + Prepared(t, records, st).1
  }

  /** Lines 14-44, with the stages run in sequence. */
  method RunEventPipeline(t: Tracee, records: seq<seq<byte>>, store: StackAddressesMap, sinks: Sinks)
    returns (errs: seq<Error>)
    requires forall e :: e in Processed(t, records) ==> Enrich.SafeToPrint(t, e)
    requires Enrich.StoreFits(t, store.entries)
    modifies store, sinks
    ensures errs == PipelineErrors(t, records, old(store.State()))
    ensures store.State() == Prepared(t, records, old(store.State())).2
    ensures sinks.State() == Delivered(t.config.chanEvents, old(sinks.State()), Prepared(t, records, old(store.State())).0)
  {
    var rawEvents, decodeErrs := Decode.DecodeRawEvents(t, records);
    var processed, processErrs := Process.ProcessRawEvents(t, rawEvents);
    var printable, prepareErrs := Enrich.PrepareEventsForPrint(t, processed, store);
    PrintEvents(t, printable, sinks);
    errs := decodeErrs + processErrs + prepareErrs;
  }

  /** For each event the pipeline outputs, the position of the record it was
      decoded from: the three stages' kept positions composed. */
  function Origins(t: Tracee, records: seq<seq<byte>>, st: StoreState): seq<nat>
  {
    Stage.Compose(Stage.Kept(Decode.DecodeOne, t, records, ()),
      Stage.Compose(Stage.Kept(Process.ProcessOne, t, Decoded(t, records), ()),
        Stage.Kept(Enrich.PrintOne, t, Processed(t, records), st)))
  }

  /** The pipeline keeps input order. There is one origin per output event,
      each a record long enough to hold a header, and later output events
      have later origins. Output event j is what the three passes made of its
      origin record in turn: decoding records[origins[j]] gave the decoded
      event at position k2[k3[j]], processing that gave the processed event at
      position k3[j], and preparing that, with the stack map as it stood then,
      gave output event j. */
  lemma PipelineKeepsOrder(t: Tracee, records: seq<seq<byte>>, st: StoreState)
    ensures var origins, out := Origins(t, records, st), Prepared(t, records, st).0;
            var decoded, processed := Decoded(t, records), Processed(t, records);
            var k2 := Stage.Kept(Process.ProcessOne, t, decoded, ());
            var k3 := Stage.Kept(Enrich.PrintOne, t, processed, st);
            && |origins| == |out| == |k3|
            && (forall j :: 0 <= j < |origins| ==>
                  && origins[j] < |records| && |records[origins[j]]| >= ContextSize
                  && k3[j] < |processed| && k3[j] < |k2| && k2[k3[j]] < |decoded|
                  && Decode.DecodeOne(t, records[origins[j]], ()).out == Some(decoded[k2[k3[j]]])
                  && Process.ProcessOne(t, decoded[k2[k3[j]]], ()).out == Some(processed[k3[j]])
                  && Enrich.PrintOne(t, processed[k3[j]], Stage.StateAt(Enrich.PrintOne, t, processed, st, k3[j])).out
                     == Some(out[j]))
            && (forall j, l :: 0 <= j < l < |origins| ==> origins[j] < origins[l])
  {
    var decoded, processed := Decoded(t, records), Processed(t, records);
    var out := Prepared(t, records, st).0;
    var k1 := Stage.Kept(Decode.DecodeOne, t, records, ());
    var k2 := Stage.Kept(Process.ProcessOne, t, decoded, ());
    var k3 := Stage.Kept(Enrich.PrintOne, t, processed, st);
    Stage.KeptIncreasing(Decode.DecodeOne, t, records, ());
    Stage.KeptIncreasing(Process.ProcessOne, t, decoded, ());
    Stage.KeptIncreasing(Enrich.PrintOne, t, processed, st);
    Stage.KeptLength(Decode.DecodeOne, t, records, ());
    Stage.KeptLength(Process.ProcessOne, t, decoded, ());
    Stage.KeptLength(Enrich.PrintOne, t, processed, st);
    Stage.ComposeIncreasing(k2, k3, |decoded|);
    var k23 := Stage.Compose(k2, k3);
    Stage.ComposeIncreasing(k1, k23, |records|);
    Decode.DecodeKeepsLongRecords(t, records);
    forall j | 0 <= j < |k3|
      ensures Decode.DecodeOne(t, records[k1[k2[k3[j]]]], ()).out == Some(decoded[k2[k3[j]]])
      ensures Process.ProcessOne(t, decoded[k2[k3[j]]], ()).out == Some(processed[k3[j]])
      ensures Enrich.PrintOne(t, processed[k3[j]], Stage.StateAt(Enrich.PrintOne, t, processed, st, k3[j])).out
              == Some(out[j])
    {
      Stage.KeptAt(Enrich.PrintOne, t, processed, st, j);
      Stage.KeptAt(Process.ProcessOne, t, decoded, (), k3[j]);
      Stage.KeptAt(Decode.DecodeOne, t, records, (), k2[k3[j]]);
    }
  }
}
