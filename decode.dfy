/** Stage one, decodeRawEvent: for every record, read the header, then run
    exactly Argnum argument reads, filling argsTags by index and rawArgs by
    tag. A header that cannot be read drops the record with one error; an
    argument that cannot be read costs one error and its slot, and the loop
    goes on with the next read. */
module Decode {
  import opened Binary
  import opened Wrappers
  import opened Errors
  import opened EventContext
  import opened Events
  import Stage

  /** What one iteration of the argument loop got from readArgFromBuff. */
  datatype Slot = Read(tag: Tag, value: ArgValue) | Failed(err: Error)

  /** The first n argument reads from `buf`, each starting where the previous
      one stopped, and the bytes left after them. */
  function ReadSlots(read: seq<byte> -> ArgRead, buf: seq<byte>, n: nat): (r: (seq<Slot>, seq<byte>))
    ensures |r.0| == n
  {
    if n == 0 then ([], buf)
    else
      var (slots, rest) := ReadSlots(read, buf, n - 1);
      match read(rest)
      case ArgOk(tag, value, rest') => (slots + [Read(tag, value)], rest')
      case ArgErr(err, rest') => (slots + [Failed(err)], rest')
  }

  /** argsTags after the loop: a slot keeps Go's zero tag when its read failed. */
  function TagsOf(slots: seq<Slot>): seq<Tag>
  {
    seq(|slots|, i requires 0 <= i < |slots| => if slots[i].Read? then slots[i].tag else 0)
  }

  /** rawArgs after the loop. */
  function ArgsMapOf(slots: seq<Slot>): ArgMap
  {
    if slots == [] then map[]
    else
      var m := ArgsMapOf(slots[..|slots| - 1]);
      match slots[|slots| - 1]
      case Read(tag, value) => m[tag := value]
      case Failed(_) => m
  }

  /** What the loop sent on errc. */
  function ErrorsOf(slots: seq<Slot>): seq<Error>
  {
    if slots == [] then []
    else
      var errs := ErrorsOf(slots[..|slots| - 1]);
      match slots[|slots| - 1]
      case Read(_, _) => errs
      case Failed(err) => errs + [err]
  }

  /** Positions whose read failed. */
  function FailedAt(slots: seq<Slot>): set<nat>
  {
    set i | 0 <= i < |slots| && slots[i].Failed?
  }

  /** rawArgs holds exactly the tags that were read, each bound to the value of
      the last read with that tag: a later duplicate overwrites an earlier one. */
  lemma {:induction false} ArgsMapLastWins(slots: seq<Slot>)
    ensures ArgsMapOf(slots).Keys == set i | 0 <= i < |slots| && slots[i].Read? :: slots[i].tag
    ensures forall i :: 0 <= i < |slots| && slots[i].Read?
              && (forall j :: i < j < |slots| && slots[j].Read? ==> slots[j].tag != slots[i].tag)
              ==> ArgsMapOf(slots)[slots[i].tag] == slots[i].value
  {
    if slots != [] {
      var n := |slots| - 1;
      var prefix := slots[..n];
      ArgsMapLastWins(prefix);
      assert forall i :: 0 <= i < n ==> slots[i] == prefix[i];
      var last := slots[n];
      if last.Read? {
        assert (set i | 0 <= i < |slots| && slots[i].Read? :: slots[i].tag)
            == (set i | 0 <= i < n && prefix[i].Read? :: prefix[i].tag) + {last.tag};
      } else {
        assert (set i | 0 <= i < |slots| && slots[i].Read? :: slots[i].tag)
            == (set i | 0 <= i < n && prefix[i].Read? :: prefix[i].tag);
      }
    }
  }

  /** Exactly one error per failed read, and every error is a failed read's. */
  lemma {:induction false} OneErrorPerFailedRead(slots: seq<Slot>)
    ensures |ErrorsOf(slots)| == |FailedAt(slots)|
    ensures forall e :: e in ErrorsOf(slots) <==> exists i :: 0 <= i < |slots| && slots[i] == Failed(e)
  {
    if slots != [] {
      var n := |slots| - 1;
      var prefix := slots[..n];
      OneErrorPerFailedRead(prefix);
      assert forall i :: 0 <= i < n ==> slots[i] == prefix[i];
      if slots[n].Failed? {
        assert FailedAt(slots) == FailedAt(prefix) + {n};
      } else {
        assert FailedAt(slots) == FailedAt(prefix);
      }
    }
  }

  /** One more read appended to the slots, as the loop sees it. */
  lemma SlotsSnoc(slots: seq<Slot>, s: Slot)
    ensures TagsOf(slots + [s]) == TagsOf(slots) + [if s.Read? then s.tag else 0]
    ensures ArgsMapOf(slots + [s]) == (if s.Read? then ArgsMapOf(slots)[s.tag := s.value] else ArgsMapOf(slots))
    ensures ErrorsOf(slots + [s]) == (if s.Failed? then ErrorsOf(slots) + [s.err] else ErrorsOf(slots))
  {
    assert (slots + [s])[..|slots|] == slots;
  }

  /** argsTags while the loop runs: the tags so far, then zero tags up to n. */
  function Padded(tags: seq<Tag>, n: nat): (r: seq<Tag>)
    requires |tags| <= n
    ensures |r| == n
  {
    tags + seq(n - |tags|, _ => 0)
  }

  /** Writing slot |tags| of the padded slice appends to the tags so far. */
  lemma PaddedSnoc(tags: seq<Tag>, tag: Tag, n: nat)
    requires |tags| < n
    ensures Padded(tags, n)[|tags| := tag] == Padded(tags + [tag], n)
  {
    var l, r := Padded(tags, n)[|tags| := tag], Padded(tags + [tag], n);
    assert forall k :: 0 <= k < n ==> l[k] == r[k];
  }

  /** The loop of lines 92-102 on the bytes after the header. argsTags starts
      as Argnum zero tags and rawArgs empty; a failed read sends its error and
      `continue`s, leaving its slot alone. */
  method ReadArgs(read: seq<byte> -> ArgRead, buf: seq<byte>, argnum: byte)
    returns (argsTags: seq<Tag>, rawArgs: ArgMap, errs: seq<Error>)
    ensures var slots := ReadSlots(read, buf, argnum).0;
            argsTags == TagsOf(slots) && rawArgs == ArgsMapOf(slots) && errs == ErrorsOf(slots)
  {
    var tags := new Tag[argnum](_ => 0);
    rawArgs, errs := map[], [];
    var rest := buf;
    ghost var slots: seq<Slot> := [];
    assert tags[..] == Padded([], argnum);
    var i := 0;
    while i < argnum as int
      invariant 0 <= i <= argnum
      invariant (slots, rest) == ReadSlots(read, buf, i)
      invariant tags[..] == Padded(TagsOf(slots), argnum)
      invariant rawArgs == ArgsMapOf(slots) && errs == ErrorsOf(slots)
    {
      match read(rest) {
        case ArgErr(err, rest') =>
          SlotsSnoc(slots, Failed(err));
          PaddedSnoc(TagsOf(slots), 0, argnum);
          errs := errs + [err];
          slots := slots + [Failed(err)];
          rest := rest';
        case ArgOk(tag, value, rest') =>
          SlotsSnoc(slots, Read(tag, value));
          PaddedSnoc(TagsOf(slots), tag, argnum);
          tags[i] := tag;
          rawArgs := rawArgs[tag := value];
          slots := slots + [Read(tag, value)];
          rest := rest';
      }
      i := i + 1;
    }
    assert Padded(TagsOf(slots), argnum) == TagsOf(slots);
    argsTags := tags[..];
  }

  /** One pass of the record loop. */
  function DecodeOne(t: Tracee, data: seq<byte>, u: ()): (r: Stage.Step<RawEvent, ()>)
    ensures r.out.Some? <==> |data| >= ContextSize
    ensures r.out.None? ==> r.errs == [if data == [] then Eof else UnexpectedEof]
    ensures r.out.Some? ==> DecodeContext(data) == Success((r.out.value.ctx, data[ContextSize..]))
    ensures r.out.Some? ==> |r.out.value.argsTags| == r.out.value.ctx.argnum
  {
    match DecodeContext(data)
    case Failure(err) => Stage.Step(None, [err], ())
    case Success((ctx, rest)) =>
      var slots := ReadSlots(t.readArgFromBuff, rest, ctx.argnum).0;
      Stage.Step(Some(RawEvent(ctx, ArgsMapOf(slots), TagsOf(slots))), ErrorsOf(slots), ())
  }

  /** decodeRawEvent over the records of t.eventsChannel, in order. */
  method DecodeRawEvents(t: Tracee, records: seq<seq<byte>>) returns (out: seq<RawEvent>, errs: seq<Error>)
    ensures (out, errs, ()) == Stage.Run(DecodeOne, t, records, ())
  {
    out, errs := [], [];
    var i := 0;
    while i < |records|
      invariant 0 <= i <= |records|
      invariant (out, errs, ()) == Stage.Run(DecodeOne, t, records[..i], ())
    {
      var data := records[i];
      Stage.RunOneMore(DecodeOne, t, records, (), i);
      ghost var step := DecodeOne(t, data, ());
      ghost var out0, errs0 := out, errs;
      match DecodeContext(data) {
        case Failure(err) =>
          errs := errs + [err];
        case Success((ctx, rest)) =>
          var argsTags, rawArgs, argErrs := ReadArgs(t.readArgFromBuff, rest, ctx.argnum);
          errs := errs + argErrs;
          out := out + [RawEvent(ctx, rawArgs, argsTags)];
      }
      assert out == out0 + Stage.Emitted(step) && errs == errs0 + step.errs;
      i := i + 1;
    }
    assert records[..i] == records;
  }

  /** The stage keeps exactly the records long enough to hold a header. */
  lemma DecodeKeepsLongRecords(t: Tracee, records: seq<seq<byte>>)
    ensures forall l :: 0 <= l < |Stage.Kept(DecodeOne, t, records, ())| ==>
              var i := Stage.Kept(DecodeOne, t, records, ())[l];
              i < |records| && |records[i]| >= ContextSize
  {
    Stage.KeptProduced(DecodeOne, t, records, ());
  }

  /** Every event the stage emits has one tag per argument its header announces,
      and the stage emits one event per record long enough to hold a header. */
  lemma DecodedEventsWellFormed(t: Tracee, records: seq<seq<byte>>)
    ensures forall e :: e in Stage.Run(DecodeOne, t, records, ()).0 ==> |e.argsTags| == e.ctx.argnum
    ensures |Stage.Run(DecodeOne, t, records, ()).0| == |set i | 0 <= i < |records| && |records[i]| >= ContextSize|
  {
    Stage.RunKeepsOrder(DecodeOne, t, records, ());
    var ks := Stage.Kept(DecodeOne, t, records, ());
    var long := set i | 0 <= i < |records| && |records[i]| >= ContextSize;
    assert long == Stage.Positions(ks);
    Stage.IncreasingCard(ks);
  }
}
