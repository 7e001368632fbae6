/** The `context` header every raw event record starts with, and its decoding
    by `binary.Read(dataBuff, binary.LittleEndian, &ctx)`: fields in
    declaration order, packed, little-endian, with the three blank padding
    bytes after Argnum skipped. */
module EventContext {
  import opened Binary
  import opened Wrappers
  import opened Errors

  /** Bytes binary.Read consumes for one header. */
  const ContextSize: nat := 112
  /** Offset of the one-byte Argnum, the last field before the padding. */
  const ArgnumOffset: nat := 108

  type Bytes16 = s: seq<byte> | |s| == 16
    witness [0, 0, 0, 0, 0, 0, 0, 0, 0, 0, 0, 0, 0, 0, 0, 0]

  datatype Context = Context(
    ts: u64,
    pid: u32, tid: u32, ppid: u32,
    hostPid: u32, hostTid: u32, hostPpid: u32,
    uid: u32, mntId: u32, pidId: u32,
    comm: Bytes16, utsName: Bytes16, contId: Bytes16,
    eventId: i32,
    retval: i64,
    stackId: u32,
    argnum: byte)

  /** Reads one header from the front of `data`; on success also returns the
      bytes that follow it, which the argument reader goes on with. */
  function DecodeContext(data: seq<byte>): (r: Result<(Context, seq<byte>), Error>)
    ensures r.Failure? <==> |data| < ContextSize
    ensures r.Failure? ==> r.error == (if data == [] then Eof else UnexpectedEof)
    ensures r.Success? ==> r.value.1 == data[ContextSize..]
    ensures r.Success? ==> r.value.0.argnum == data[ArgnumOffset]
  {
    if data == [] then Failure(Eof)
    else if |data| < ContextSize then Failure(UnexpectedEof)
    else
      var ctx := Context(
        ts := U64At(data, 0),
        pid := U32At(data, 8), tid := U32At(data, 12), ppid := U32At(data, 16),
        hostPid := U32At(data, 20), hostTid := U32At(data, 24), hostPpid := U32At(data, 28),
        uid := U32At(data, 32), mntId := U32At(data, 36), pidId := U32At(data, 40),
        comm := data[44..60], utsName := data[60..76], contId := data[76..92],
        eventId := AsInt32(U32At(data, 92)),
        retval := AsInt64(U64At(data, 96)),
        stackId := U32At(data, 104),
        argnum := data[108]);
      Success((ctx, data[ContextSize..]))
  }

  /** The bytes the producer lays out for `c`, followed by the given padding. */
  function EncodeContext(c: Context, padding: seq<byte>): (s: seq<byte>)
    requires |padding| == 3
    ensures |s| == ContextSize
  {
    U64Bytes(c.ts)
    + U32Bytes(c.pid) + U32Bytes(c.tid) + U32Bytes(c.ppid)
    + U32Bytes(c.hostPid) + U32Bytes(c.hostTid) + U32Bytes(c.hostPpid)
    + U32Bytes(c.uid) + U32Bytes(c.mntId) + U32Bytes(c.pidId)
    + c.comm + c.utsName + c.contId
    + U32Bytes(Int32Bits(c.eventId))
    + U64Bytes(Int64Bits(c.retval))
    + U32Bytes(c.stackId)
    + [c.argnum]
    + padding
  }

  /** Decoding what the producer encoded gives back the header and leaves the
      argument bytes untouched, whatever the padding holds. */
  lemma DecodeEncode(c: Context, padding: seq<byte>, rest: seq<byte>)
    requires |padding| == 3
    ensures DecodeContext(EncodeContext(c, padding) + rest) == Success((c, rest))
  {
    var s := EncodeContext(c, padding) + rest;
    assert s[0..8] == U64Bytes(c.ts);
    assert s[8..12] == U32Bytes(c.pid);
    assert s[12..16] == U32Bytes(c.tid);
    assert s[16..20] == U32Bytes(c.ppid);
    assert s[20..24] == U32Bytes(c.hostPid);
    assert s[24..28] == U32Bytes(c.hostTid);
    assert s[28..32] == U32Bytes(c.hostPpid);
    assert s[32..36] == U32Bytes(c.uid);
    assert s[36..40] == U32Bytes(c.mntId);
    assert s[40..44] == U32Bytes(c.pidId);
    assert s[44..60] == c.comm;
    assert s[60..76] == c.utsName;
    assert s[76..92] == c.contId;
    assert s[92..96] == U32Bytes(Int32Bits(c.eventId));
    assert s[96..104] == U64Bytes(Int64Bits(c.retval));
    assert s[104..108] == U32Bytes(c.stackId);
    assert s[ContextSize..] == rest;
  }

  /** A record that decodes is exactly the encoding of its header, with the
      record's own padding bytes, followed by the remaining bytes. */
  lemma EncodeDecode(data: seq<byte>)
    requires DecodeContext(data).Success?
    ensures var (c, rest) := DecodeContext(data).value;
      data == EncodeContext(c, data[ArgnumOffset + 1..ContextSize]) + rest
  {
    var (c, rest) := DecodeContext(data).value;
    assert Int32Bits(c.eventId) == U32At(data, 92);
    assert Int64Bits(c.retval) == U64At(data, 96);
    assert U64Bytes(c.ts) == data[0..8];
    assert U32Bytes(c.pid) == data[8..12];
    assert U32Bytes(c.tid) == data[12..16];
    assert U32Bytes(c.ppid) == data[16..20];
    assert U32Bytes(c.hostPid) == data[20..24];
    assert U32Bytes(c.hostTid) == data[24..28];
    assert U32Bytes(c.hostPpid) == data[28..32];
    assert U32Bytes(c.uid) == data[32..36];
    assert U32Bytes(c.mntId) == data[36..40];
    assert U32Bytes(c.pidId) == data[40..44];
    assert U32Bytes(Int32Bits(c.eventId)) == data[92..96];
    assert U64Bytes(Int64Bits(c.retval)) == data[96..104];
    assert U32Bytes(c.stackId) == data[104..108];
    assert data == data[0..8] + data[8..12] + data[12..16] + data[16..20]
      + data[20..24] + data[24..28] + data[28..32] + data[32..36] + data[36..40]
      + data[40..44] + data[44..60] + data[60..76] + data[76..92] + data[92..96]
      + data[96..104] + data[104..108] + [data[108]] + data[109..112] + data[112..];
  }

  /** The three padding bytes after Argnum are skipped: records that differ only
      there decode to the same header and the same remaining bytes. */
  lemma PaddingIgnored(data: seq<byte>, other: seq<byte>)
    requires |data| == |other|
    requires forall i :: 0 <= i < |data| && !(ArgnumOffset < i < ContextSize) ==> data[i] == other[i]
    ensures DecodeContext(data) == DecodeContext(other)
  {
    if |data| >= ContextSize {
      assert data[0..8] == other[0..8];
      assert data[8..12] == other[8..12];
      assert data[12..16] == other[12..16];
      assert data[16..20] == other[16..20];
      assert data[20..24] == other[20..24];
      assert data[24..28] == other[24..28];
      assert data[28..32] == other[28..32];
      assert data[32..36] == other[32..36];
      assert data[36..40] == other[36..40];
      assert data[40..44] == other[40..44];
      assert data[44..60] == other[44..60];
      assert data[60..76] == other[60..76];
      assert data[76..92] == other[76..92];
      assert data[92..96] == other[92..96];
      assert data[96..104] == other[96..104];
      assert data[104..108] == other[104..108];
      assert data[ContextSize..] == other[ContextSize..];
    }
  }
}
