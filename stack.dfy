/** getStackAddresses: look a stack id up in StackAddressesMap, turn the blob
    into 8-byte little-endian return addresses up to the first zero, then
    delete the id so the map does not fill up. An id that has aged out of the
    map gives an empty stack, no error and no delete. */
module StackAddresses {
  import opened Binary
  import opened Wrappers

  /** strconv.IntSize / 8 on a 64-bit platform. */
  const StackFrameSize: nat := 8

  /** What is observable of the map: its entries, and the ids looked up and
      deleted so far, in call order. */
  datatype StoreState = StoreState(entries: map<u32, seq<byte>>, lookups: seq<u32>, deletes: seq<u32>)

  /** The BPF map of captured stacks, keyed by stack id. Its eviction policy
      is outside this model; GetValue and DeleteKey are its interface. */
  class StackAddressesMap {
    var entries: map<u32, seq<byte>>
    var lookups: seq<u32>
    var deletes: seq<u32>

    function State(): StoreState
      reads this
    {
      StoreState(entries, lookups, deletes)
    }

    constructor (entries: map<u32, seq<byte>>)
      ensures State() == StoreState(entries, [], [])
    {
      this.entries := entries;
      lookups, deletes := [], [];
    }

    /** The blob under id, or None where the real call returns an error. */
    method GetValue(id: u32) returns (blob: Option<seq<byte>>)
      modifies this
      ensures blob == (if id in old(entries) then Some(old(entries)[id]) else None)
      ensures State() == old(State()).(lookups := old(lookups) + [id])
    {
      blob := if id in entries then Some(entries[id]) else None;
      lookups := lookups + [id];
    }

    method DeleteKey(id: u32)
      modifies this
      ensures State() == StoreState(old(entries) - {id}, old(lookups), old(deletes) + [id])
    {
      entries := entries - {id};
      deletes := deletes + [id];
    }
  }

  /** The blob read as consecutive 8-byte little-endian words (whole words only). */
  function Words(blob: seq<byte>): (ws: seq<u64>)
    ensures |ws| == |blob| / StackFrameSize
  {
    if |blob| < StackFrameSize then []
    else [U64At(blob, 0)] + Words(blob[StackFrameSize..])
  }

  /** Word i is the little-endian value of bytes 8i to 8i+8. */
  lemma {:induction false} WordAt(blob: seq<byte>, i: nat)
    requires i < |Words(blob)|
    ensures Words(blob)[i] == U64At(blob, StackFrameSize * i)
    decreases i
  {
    if i > 0 {
      var tail := blob[StackFrameSize..];
      WordAt(tail, i - 1);
      assert tail[StackFrameSize * (i - 1)..StackFrameSize * (i - 1) + 8]
          == blob[StackFrameSize * i..StackFrameSize * i + 8];
    }
  }

  /** The words of ws up to the first zero one. */
  function UntilZero(ws: seq<u64>): seq<u64>
  {
    if ws == [] || ws[0] == 0 then [] else [ws[0]] + UntilZero(ws[1..])
  }

  /** UntilZero(ws) is the longest prefix of ws holding no zero: a prefix, free
      of zeros, and either all of ws or followed by a zero word. */
  lemma {:induction false} UntilZeroShape(ws: seq<u64>)
    ensures UntilZero(ws) <= ws
    ensures 0 !in UntilZero(ws)
    ensures |UntilZero(ws)| < |ws| ==> ws[|UntilZero(ws)|] == 0
  {
    if ws != [] && ws[0] != 0 {
      UntilZeroShape(ws[1..]);
    }
  }

  /** A blob getStackAddresses reads without panicking: whole words only, and
      the loop never writes past the maxStackDepth slots it allocated (the slot
      for the terminating zero word included). */
  predicate Fits(blob: seq<byte>, maxStackDepth: nat)
  {
    && |blob| % StackFrameSize == 0
    && var n := |UntilZero(Words(blob))|;
       if n < |Words(blob)| then n < maxStackDepth else n <= maxStackDepth
  }

  /** What getStackAddresses returns, and the map afterwards. */
  function StackLookup(stackId: u32, st: StoreState): (r: (seq<u64>, StoreState))
    ensures r.1.lookups == st.lookups + [stackId]
    ensures stackId !in st.entries ==> r.0 == [] && r.1.entries == st.entries && r.1.deletes == st.deletes
    ensures stackId in st.entries ==> r.1.entries == st.entries - {stackId} && r.1.deletes == st.deletes + [stackId]
  {
    if stackId !in st.entries then ([], st.(lookups := st.lookups + [stackId]))
    else
      (UntilZero(Words(st.entries[stackId])),
       StoreState(st.entries - {stackId}, st.lookups + [stackId], st.deletes + [stackId]))
  }

  /** The stack getStackAddresses returns holds no zero address, and fits in
      the maxStackDepth slots allocated for it when the blob does. */
  lemma StackLookupBounds(stackId: u32, st: StoreState, maxStackDepth: nat)
    requires stackId in st.entries ==> Fits(st.entries[stackId], maxStackDepth)
    ensures 0 !in StackLookup(stackId, st).0
    ensures |StackLookup(stackId, st).0| <= maxStackDepth
  {
    if stackId in st.entries {
      UntilZeroShape(Words(st.entries[stackId]));
    }
  }

  /** Reading word c of ws while c is still inside the zero-free prefix: a zero
      ends the prefix there, any other word extends it past c. */
  lemma UntilZeroStep(ws: seq<u64>, c: nat)
    requires c < |ws| && c <= |UntilZero(ws)|
    ensures ws[c] == 0 ==> UntilZero(ws) == ws[..c]
    ensures ws[c] != 0 ==> c < |UntilZero(ws)|
  {
    UntilZeroShape(ws);
    var r := UntilZero(ws);
    if c < |r| {
      assert r[c] == ws[c] && r[c] in r;
    }
  }

  /** While the zero-free prefix goes on, a blob that fits leaves a free slot
      for the next word. */
  lemma FitsRoom(blob: seq<byte>, maxStackDepth: nat, c: nat)
    requires Fits(blob, maxStackDepth)
    requires c < |Words(blob)| && c <= |UntilZero(Words(blob))|
    ensures c < maxStackDepth
  {
  }

  /** Setting slot c of a buffer that agrees with ws below c to ws[c] makes it
      agree with ws below c + 1. */
  lemma PrefixGrows(buf: seq<u64>, ws: seq<u64>, c: nat)
    requires c < |buf| && c < |ws| && buf[..c] == ws[..c]
    ensures buf[c := ws[c]][..c + 1] == ws[..c + 1]
  {
    assert buf[c := ws[c]][..c + 1] == buf[..c] + [ws[c]];
  }

  /** Lines 138-166. The error result is always nil, so it is not returned. */
  method GetStackAddresses(store: StackAddressesMap, stackId: u32, maxStackDepth: nat) returns (stack: seq<u64>)
    requires stackId in store.entries ==> Fits(store.entries[stackId], maxStackDepth)
    modifies store
    ensures (stack, store.State()) == StackLookup(stackId, old(store.State()))
  {
    var addresses := new u64[maxStackDepth](_ => 0);
    var stackBytes := store.GetValue(stackId);
    if stackBytes.None? {
      stack := addresses[0..0];
      assert stack == [];
      return;
    }
    var blob := stackBytes.value;
    ghost var st0 := old(store.State());
    assert stackId in st0.entries && blob == st0.entries[stackId];
    ghost var ws := Words(blob);
    ghost var n := |UntilZero(ws)|;
    var stackCounter := 0;
    var i := 0;
    while i < |blob|
      modifies addresses
      invariant 0 <= i <= |blob| && i == StackFrameSize * stackCounter
      invariant stackCounter <= n
      invariant addresses[..stackCounter] == ws[..stackCounter]
    {
      UntilZeroStep(ws, stackCounter);
      FitsRoom(blob, maxStackDepth, stackCounter);
      WordAt(blob, stackCounter);
      addresses[stackCounter] := 0;
      var stackAddr := U64At(blob, i);
      if stackAddr == 0 {
        break;
      }
      ghost var zeroed := addresses[..];
      addresses[stackCounter] := stackAddr;
      assert addresses[..] == zeroed[stackCounter := stackAddr];
      PrefixGrows(zeroed, ws, stackCounter);
      stackCounter := stackCounter + 1;
      i := i + StackFrameSize;
    }
    assert addresses[..stackCounter] == UntilZero(ws) by {
      if i >= |blob| {
        UntilZeroShape(ws);
        assert ws[..stackCounter] == ws;
      }
    }
    store.DeleteKey(stackId);
    stack := addresses[0..stackCounter];
    assert store.State() == StoreState(st0.entries - {stackId}, st0.lookups + [stackId], st0.deletes + [stackId]);
  }
}
