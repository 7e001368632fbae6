/** Fixed-width integers as Go declares them, little-endian byte order as
    `encoding/binary.LittleEndian` reads it, and the two pieces of Go integer
    arithmetic the pipeline relies on: uint64 wrap-around and the truncated
    remainder `%`. */
module Binary {

  type byte = x: int | 0 <= x < 0x100
  type u32 = x: int | 0 <= x < 0x1_0000_0000
  type u64 = x: int | 0 <= x < 0x1_0000_0000_0000_0000
  type i32 = x: int | -0x8000_0000 <= x < 0x8000_0000
  type i64 = x: int | -0x8000_0000_0000_0000 <= x < 0x8000_0000_0000_0000

  const TwoTo32: nat := 0x1_0000_0000
  const TwoTo64: nat := 0x1_0000_0000_0000_0000

  /** 256 to the power n: one more than the largest value n bytes can hold. */
  function Pow256(n: nat): (r: nat)
    ensures r > 0
  {
    if n == 0 then 1 else 256 * Pow256(n - 1)
  }

  lemma Pow256Widths()
    ensures Pow256(1) == 0x100 && Pow256(4) == TwoTo32 && Pow256(8) == TwoTo64
  {
    assert Pow256(2) == 0x1_0000;
    assert Pow256(3) == 0x100_0000;
    assert Pow256(5) == 0x100_0000_0000;
    assert Pow256(6) == 0x1_0000_0000_0000;
    assert Pow256(7) == 0x100_0000_0000_0000;
  }

  /** The unsigned value of `s`, least significant byte first. */
  function FromLE(s: seq<byte>): (r: nat)
    ensures r < Pow256(|s|)
  {
    if s == [] then 0 else s[0] + 256 * FromLE(s[1..])
  }

  /** The n little-endian bytes of x. */
  function ToLE(x: nat, n: nat): (s: seq<byte>)
    requires x < Pow256(n)
    ensures |s| == n
  {
    if n == 0 then [] else [x % 256] + ToLE(x / 256, n - 1)
  }

  lemma {:induction false} FromToLE(x: nat, n: nat)
    requires x < Pow256(n)
    ensures FromLE(ToLE(x, n)) == x
  {
    if n > 0 {
      FromToLE(x / 256, n - 1);
      assert ToLE(x, n)[1..] == ToLE(x / 256, n - 1);
    }
  }

  lemma {:induction false} ToFromLE(s: seq<byte>)
    ensures ToLE(FromLE(s), |s|) == s
  {
    if s != [] {
      var x := FromLE(s);
      assert x % 256 == s[0] && x / 256 == FromLE(s[1..]);
      ToFromLE(s[1..]);
    }
  }

  /** binary.LittleEndian.Uint32 on the 4 bytes at `off`. */
  function U32At(data: seq<byte>, off: nat): (r: u32)
    requires off + 4 <= |data|
    ensures ToLE(r, 4) == data[off..off + 4]
  {
    Pow256Widths();
    ToFromLE(data[off..off + 4]);
    FromLE(data[off..off + 4])
  }

  /** binary.LittleEndian.Uint64 on the 8 bytes at `off`. */
  function U64At(data: seq<byte>, off: nat): (r: u64)
    requires off + 8 <= |data|
    ensures ToLE(r, 8) == data[off..off + 8]
  {
    Pow256Widths();
    ToFromLE(data[off..off + 8]);
    FromLE(data[off..off + 8])
  }

  /** The four bytes of a uint32 as binary.Write would lay them out. */
  function U32Bytes(x: u32): (s: seq<byte>)
    ensures |s| == 4 && U32At(s, 0) == x
  {
    Pow256Widths();
    FromToLE(x, 4);
    var s := ToLE(x, 4);
    assert s[0..4] == s;
    s
  }

  function U64Bytes(x: u64): (s: seq<byte>)
    ensures |s| == 8 && U64At(s, 0) == x
  {
    Pow256Widths();
    FromToLE(x, 8);
    var s := ToLE(x, 8);
    assert s[0..8] == s;
    s
  }

  /** Two's-complement reading of a uint32 bit pattern as int32. */
  function AsInt32(u: u32): (v: i32)
    ensures (v < 0 <==> u >= 0x8000_0000) && (u - v) % TwoTo32 == 0
  {
    if u < 0x8000_0000 then u else u - TwoTo32
  }

  /** The bit pattern of an int32. */
  function Int32Bits(v: i32): (u: u32)
    ensures AsInt32(u) == v
  {
    if v >= 0 then v else v + TwoTo32
  }

  function AsInt64(u: u64): (v: i64)
    ensures (v < 0 <==> u >= 0x8000_0000_0000_0000) && (u - v) % TwoTo64 == 0
  {
    if u < 0x8000_0000_0000_0000 then u else u - TwoTo64
  }

  function Int64Bits(v: i64): (u: u64)
    ensures AsInt64(u) == v
  {
    if v >= 0 then v else v + TwoTo64
  }

  /** Go's `a + b` on uint64: the sum modulo 2^64. */
  function AddU64(a: u64, b: u64): (r: u64)
    ensures (r - a - b) % TwoTo64 == 0
    ensures a + b < TwoTo64 ==> r == a + b
  {
    (a + b) % TwoTo64
  }

  /** Go's `a - b` on uint64: the difference modulo 2^64. */
  function SubU64(a: u64, b: u64): (r: u64)
    ensures (r - a + b) % TwoTo64 == 0
    ensures b <= a ==> r == a - b
  {
    (a - b) % TwoTo64
  }

  /** Subtracting undoes adding and adding undoes subtracting, wrap-around included. */
  lemma AddSubInverse(a: u64, b: u64)
    ensures SubU64(AddU64(a, b), b) == a
    ensures AddU64(SubU64(a, b), b) == a
  {
    if a + b >= TwoTo64 {
      assert AddU64(a, b) == a + b - TwoTo64;
    }
    if a < b {
      assert SubU64(a, b) == a - b + TwoTo64;
    }
  }

  /** Go's `a % 2`, which truncates toward zero: the remainder takes the sign
      of a, so it is -1 for a negative odd a. */
  function GoRem2(a: int): (r: int)
    ensures (a - r) % 2 == 0
    ensures a >= 0 ==> 0 <= r < 2
    ensures a < 0 ==> -2 < r <= 0
  {
    if a >= 0 then a % 2 else -((-a) % 2)
  }
}
