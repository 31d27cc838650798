/** Bytes, little-endian integers and the bounds-checked reads every decoder
    is built from.  A read whose range does not lie inside the buffer gives
    `Truncated`; the Go code slices without checking and panics there. */
module Bytes {
  import opened Wrappers
  import opened Errors

  type byte = b: int | 0 <= b < 256

  const U32_LIMIT: nat := 0x1_0000_0000
  const U64_LIMIT: nat := 0x1_0000_0000_0000_0000

  function Pow256(n: nat): (r: nat)
    ensures r >= 1
  {
    if n == 0 then 1 else 256 * Pow256(n - 1)
  }

  lemma Pow256Values()
    ensures Pow256(4) == U32_LIMIT && Pow256(8) == U64_LIMIT
  {
    assert Pow256(1) == 256;
    assert Pow256(2) == 65536;
    assert Pow256(4) == 65536 * 65536;
  }

  /** The unsigned value of a little-endian byte string. */
  function LeValue(bs: seq<byte>): (r: nat)
    ensures r < Pow256(|bs|)
  {
    if |bs| == 0 then 0 else bs[0] + 256 * LeValue(bs[1..])
  }

  /** The `n` low-order bytes of `v`, least significant first.  A value too
      large for `n` bytes is cut to its low bytes, as Go's `PutUint32` and
      `PutUint64` do after a conversion to the narrower type. */
  function LeBytes(v: nat, n: nat): (r: seq<byte>)
    ensures |r| == n
  {
    if n == 0 then [] else [(v % 256) as byte] + LeBytes(v / 256, n - 1)
  }

  /** Writing a value that fits and reading it back gives the value. */
  lemma {:induction false} LeValueOfLeBytes(v: nat, n: nat)
    requires v < Pow256(n)
    ensures LeValue(LeBytes(v, n)) == v
  {
    if n > 0 {
      var bs := LeBytes(v, n);
      assert bs[1..] == LeBytes(v / 256, n - 1);
      LeValueOfLeBytes(v / 256, n - 1);
    }
  }

  /** Reading any byte string and writing its value back gives the string. */
  lemma {:induction false} LeBytesOfLeValue(bs: seq<byte>)
    ensures LeBytes(LeValue(bs), |bs|) == bs
  {
    if |bs| > 0 {
      var v := LeValue(bs);
      assert v % 256 == bs[0] && v / 256 == LeValue(bs[1..]);
      LeBytesOfLeValue(bs[1..]);
    }
  }

  function U32Bytes(v: nat): (r: seq<byte>)
    ensures |r| == 4
  {
    LeBytes(v, 4)
  }

  function U64Bytes(v: nat): (r: seq<byte>)
    ensures |r| == 8
  {
    LeBytes(v, 8)
  }

  // Bounds-checked reads at an absolute position.

  function Slice(buf: seq<byte>, pos: nat, n: nat): (r: Result<seq<byte>, Error>)
    ensures r.Success? <==> pos + n <= |buf|
    ensures r.Success? ==> r.value == buf[pos..pos + n]
    ensures r.Failure? ==> r.error == Truncated
  {
    if pos + n <= |buf| then Success(buf[pos..pos + n]) else Failure(Truncated)
  }

  function U8At(buf: seq<byte>, pos: nat): (r: Result<byte, Error>)
    ensures r.Success? <==> pos < |buf|
    ensures r.Success? ==> r.value == buf[pos]
    ensures r.Failure? ==> r.error == Truncated
  {
    if pos < |buf| then Success(buf[pos]) else Failure(Truncated)
  }

  function U32At(buf: seq<byte>, pos: nat): (r: Result<nat, Error>)
    ensures r.Success? <==> pos + 4 <= |buf|
    ensures r.Success? ==> r.value < U32_LIMIT
    ensures r.Failure? ==> r.error == Truncated
  {
    Pow256Values();
    var bs :- Slice(buf, pos, 4);
    Success(LeValue(bs))
  }

  function U64At(buf: seq<byte>, pos: nat): (r: Result<nat, Error>)
    ensures r.Success? <==> pos + 8 <= |buf|
    ensures r.Success? ==> r.value < U64_LIMIT
    ensures r.Failure? ==> r.error == Truncated
  {
    Pow256Values();
    var bs :- Slice(buf, pos, 8);
    Success(LeValue(bs))
  }

  /** `e` lies in `buf` starting at `pos`, stated byte by byte so that a
      fact about a long encoding unfolds one byte at a time. */
  predicate Holds(buf: seq<byte>, pos: nat, e: seq<byte>)
    decreases |e|
  {
    if |e| == 0 then pos <= |buf|
    else pos < |buf| && buf[pos] == e[0] && Holds(buf, pos + 1, e[1..])
  }

  /** `Holds` is the slice of `buf` at `pos` being `e`. */
  lemma {:induction false} HoldsIff(buf: seq<byte>, pos: nat, e: seq<byte>)
    ensures Holds(buf, pos, e) <==> pos + |e| <= |buf| && buf[pos..pos + |e|] == e
    decreases |e|
  {
    if |e| > 0 {
      HoldsIff(buf, pos + 1, e[1..]);
      if pos + |e| <= |buf| {
        assert buf[pos..pos + |e|] == [buf[pos]] + buf[pos + 1..pos + |e|];
        assert e == [e[0]] + e[1..];
      }
    }
  }

  lemma HoldsSplit(buf: seq<byte>, pos: nat, a: seq<byte>, b: seq<byte>)
    requires Holds(buf, pos, a + b)
    ensures Holds(buf, pos, a) && Holds(buf, pos + |a|, b)
  {
    HoldsIff(buf, pos, a + b);
    HoldsIff(buf, pos, a);
    HoldsIff(buf, pos + |a|, b);
    assert buf[pos..pos + |a|] == (a + b)[..|a|];
    assert buf[pos + |a|..pos + |a| + |b|] == (a + b)[|a|..];
  }

  lemma HoldsU8(buf: seq<byte>, pos: nat, v: byte)
    requires Holds(buf, pos, [v])
    ensures U8At(buf, pos) == Success(v)
  {
  }

  lemma HoldsU32(buf: seq<byte>, pos: nat, v: nat)
    requires v < U32_LIMIT && Holds(buf, pos, U32Bytes(v))
    ensures U32At(buf, pos) == Success(v)
  {
    HoldsIff(buf, pos, U32Bytes(v));
    Pow256Values();
    LeValueOfLeBytes(v, 4);
  }

  lemma HoldsU64(buf: seq<byte>, pos: nat, v: nat)
    requires v < U64_LIMIT && Holds(buf, pos, U64Bytes(v))
    ensures U64At(buf, pos) == Success(v)
  {
    HoldsIff(buf, pos, U64Bytes(v));
    Pow256Values();
    LeValueOfLeBytes(v, 8);
  }

  lemma HoldsSlice(buf: seq<byte>, pos: nat, e: seq<byte>)
    requires Holds(buf, pos, e)
    ensures Slice(buf, pos, |e|) == Success(e)
  {
    HoldsIff(buf, pos, e);
  }

  /** Whole-buffer form of `Holds`: `buf` is `e` followed by anything. */
  lemma HoldsWhole(e: seq<byte>)
    ensures Holds(e, 0, e)
  {
    HoldsIff(e, 0, e);
  }

  lemma HoldsPrefix(e: seq<byte>, rest: seq<byte>)
    ensures Holds(e + rest, 0, e)
  {
    HoldsIff(e + rest, 0, e);
    assert (e + rest)[..|e|] == e;
  }
}
