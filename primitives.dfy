/**
 * Java's fixed-width integers and the two Guava primitive helpers the
 * connection uses: Ints.checkedCast and Longs.toByteArray.
 */
module Primitives {
  import opened Wrappers

  const INT32_MIN: int := -0x8000_0000
  const INT32_MAX: int := 0x7FFF_FFFF
  const INT64_MIN: int := -0x8000_0000_0000_0000
  const INT64_MAX: int := 0x7FFF_FFFF_FFFF_FFFF
  /** 2^64, the modulus of a two's-complement long */
  const TWO_64: int := 0x1_0000_0000_0000_0000

  /** Java int */
  type int32 = x: int | INT32_MIN <= x <= INT32_MAX
  /** Java long */
  type int64 = x: int | INT64_MIN <= x <= INT64_MAX
  /** One byte on the wire; Java's signed byte holds the same eight bits. */
  type octet = x: int | 0 <= x < 256

  /** Ints.checkedCast: the same value when it fits in an int, nothing otherwise. */
  function CheckedCast(v: int64): (r: Option<int32>)
    ensures r.Some? <==> INT32_MIN <= v <= INT32_MAX
    ensures r.Some? ==> r.value == v
  {
    if INT32_MIN <= v <= INT32_MAX then Some(v) else None
  }

  function Pow256(n: nat): (r: nat)
    ensures r > 0
  {
    if n == 0 then 1 else 256 * Pow256(n - 1)
  }

  /** The n low-order bytes of u, most significant first. */
  function BigEndian(u: nat, n: nat): (r: seq<octet>)
    ensures |r| == n
  {
    if n == 0 then [] else BigEndian(u / 256, n - 1) + [u % 256]
  }

  /** The unsigned number a big-endian byte string denotes. */
  function FromBigEndian(bs: seq<octet>): (u: nat)
    ensures u < Pow256(|bs|)
  {
    if bs == [] then 0 else FromBigEndian(bs[..|bs| - 1]) * 256 + bs[|bs| - 1]
  }

  lemma {:induction false} FromBigEndianOfBigEndian(u: nat, n: nat)
    requires u < Pow256(n)
    ensures FromBigEndian(BigEndian(u, n)) == u
  {
    if n > 0 {
      var bs := BigEndian(u, n);
      assert bs[..n - 1] == BigEndian(u / 256, n - 1);
      assert u / 256 < Pow256(n - 1);
      FromBigEndianOfBigEndian(u / 256, n - 1);
    }
  }

  lemma Pow256Of8()
    ensures Pow256(8) == TWO_64
  {
    assert Pow256(4) == 0x1_0000_0000;
    assert Pow256(8) == 256 * 256 * 256 * 256 * Pow256(4);
  }

  /** Longs.toByteArray: the two's-complement bits of v, most significant byte first. */
  function LongToBytes(v: int64): (r: seq<octet>)
    ensures |r| == 8
  {
    BigEndian(if v < 0 then v + TWO_64 else v, 8)
  }

  /** Longs.fromByteArray: the long whose two's-complement bits are bs. */
  function BytesToLong(bs: seq<octet>): int
    requires |bs| == 8
  {
    var u := FromBigEndian(bs);
    if u >= TWO_64 / 2 then u - TWO_64 else u
  }

  /** Eight big-endian bytes lose nothing: reading them back gives the long. */
  lemma LongBytesRoundTrip(v: int64)
    ensures BytesToLong(LongToBytes(v)) == v
  {
    Pow256Of8();
    var u := if v < 0 then v + TWO_64 else v;
    FromBigEndianOfBigEndian(u, 8);
  }

  /** The first byte carries the sign: it is 128 or more exactly when the long is negative. */
  lemma LongToBytesSign(v: int64)
    ensures LongToBytes(v)[0] >= 128 <==> v < 0
  {
    Pow256Of8();
    var u := if v < 0 then v + TWO_64 else v;
    var bs := LongToBytes(v);
    FromBigEndianOfBigEndian(u, 8);
    FromBigEndianFirst(bs);
  }

  /** The value of eight big-endian bytes is at least 2^63 exactly when the first is 128 or more. */
  lemma FromBigEndianFirst(bs: seq<octet>)
    requires |bs| == 8
    ensures FromBigEndian(bs) >= TWO_64 / 2 <==> bs[0] >= 128
  {
    var r := FromBigEndian(bs[1..]);
    assert r < Pow256(7) by { assert Pow256(7) == 0x100_0000_0000_0000; }
    FromBigEndianCons(bs);
  }

  lemma {:induction false} FromBigEndianCons(bs: seq<octet>)
    requires |bs| > 0
    ensures FromBigEndian(bs) == bs[0] * Pow256(|bs| - 1) + FromBigEndian(bs[1..])
  {
    var n := |bs|;
    if n > 1 {
      var init, tail := bs[..n - 1], bs[1..];
      FromBigEndianCons(init);
      assert init[1..] == tail[..n - 2];
      assert init[0] == bs[0] && tail[n - 2] == bs[n - 1];
      ShiftByte(bs[0], Pow256(n - 2), FromBigEndian(init[1..]), bs[n - 1]);
    } else {
      assert bs[..0] == [] && bs[1..] == [];
    }
  }

  lemma ShiftByte(x: int, p: int, a: int, last: int)
    ensures (x * p + a) * 256 + last == x * (256 * p) + (a * 256 + last)
  {
  }
}
