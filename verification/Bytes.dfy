/** Bytes and integers in network byte order. */
module Bytes {

  type Byte = b: int | 0 <= b < 256

  function Pow256(n: nat): (p: nat)
    ensures p > 0
  {
    if n == 0 then 1 else 256 * Pow256(n - 1)
  }

  /** The n-byte big-endian form of an unsigned integer. */
  function ToBytes(u: nat, n: nat): (bs: seq<Byte>)
    ensures |bs| == n
    decreases n
  {
    if n == 0 then [] else ToBytes(u / 256, n - 1) + [u % 256]
  }

  function FromBytes(bs: seq<Byte>): (u: nat)
    ensures u < Pow256(|bs|)
  {
    if bs == [] then 0 else 256 * FromBytes(bs[..|bs| - 1]) + bs[|bs| - 1]
  }

  lemma {:induction false} FromToBytes(u: nat, n: nat)
    requires u < Pow256(n)
    ensures FromBytes(ToBytes(u, n)) == u
    decreases n
  {
    if n > 0 {
      FromToBytes(u / 256, n - 1);
      assert ToBytes(u, n)[..n - 1] == ToBytes(u / 256, n - 1);
    }
  }

  lemma {:induction false} ToFromBytes(bs: seq<Byte>)
    ensures ToBytes(FromBytes(bs), |bs|) == bs
  {
    if bs != [] {
      ToFromBytes(bs[..|bs| - 1]);
      var u := FromBytes(bs[..|bs| - 1]);
      assert (256 * u + bs[|bs| - 1]) / 256 == u && (256 * u + bs[|bs| - 1]) % 256 == bs[|bs| - 1];
    }
  }

  /** The values of an n-byte two's complement integer. */
  predicate FitsSigned(x: int, n: nat) {
    n > 0 && -(Pow256(n) / 2) <= x < Pow256(n) / 2
  }

  /** `hostToNetwork` of an n-byte integer, byte by byte. */
  function EncodeInt(x: int, n: nat): (bs: seq<Byte>)
    requires FitsSigned(x, n)
    ensures |bs| == n
  {
    ToBytes(if x < 0 then x + Pow256(n) else x, n)
  }

  /** `networkToHost`. */
  function DecodeInt(bs: seq<Byte>): (x: int)
    requires bs != []
  {
    var u := FromBytes(bs);
    if u >= Pow256(|bs|) / 2 then u - Pow256(|bs|) else u
  }

  lemma {:induction false} HalfOfPow(n: nat)
    requires n > 0
    ensures Pow256(n) == 2 * (Pow256(n) / 2)
  {
    assert Pow256(n) == 2 * (128 * Pow256(n - 1));
  }

  /** Network order: the first byte is the most significant one. */
  lemma {:induction false} MostSignificantFirst(b: Byte, bs: seq<Byte>)
    ensures FromBytes([b] + bs) == b * Pow256(|bs|) + FromBytes(bs)
  {
    if bs == [] {
      assert [b] + bs == [b] && [b][..0] == [];
    } else {
      var n := |bs| - 1;
      assert ([b] + bs)[..n + 1] == [b] + bs[..n];
      MostSignificantFirst(b, bs[..n]);
      assert 256 * (b * Pow256(n)) == b * (256 * Pow256(n));
    }
  }

  /** Two's complement: the value of a byte string is its unsigned value, or that less the range when the first bit is
      set. */
  lemma {:induction false} SignExact(b: Byte, bs: seq<Byte>)
    ensures DecodeInt([b] + bs) == (if b < 128 then b else b - 256) * Pow256(|bs|) + FromBytes(bs)
  {
    MostSignificantFirst(b, bs);
    SignBit(b, Pow256(|bs|), FromBytes(bs));
    hide FromBytes;
    assert |[b] + bs| == |bs| + 1 && Pow256(|bs| + 1) == 256 * Pow256(|bs|);
  }

  lemma SignBit(b: Byte, p: nat, rest: nat)
    requires rest < p
    ensures b * p + rest >= 256 * p / 2 <==> b >= 128
    ensures b * p + rest - 256 * p == (b - 256) * p + rest
  {
    assert 256 * p / 2 == 128 * p;
    if b >= 128 {
      assert (b - 128) * p >= 0;
    } else {
      assert (127 - b) * p >= 0;
    }
  }

  /** What is written is what is read, for every width and every value of that width. */
  lemma IntRoundTrip(x: int, n: nat)
    requires FitsSigned(x, n)
    ensures DecodeInt(EncodeInt(x, n)) == x
  {
    HalfOfPow(n);
    FromToBytes(if x < 0 then x + Pow256(n) else x, n);
  }

  /** Every byte pattern is the encoding of the integer read from it. */
  lemma BytesRoundTrip(bs: seq<Byte>)
    requires bs != []
    ensures FitsSigned(DecodeInt(bs), |bs|) && EncodeInt(DecodeInt(bs), |bs|) == bs
  {
    HalfOfPow(|bs|);
    ToFromBytes(bs);
  }
}
