/**
 * Byte buffers as the covenant builder and the transaction assembler use them:
 * byte-order reversal (`Buffer.reverse`) and the signed 64-bit little-endian
 * encoding of `Buffer.writeBigInt64LE`.
 */
module Bytes {
  import opened Results

  type byte = x: int | 0 <= x < 256

  const Two64: int := 0x1_0000_0000_0000_0000
  const MinInt64: int := -0x8000_0000_0000_0000
  const MaxInt64: int := 0x7FFF_FFFF_FFFF_FFFF

  predicate IsInt64(x: int) {
    MinInt64 <= x <= MaxInt64
  }

  /** The elements of `s` in the opposite order. */
  function Reverse<T>(s: seq<T>): (r: seq<T>)
    ensures |r| == |s|
    ensures forall i :: 0 <= i < |s| ==> r[i] == s[|s| - 1 - i]
  {
    if s == [] then [] else Reverse(s[1..]) + [s[0]]
  }

  /** Reversing twice gives back the original buffer. */
  lemma ReverseInvolutive<T>(s: seq<T>)
    ensures Reverse(Reverse(s)) == s
  {
    var r := Reverse(Reverse(s));
    assert |r| == |s|;
    forall i | 0 <= i < |s| ensures r[i] == s[i] {
      assert r[i] == Reverse(s)[|s| - 1 - i];
    }
  }

  /** Two buffers with the same reversal are the same buffer. */
  lemma ReverseInjective<T>(s: seq<T>, t: seq<T>)
    requires Reverse(s) == Reverse(t)
    ensures s == t
  {
    ReverseInvolutive(s);
    ReverseInvolutive(t);
  }

  function Pow256(n: nat): (r: nat)
    ensures r > 0
  {
    if n == 0 then 1 else 256 * Pow256(n - 1)
  }

  /** The `n` low-order bytes of `u`, least significant first. */
  function UnsignedToLE(u: nat, n: nat): (r: seq<byte>)
    ensures |r| == n
  {
    if n == 0 then [] else [u % 256] + UnsignedToLE(u / 256, n - 1)
  }

  /** The unsigned number a little-endian buffer denotes. */
  function UnsignedFromLE(s: seq<byte>): (u: nat)
    ensures u < Pow256(|s|)
  {
    if s == [] then 0 else s[0] + 256 * UnsignedFromLE(s[1..])
  }

  lemma {:induction false} UnsignedRoundTrip(u: nat, n: nat)
    requires u < Pow256(n)
    ensures UnsignedFromLE(UnsignedToLE(u, n)) == u
  {
    if n > 0 {
      assert u / 256 < Pow256(n - 1);
      UnsignedRoundTrip(u / 256, n - 1);
      var s := UnsignedToLE(u, n);
      assert s[1..] == UnsignedToLE(u / 256, n - 1);
    }
  }

  lemma {:induction false} UnsignedRoundTripBytes(s: seq<byte>)
    ensures UnsignedToLE(UnsignedFromLE(s), |s|) == s
  {
    if s != [] {
      var u := UnsignedFromLE(s);
      var rest := UnsignedFromLE(s[1..]);
      assert u % 256 == s[0] && u / 256 == rest;
      UnsignedRoundTripBytes(s[1..]);
    }
  }

  lemma Pow256Eight()
    ensures Pow256(8) == Two64
  {
  }

  /**
   * `writeBigInt64LE`: the two's-complement little-endian bytes of `v`, or
   * None where Node's Buffer raises a RangeError (outside signed 64 bits).
   */
  function WriteInt64LE(v: int): (r: Option<seq<byte>>)
    ensures r.Some? <==> IsInt64(v)
    ensures r.Some? ==> |r.value| == 8
  {
    if IsInt64(v) then Some(UnsignedToLE(if v < 0 then v + Two64 else v, 8)) else None
  }

  /** `readBigInt64LE`: the signed number eight little-endian bytes denote. */
  function ReadInt64LE(s: seq<byte>): (v: int)
    requires |s| == 8
    ensures IsInt64(v)
  {
    Pow256Eight();
    var u := UnsignedFromLE(s);
    if u > MaxInt64 then u - Two64 else u
  }

  /** Every signed 64-bit value survives encoding and decoding. */
  lemma Int64RoundTrip(v: int)
    requires IsInt64(v)
    ensures WriteInt64LE(v).Some? && ReadInt64LE(WriteInt64LE(v).value) == v
  {
    Pow256Eight();
    UnsignedRoundTrip(if v < 0 then v + Two64 else v, 8);
  }

  /** Every eight-byte buffer is the encoding of the value it decodes to. */
  lemma Int64RoundTripBytes(s: seq<byte>)
    requires |s| == 8
    ensures WriteInt64LE(ReadInt64LE(s)) == Some(s)
  {
    Pow256Eight();
    UnsignedRoundTripBytes(s);
  }
}
