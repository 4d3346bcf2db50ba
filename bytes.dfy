/**
  The byte window a cluster is laid out in, and the fixed-width encodings the
  clusters store in it: little-endian unsigned integers, two's-complement int32
  and int64, and UTF-16 code-unit strings.  The window primitive itself
  (ByteBlock / DataBlock) is not part of this model; these definitions stand in
  for its typed get/set operations.
*/
module Bytes {

  type Byte = x: int | 0 <= x < 0x100
  /** One UTF-16 code unit, the element of a .NET string. */
  type CodeUnit = x: int | 0 <= x < 0x1_0000
  type Int32 = x: int | -0x8000_0000 <= x < 0x8000_0000
  type Int64 = x: int | -0x8000_0000_0000_0000 <= x < 0x8000_0000_0000_0000

  const TwoTo32: nat := 0x1_0000_0000
  const TwoTo64: nat := 0x1_0000_0000_0000_0000

  function Pow256(n: nat): (r: nat)
    ensures r > 0
  {
    if n == 0 then 1 else 0x100 * Pow256(n - 1)
  }

  lemma Pow256Widths()
    ensures Pow256(2) == 0x1_0000 && Pow256(4) == TwoTo32 && Pow256(8) == TwoTo64
  {
  }

  // ----- unsigned little-endian integers -----

  /** The n low-order bytes of u, least significant first. */
  function EncodeLE(u: nat, n: nat): (bs: seq<Byte>)
    ensures |bs| == n
  {
    if n == 0 then [] else [u % 0x100] + EncodeLE(u / 0x100, n - 1)
  }

  /** The unsigned value of bs read least significant byte first. */
  function DecodeLE(bs: seq<Byte>): (u: nat)
    ensures u < Pow256(|bs|)
  {
    if bs == [] then 0
    else
      var rest := DecodeLE(bs[1..]);
      assert 0x100 * rest <= 0x100 * (Pow256(|bs| - 1) - 1);
      bs[0] + 0x100 * rest
  }

  lemma {:induction false} DecodeEncodeLE(u: nat, n: nat)
    requires u < Pow256(n)
    ensures DecodeLE(EncodeLE(u, n)) == u
  {
    if n > 0 {
      assert u / 0x100 < Pow256(n - 1);
      DecodeEncodeLE(u / 0x100, n - 1);
      assert EncodeLE(u, n)[1..] == EncodeLE(u / 0x100, n - 1);
    }
  }

  lemma {:induction false} EncodeDecodeLE(bs: seq<Byte>)
    ensures EncodeLE(DecodeLE(bs), |bs|) == bs
  {
    if bs != [] {
      var rest := DecodeLE(bs[1..]);
      var u := bs[0] + 0x100 * rest;
      assert u % 0x100 == bs[0] && u / 0x100 == rest;
      EncodeDecodeLE(bs[1..]);
    }
  }

  // ----- two's-complement signed integers -----

  function ToUnsigned(v: int, modulus: nat): int
  {
    if v < 0 then v + modulus else v
  }

  function ToSigned(u: int, modulus: nat): int
  {
    if 2 * u >= modulus then u - modulus else u
  }

  function EncodeInt32(v: Int32): (bs: seq<Byte>)
    ensures |bs| == 4
  {
    EncodeLE(ToUnsigned(v, TwoTo32), 4)
  }

  function DecodeInt32(bs: seq<Byte>): Int32
    requires |bs| == 4
  {
    Pow256Widths();
    ToSigned(DecodeLE(bs), TwoTo32)
  }

  /** Reading back an int32 returns the value written, and every 4 bytes are some int32's encoding. */
  lemma Int32RoundTrip(v: Int32, bs: seq<Byte>)
    ensures DecodeInt32(EncodeInt32(v)) == v
    ensures |bs| == 4 ==> EncodeInt32(DecodeInt32(bs)) == bs
  {
    Pow256Widths();
    DecodeEncodeLE(ToUnsigned(v, TwoTo32), 4);
    EncodeDecodeLE(bs);
  }

  function EncodeInt64(v: Int64): (bs: seq<Byte>)
    ensures |bs| == 8
  {
    EncodeLE(ToUnsigned(v, TwoTo64), 8)
  }

  function DecodeInt64(bs: seq<Byte>): Int64
    requires |bs| == 8
  {
    Pow256Widths();
    ToSigned(DecodeLE(bs), TwoTo64)
  }

  /** Reading back an int64 returns the value written, and every 8 bytes are some int64's encoding. */
  lemma Int64RoundTrip(v: Int64, bs: seq<Byte>)
    ensures DecodeInt64(EncodeInt64(v)) == v
    ensures |bs| == 8 ==> EncodeInt64(DecodeInt64(bs)) == bs
  {
    Pow256Widths();
    DecodeEncodeLE(ToUnsigned(v, TwoTo64), 8);
    EncodeDecodeLE(bs);
  }

  // ----- UTF-16 strings, two bytes per code unit -----

  function EncodeString(s: seq<CodeUnit>): (bs: seq<Byte>)
    ensures |bs| == 2 * |s|
  {
    if s == [] then [] else EncodeLE(s[0], 2) + EncodeString(s[1..])
  }

  function DecodeString(bs: seq<Byte>): (s: seq<CodeUnit>)
    requires |bs| % 2 == 0
    ensures |s| == |bs| / 2
  {
    if bs == [] then []
    else
      Pow256Widths();
      [DecodeLE(bs[..2])] + DecodeString(bs[2..])
  }

  lemma {:induction false} StringRoundTrip(s: seq<CodeUnit>)
    ensures DecodeString(EncodeString(s)) == s
  {
    if s != [] {
      var bs := EncodeString(s);
      Pow256Widths();
      assert bs[..2] == EncodeLE(s[0], 2);
      assert bs[2..] == EncodeString(s[1..]);
      DecodeEncodeLE(s[0], 2);
      StringRoundTrip(s[1..]);
    }
  }

  // ----- in-place writes into a window -----

  /** s with the bytes at [off, off + |e|) replaced by e. */
  function Splice(s: seq<Byte>, off: nat, e: seq<Byte>): (r: seq<Byte>)
    requires off + |e| <= |s|
    ensures |r| == |s|
    ensures forall k :: off <= k < off + |e| ==> r[k] == e[k - off]
    ensures forall k :: 0 <= k < |s| && !(off <= k < off + |e|) ==> r[k] == s[k]
  {
    s[..off] + e + s[off + |e|..]
  }

  /** Splice puts e exactly where it was written. */
  lemma SpliceAt(s: seq<Byte>, off: nat, e: seq<Byte>)
    requires off + |e| <= |s|
    ensures Splice(s, off, e)[off..off + |e|] == e
  {
    var r := Splice(s, off, e);
    assert forall k :: 0 <= k < |e| ==> r[off..off + |e|][k] == e[k];
  }

  /** A range that does not meet the written one reads as before. */
  lemma SpliceElsewhere(s: seq<Byte>, off: nat, e: seq<Byte>, lo: nat, hi: nat)
    requires off + |e| <= |s| && lo <= hi <= |s|
    requires hi <= off || off + |e| <= lo
    ensures Splice(s, off, e)[lo..hi] == s[lo..hi]
  {
    var r := Splice(s, off, e);
    assert forall k :: 0 <= k < hi - lo ==> r[lo..hi][k] == s[lo..hi][k];
  }

  function Zeros(n: nat): (z: seq<Byte>)
    ensures |z| == n && forall k :: 0 <= k < n ==> z[k] == 0
  {
    seq(n, _ => 0)
  }

  /** ByteBlock.Set of a byte range: copies bs into a at off, in place. */
  method Write(a: array<Byte>, off: nat, bs: seq<Byte>)
    requires off + |bs| <= a.Length
    modifies a
    ensures a[..] == Splice(old(a[..]), off, bs)
  {
    forall k | 0 <= k < |bs| {
      a[off + k] := bs[k];
    }
  }
}
