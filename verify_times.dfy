/**
  VerifyTimesCluster: an array cluster of DateTime values, each stored as its
  int64 tick count in 8 bytes.
*/
module VerifyTimes {
  import opened Bytes
  import opened Errors
  import opened Geometry
  import opened ArrayClusters

  /** sizeof(long) */
  const ElementSize: nat := 8

  /** DateTime.MaxValue.Ticks; DateTime.MinValue has 0 ticks. */
  const MaxTicks: int := 3_155_378_975_999_999_999

  type Ticks = t: int | 0 <= t <= MaxTicks

  /** A DateTime, of which only the tick count is modelled. */
  datatype DateTime = DateTime(ticks: Ticks)

  /** new DateTime(long ticks): throws ArgumentOutOfRange for ticks outside DateTime's range. */
  function FromTicks(ticks: Int64): (r: Result<DateTime>)
    ensures r.Ok? <==> 0 <= ticks <= MaxTicks
    ensures r.Ok? ==> r.value.ticks == ticks
    ensures r.Err? ==> r.error == ArgumentOutOfRange
  {
    if 0 <= ticks <= MaxTicks then Ok(DateTime(ticks)) else Err(ArgumentOutOfRange)
  }

  /**
    The element getter: the 8 bytes at offset as an int64 tick count, which must
    be a valid DateTime.  A value read back re-encodes to exactly those bytes.
  */
  function ReadElement(bytes: seq<Byte>, offset: nat): (r: Result<DateTime>)
    requires offset + ElementSize <= |bytes|
    ensures r.Ok? ==> EncodeInt64(r.value.ticks) == bytes[offset..offset + ElementSize]
    ensures r.Err? ==> r.error == ArgumentOutOfRange
  {
    Int64RoundTrip(0, bytes[offset..offset + ElementSize]);
    FromTicks(DecodeInt64(bytes[offset..offset + ElementSize]))
  }

  /** Stores the tick count at offset; no byte outside [offset, offset + 8) changes. */
  method WriteElement(value: DateTime, block: array<Byte>, offset: nat)
    requires offset + ElementSize <= block.Length
    modifies block
    ensures block[..] == Splice(old(block[..]), offset, EncodeInt64(value.ticks))
    ensures ReadElement(block[..], offset) == Ok(value)
    ensures forall k :: 0 <= k < block.Length && !(offset <= k < offset + ElementSize) ==> block[k] == old(block[k])
  {
    ghost var before := block[..];
    Write(block, offset, EncodeInt64(value.ticks));
    SpliceAt(before, offset, EncodeInt64(value.ticks));
    Int64RoundTrip(value.ticks, []);
  }

  /** ReadElement and WriteElement as the codec an ArrayCluster<DateTime> is bound to. */
  function TicksCodec(): (c: Codec<DateTime>)
    ensures c.size == ElementSize
  {
    Codec(
      ElementSize,
      (d: DateTime) => EncodeInt64(d.ticks),
      // the array always hands the decoder exactly ElementSize bytes
      (bs: seq<Byte>) => if |bs| == ElementSize then ReadElement(bs, 0) else Err(ArgumentOutOfRange))
  }

  /** The tick codec round-trips every DateTime. */
  lemma TicksCodecRoundTrips()
    ensures RoundTrips(TicksCodec())
  {
    var c := TicksCodec();
    forall d: DateTime ensures c.decode(c.encode(d)) == Ok(d) {
      Int64RoundTrip(d.ticks, []);
      assert EncodeInt64(d.ticks)[0..ElementSize] == EncodeInt64(d.ticks);
    }
  }

  /** The static _elementsPerCluster cache: filled on first use, then returned unchanged. */
  class ElementsPerClusterCache {
    const env: Env
    var cached: Option<int>

    ghost predicate Valid()
      reads this
    {
      env.Valid() && (cached.Some? ==> cached.value == CalculateElementCount(env, ElementSize))
    }

    constructor(env: Env)
      requires env.Valid()
      ensures Valid() && this.env == env && cached == None
    {
      this.env := env;
      cached := None;
    }

    method ElementsPerCluster() returns (n: int)
      requires Valid()
      modifies this
      ensures Valid() && cached == Some(n)
      ensures n == CalculateElementCount(env, ElementSize)
      ensures old(cached).Some? ==> n == old(cached).value
    {
      if cached.None? {
        cached := Some(CalculateElementCount(env, ElementSize));
      }
      n := cached.value;
    }
  }

  /**
    A VerifyTimesCluster at the given address: an ArrayCluster<DateTime> with
    8-byte elements, ElementsPerCluster slots and NoAddress as its chain pointer.
  */
  method NewVerifyTimesCluster(env: Env, address: Int32) returns (r: Result<ArrayCluster<DateTime>>)
    requires env.Valid()
    ensures r.Err? <==> address == env.noAddress
    ensures r.Err? ==> r.error == ArgumentOutOfRange
    ensures r.Ok? ==> fresh(r.value) && fresh(r.value.block) && r.value.Valid()
    ensures r.Ok? ==> r.value.env == env && r.value.codec == TicksCodec() && r.value.elementSize == ElementSize
    ensures r.Ok? ==> r.value.Count() == CalculateElementCount(env, ElementSize)
    ensures r.Ok? ==> r.value.address == address && r.value.NextClusterAddress() == env.noAddress
  {
    TicksCodecRoundTrips();
    r := Create(env, address, TicksCodec(), Unassigned);
  }
}
