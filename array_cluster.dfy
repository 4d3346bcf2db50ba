/**
  ArrayCluster and ArrayCluster<T>: a cluster holding a fixed number of
  same-size elements.  After the base Cluster header come a 4-byte
  NextClusterAddress chain pointer and then the data region; slot i occupies
  bytes [i * elementSize, (i + 1) * elementSize) of the data region and is
  read and written through an element codec.
*/
module ArrayClusters {
  import opened Bytes
  import opened Errors
  import opened Geometry

  // Layout of the array cluster's own header, relative to the end of the base header.
  const OffsetNextCluster: nat := 0
  const LengthNextCluster: nat := 4
  const OffsetData: nat := OffsetNextCluster + LengthNextCluster

  /**
    Bytes before the data region.  It is set in a static constructor, after
    Offset_Data, so it holds the whole header: the base header and exactly the
    chain pointer, with slot 0 starting right after it.
  */
  function HeaderLength(env: Env): (n: nat)
    ensures n == env.baseHeaderLength + OffsetNextCluster + LengthNextCluster
    ensures forall size :: SlotOffset(size, 0) == n - env.baseHeaderLength
  {
    env.baseHeaderLength + OffsetData
  }

  /** The number of slots of the given size that fit after the header: the floor of the quotient. */
  function CalculateElementCount(env: Env, elementSize: int): (count: nat)
    requires env.Valid() && elementSize > 0
    ensures HeaderLength(env) + count * elementSize <= env.bytesPerCluster
    ensures env.bytesPerCluster < HeaderLength(env) + (count + 1) * elementSize
  {
    (env.bytesPerCluster - HeaderLength(env)) / elementSize
  }

  /**
    An element codec: encode yields exactly `size` bytes, decode reads them back.
    Decoding may throw, as a record constructor validating its fields does.
  */
  datatype Codec<!T> = Codec(size: nat, encode: T -> seq<Byte>, decode: seq<Byte> -> Result<T>)

  ghost predicate RoundTrips<T(!new)>(c: Codec<T>)
  {
    && c.size > 0
    && (forall v :: |c.encode(v)| == c.size)
    && (forall v :: c.decode(c.encode(v)) == Ok(v))
  }

  // ----- the layout on the window after the base header -----

  /** Where slot `index` starts, counted from the end of the base header. */
  function SlotOffset(elementSize: int, index: int): int
  {
    OffsetData + index * elementSize
  }

  /** Every valid slot lies in the data region, past the chain pointer and inside the cluster. */
  lemma SlotInRegion(env: Env, elementSize: int, index: int)
    requires env.Valid() && elementSize > 0
    requires 0 <= index < CalculateElementCount(env, elementSize)
    ensures OffsetData <= SlotOffset(elementSize, index)
    ensures env.baseHeaderLength + SlotOffset(elementSize, index) + elementSize <= env.bytesPerCluster
  {
    var count := CalculateElementCount(env, elementSize);
    assert (index + 1) * elementSize <= count * elementSize;
  }

  /** The byte ranges of two different slots do not overlap. */
  lemma SlotsDisjoint(elementSize: int, i: int, j: int)
    requires elementSize > 0 && 0 <= i && 0 <= j && i != j
    ensures SlotOffset(elementSize, i) + elementSize <= SlotOffset(elementSize, j)
         || SlotOffset(elementSize, j) + elementSize <= SlotOffset(elementSize, i)
  {
    if i < j {
      assert (i + 1) * elementSize <= j * elementSize;
    } else {
      assert (j + 1) * elementSize <= i * elementSize;
    }
  }

  function ReadSlot<T>(bytes: seq<Byte>, codec: Codec<T>, index: nat): Result<T>
    requires SlotOffset(codec.size, index) + codec.size <= |bytes|
  {
    var off := SlotOffset(codec.size, index);
    codec.decode(bytes[off..off + codec.size])
  }

  function WriteSlot<T(!new)>(bytes: seq<Byte>, codec: Codec<T>, index: nat, value: T): seq<Byte>
    requires RoundTrips(codec)
    requires SlotOffset(codec.size, index) + codec.size <= |bytes|
  {
    Splice(bytes, SlotOffset(codec.size, index), codec.encode(value))
  }

  /** Reading a slot after writing it returns the value written. */
  lemma ReadAfterWriteSlot<T(!new)>(bytes: seq<Byte>, codec: Codec<T>, index: nat, value: T)
    requires RoundTrips(codec)
    requires SlotOffset(codec.size, index) + codec.size <= |bytes|
    ensures ReadSlot(WriteSlot(bytes, codec, index, value), codec, index) == Ok(value)
  {
    SpliceAt(bytes, SlotOffset(codec.size, index), codec.encode(value));
  }

  /** Writing one slot leaves every other slot and the chain pointer as they were. */
  lemma WriteSlotFrame<T(!new)>(bytes: seq<Byte>, codec: Codec<T>, index: nat, other: nat, value: T)
    requires RoundTrips(codec)
    requires SlotOffset(codec.size, index) + codec.size <= |bytes|
    requires SlotOffset(codec.size, other) + codec.size <= |bytes|
    ensures other != index ==>
      ReadSlot(WriteSlot(bytes, codec, index, value), codec, other) == ReadSlot(bytes, codec, other)
    ensures NextCluster(WriteSlot(bytes, codec, index, value)) == NextCluster(bytes)
  {
    var off := SlotOffset(codec.size, index);
    var e := codec.encode(value);
    if other != index {
      SlotsDisjoint(codec.size, index, other);
      var o := SlotOffset(codec.size, other);
      SpliceElsewhere(bytes, off, e, o, o + codec.size);
    }
    SpliceElsewhere(bytes, off, e, OffsetNextCluster, OffsetData);
  }

  function NextCluster(bytes: seq<Byte>): Int32
    requires OffsetData <= |bytes|
  {
    DecodeInt32(bytes[OffsetNextCluster..OffsetData])
  }

  function WithNextCluster(bytes: seq<Byte>, address: Int32): seq<Byte>
    requires OffsetData <= |bytes|
  {
    Splice(bytes, OffsetNextCluster, EncodeInt32(address))
  }

  /** The chain pointer reads back as written, and writing it leaves every slot as it was. */
  lemma NextClusterRoundTrip<T>(bytes: seq<Byte>, address: Int32, codec: Codec<T>, index: nat)
    requires OffsetData <= |bytes|
    ensures NextCluster(WithNextCluster(bytes, address)) == address
    ensures SlotOffset(codec.size, index) + codec.size <= |bytes| ==>
      ReadSlot(WithNextCluster(bytes, address), codec, index) == ReadSlot(bytes, codec, index)
  {
    SpliceAt(bytes, OffsetNextCluster, EncodeInt32(address));
    Int32RoundTrip(address, []);
    if SlotOffset(codec.size, index) + codec.size <= |bytes| {
      var o := SlotOffset(codec.size, index);
      SpliceElsewhere(bytes, OffsetNextCluster, EncodeInt32(address), o, o + codec.size);
    }
  }

  // ----- the cluster object -----

  class ArrayCluster<T(!new)> {
    const env: Env
    const codec: Codec<T>
    const elementSize: int   // _elementSize
    const count: int         // _count
    /** The base cluster's open block: its bytes after the base header. */
    const block: array<Byte>
    var address: Int32       // the base Cluster's Address
    var clusterType: ClusterType

    ghost predicate Valid()
    {
      && env.Valid()
      && RoundTrips(codec)
      && elementSize == codec.size
      && count == CalculateElementCount(env, elementSize)
      && block.Length == env.bytesPerCluster - env.baseHeaderLength
    }

    /** ArrayCluster(int address) followed by ArrayCluster<T>(int address, int elementSize). */
    constructor Placed(env: Env, address: Int32, codec: Codec<T>, tag: ClusterType)
      requires env.Valid() && RoundTrips(codec) && address != env.noAddress
      ensures Valid() && fresh(block)
      ensures this.env == env && this.codec == codec && elementSize == codec.size
      ensures this.address == address && clusterType == tag
      ensures NextClusterAddress() == env.noAddress
    {
      this.env := env;
      this.codec := codec;
      elementSize := codec.size;
      count := CalculateElementCount(env, codec.size);
      block := new Byte[env.bytesPerCluster - env.baseHeaderLength];
      this.address := address;
      clusterType := tag;
      new;
      ghost var before := block[..];
      Write(block, OffsetNextCluster, EncodeInt32(env.noAddress));
      NextClusterRoundTrip(before, env.noAddress, codec, 0);
    }

    /** The copy constructors: same geometry, codec, element size and count, same bytes. */
    constructor CopyOf(c: ArrayCluster<T>)
      requires c.Valid()
      ensures Valid() && fresh(block)
      ensures env == c.env && codec == c.codec
      ensures elementSize == c.elementSize && count == c.count
      ensures address == c.address && clusterType == c.clusterType
      ensures block[..] == c.block[..]
    {
      env := c.env;
      codec := c.codec;
      elementSize := c.elementSize;
      count := c.count;
      block := new Byte[c.block.Length];
      address := c.address;
      clusterType := c.clusterType;
      new;
      Write(block, 0, c.block[..]);
    }

    /** The capacity: as many slots as fit after the header, and not one more. */
    function Count(): (n: int)
      requires Valid()
      ensures 0 <= n
      ensures HeaderLength(env) + n * elementSize <= env.bytesPerCluster
      ensures env.bytesPerCluster < HeaderLength(env) + (n + 1) * elementSize
    {
      count
    }

    /** The chain pointer's getter: its four bytes are exactly the encoding of the value read. */
    function NextClusterAddress(): (a: Int32)
      requires Valid()
      reads block
      ensures EncodeInt32(a) == block[OffsetNextCluster..OffsetNextCluster + LengthNextCluster]
    {
      Int32RoundTrip(0, block[OffsetNextCluster..OffsetNextCluster + LengthNextCluster]);
      NextCluster(block[..])
    }

    method SetNextClusterAddress(value: Int32)
      requires Valid()
      modifies block
      ensures block[..] == WithNextCluster(old(block[..]), value)
      ensures NextClusterAddress() == value
      ensures forall j :: Get(j) == old(Get(j))
    {
      ghost var before := block[..];
      Write(block, OffsetNextCluster, EncodeInt32(value));
      NextClusterRoundTrip(before, value, codec, 0);
      forall j | 0 <= j < count ensures Get(j) == old(Get(j)) {
        SlotInRegion(env, elementSize, j);
        NextClusterRoundTrip(before, value, codec, j);
      }
    }

    /** Resets the chain pointer; the base header's own reset is not part of this model. */
    method Initialize()
      requires Valid()
      modifies block
      ensures NextClusterAddress() == env.noAddress
      ensures forall j :: Get(j) == old(Get(j))
    {
      SetNextClusterAddress(env.noAddress);
    }

    /** The byte offset of the cluster on the partition, computed as a long. */
    function AbsoluteAddress(): (r: int)
      requires Valid()
      reads this
      ensures address == env.noAddress ==> r == env.noAddress
      ensures address != env.noAddress ==> r == address * env.bytesPerCluster
      ensures -0x8000_0000_0000_0000 <= r < 0x8000_0000_0000_0000
    {
      if address == env.noAddress then env.noAddress
      else
        ProductFitsInt64(address, env.bytesPerCluster);
        address * env.bytesPerCluster
    }

    /** The indexer's getter. */
    function Get(index: int): (r: Result<T>)
      requires Valid()
      reads block
      ensures !(0 <= index < count) ==> r == Err(ArgumentOutOfRange)
      ensures 0 <= index < count ==>
        SlotOffset(elementSize, index) + elementSize <= block.Length && r == ReadSlot(block[..], codec, index)
    {
      if index < 0 || index >= count then Err(ArgumentOutOfRange)
      else
        SlotInRegion(env, elementSize, index);
        ReadSlot(block[..], codec, index)
    }

    /** The indexer's setter. */
    method Set(index: int, value: T) returns (r: Outcome)
      requires Valid()
      modifies block
      ensures !(0 <= index < count) ==> r == Fail(ArgumentOutOfRange) && block[..] == old(block[..])
      ensures 0 <= index < count ==> r == Pass && Get(index) == Ok(value)
      ensures 0 <= index < count ==> block[..] == WriteSlot(old(block[..]), codec, index, value)
      ensures forall j :: j != index ==> Get(j) == old(Get(j))
      ensures NextClusterAddress() == old(NextClusterAddress())
    {
      if index < 0 || index >= count {
        return Fail(ArgumentOutOfRange);
      }
      SlotInRegion(env, elementSize, index);
      Write(block, SlotOffset(elementSize, index), codec.encode(value));
      ReadAfterWriteSlot(old(block[..]), codec, index, value);
      forall j | j != index ensures Get(j) == old(Get(j)) {
        if 0 <= j < count {
          SlotInRegion(env, elementSize, j);
          WriteSlotFrame(old(block[..]), codec, index, j, value);
        }
      }
      WriteSlotFrame(old(block[..]), codec, index, index, value);
      r := Pass;
    }

    /**
      GetEnumerator: the elements of slots 0 .. Count - 1 in ascending order,
      or the first exception one of them throws; the buffer is left untouched.
    */
    method Enumerate() returns (r: Result<seq<T>>)
      requires Valid()
      ensures r.Ok? ==> |r.value| == count && forall k :: 0 <= k < count ==> Get(k) == Ok(r.value[k])
      ensures r.Err? ==>
        exists k :: 0 <= k < count && Get(k) == Err(r.error) && forall m :: 0 <= m < k ==> Get(m).Ok?
    {
      var items: seq<T> := [];
      var i := 0;
      while i < count
        invariant 0 <= i <= count && |items| == i
        invariant forall k :: 0 <= k < i ==> Get(k) == Ok(items[k])
      {
        var x := Get(i);
        if x.Err? {
          return Err(x.error);
        }
        items := items + [x.value];
        i := i + 1;
      }
      return Ok(items);
    }
  }

  /** An int32 address times an int32 cluster size never overflows a long. */
  lemma ProductFitsInt64(a: Int32, b: Int32)
    ensures -0x8000_0000_0000_0000 <= a * b < 0x8000_0000_0000_0000
  {
    var m: int := 0x8000_0000;
    var x: int, y: int := a, b;
    if x >= 0 && y >= 0 {
      assert x * y <= x * m <= m * m;
    } else if x < 0 && y < 0 {
      assert x * y == (-x) * (-y) <= m * (-y) <= m * m;
    } else if x < 0 {
      assert x * y == -((-x) * y) >= -(m * y) >= -(m * m);
    } else {
      assert x * y == -(x * (-y)) >= -(m * (-y)) >= -(m * m);
    }
  }

  /**
    When real addresses are non-negative and NoAddress is negative, the
    absolute address is NoAddress exactly when the address is.
  */
  lemma AbsoluteAddressSentinel<T(!new)>(c: ArrayCluster<T>)
    requires c.Valid() && c.env.noAddress < 0
    requires c.address == c.env.noAddress || c.address >= 0
    ensures c.AbsoluteAddress() == c.env.noAddress <==> c.address == c.env.noAddress
  {
    if c.address != c.env.noAddress {
      var x: nat, y: nat := c.address, c.env.bytesPerCluster;
      assert x * y >= 0;
    }
  }

  /**
    new ArrayCluster<T>(address, ...): throws ArgumentOutOfRange for NoAddress, otherwise
    a cluster whose chain pointer is NoAddress.
  */
  method Create<T(!new)>(env: Env, address: Int32, codec: Codec<T>, tag: ClusterType) returns (r: Result<ArrayCluster<T>>)
    requires env.Valid() && RoundTrips(codec)
    ensures r.Err? <==> address == env.noAddress
    ensures r.Err? ==> r.error == ArgumentOutOfRange
    ensures r.Ok? ==> fresh(r.value) && fresh(r.value.block) && r.value.Valid()
    ensures r.Ok? ==> r.value.env == env && r.value.codec == codec && r.value.elementSize == codec.size
    ensures r.Ok? ==> r.value.address == address && r.value.clusterType == tag
    ensures r.Ok? ==> r.value.NextClusterAddress() == env.noAddress
  {
    if address == env.noAddress {
      return Err(ArgumentOutOfRange);
    }
    var c := new ArrayCluster.Placed(env, address, codec, tag);
    return Ok(c);
  }
}
