/**
  PartitionHeaderCluster: the superblock at byte 0 of the partition.  After the
  base Cluster header it stores four int32 geometry fields, a one-byte name
  length and a 255-code-unit name area.  Its own size cannot depend on the
  BytesPerCluster it stores, so it is Offset_Data rounded up to whole blocks.
*/
module PartitionHeader {
  import opened Bytes
  import opened Errors
  import opened Geometry

  const MaximumNameLength: nat := 255

  // Layout relative to the end of the base header.
  const LengthInt32: nat := 4
  const OffsetBytesPerCluster: nat := 0
  const OffsetTotalClustersPerTrack: nat := OffsetBytesPerCluster + LengthInt32
  const OffsetDataClustersPerTrack: nat := OffsetTotalClustersPerTrack + LengthInt32
  const OffsetTotalTracks: nat := OffsetDataClustersPerTrack + LengthInt32
  const OffsetNameLength: nat := OffsetTotalTracks + LengthInt32
  const LengthNameLength: nat := 1
  const OffsetName: nat := OffsetNameLength + LengthNameLength
  const LengthName: nat := MaximumNameLength * 2
  const OffsetData: nat := OffsetName + LengthName

  /** The field offsets written out: the record ends at byte 527. */
  lemma LayoutOffsets()
    ensures OffsetTotalClustersPerTrack == 4 && OffsetDataClustersPerTrack == 8 && OffsetTotalTracks == 12
    ensures OffsetNameLength == 16 && OffsetName == 17 && OffsetData == 527
  {
  }

  /**
    Bytes the record occupies in the cluster, base header included: the value
    the public HeaderLength field is meant to hold.  It covers every property,
    the length byte and the whole name area, and ends where the name area does.
  */
  function RecordLength(env: Env): (n: nat)
    ensures forall f :: env.baseHeaderLength + FieldOffset(f) + LengthInt32 <= n
    ensures env.baseHeaderLength + OffsetNameLength + LengthNameLength <= n
    ensures n == env.baseHeaderLength + OffsetName + 2 * MaximumNameLength
  {
    env.baseHeaderLength + OffsetData
  }

  /**
    The value a static readonly field holds while the static initializers
    before its own declaration run: its default, 0.
  */
  const OffsetDataDuringInitialization: nat := 0

  /**
    The public HeaderLength field as initialized.  Static field initializers
    run in declaration order, and Offset_Data is a static readonly field
    declared after HeaderLength, so the sum reads it as 0.
  */
  function HeaderLengthField(env: Env): (n: nat)
    ensures n == env.baseHeaderLength
  {
    env.baseHeaderLength + OffsetDataDuringInitialization
  }

  /**
    The field as initialized is Offset_Data short of the record: it ends at the
    base header, before the first property's bytes.
  */
  lemma HeaderLengthFieldShort(env: Env)
    ensures HeaderLengthField(env) + OffsetData == RecordLength(env)
    ensures HeaderLengthField(env) < env.baseHeaderLength + FieldOffset(BytesPerCluster) + LengthInt32
  {
  }

  /**
    The superblock's cluster size: Offset_Data rounded up to a multiple of the
    block size.  It reads only the block size, never the stored BytesPerCluster.
    The int32 sum Offset_Data + blockSize - 1 must not overflow.
  */
  function ClusterSize(bytesPerBlock: int): (size: int)
    requires 0 < bytesPerBlock <= 0x8000_0000 - OffsetData
    ensures size % bytesPerBlock == 0
    ensures OffsetData <= size < OffsetData + bytesPerBlock
  {
    RoundedDown(OffsetData + bytesPerBlock - 1, bytesPerBlock);
    (OffsetData + bytesPerBlock - 1) / bytesPerBlock * bytesPerBlock
  }

  /** Floor division followed by multiplication rounds down to a multiple. */
  lemma RoundedDown(a: nat, b: int)
    requires b > 0
    ensures a / b * b <= a < a / b * b + b
    ensures (a / b * b) % b == 0
  {
    var q := a / b;
    assert a == q * b + a % b;
    MultipleModulo(q, b);
  }

  lemma MultipleModulo(q: nat, b: int)
    requires b > 0
    ensures (q * b) % b == 0
  {
    var x := q * b;
    var r, d := x % b, x / b;
    assert x == d * b + r && 0 <= r < b;
    assert (q - d) * b == r by { assert q * b - d * b == (q - d) * b; }
    if q > d {
      MultiplyMonotone(q - d, 1, b);
    } else if q < d {
      MultiplyMonotone(d - q, 1, b);
    }
  }

  lemma MultiplyMonotone(a: int, c: int, b: int)
    requires b > 0 && a >= c
    ensures a * b >= c * b
  {
  }

  /** With 512-byte blocks the superblock takes two blocks. */
  lemma ClusterSizeOf512()
    ensures ClusterSize(512) == 1024
  {
  }

  /**
    The rounding is of Offset_Data, not of the record length: with a block size of
    527 and any base header the record does not fit its cluster.
  */
  lemma ClusterSizeMayNotCoverHeader(env: Env)
    requires env.baseHeaderLength > 0
    ensures ClusterSize(OffsetData) < RecordLength(env)
  {
  }

  /** The geometry the superblock needs: a sane block size and room for the whole record. */
  predicate HeaderFits(env: Env)
  {
    0 < env.bytesPerBlock <= 0x8000_0000 - OffsetData && RecordLength(env) <= ClusterSize(env.bytesPerBlock)
  }

  /** The static _clusterSize cache: filled on first use, then returned unchanged. */
  class ClusterSizeCache {
    const bytesPerBlock: int
    var cached: Option<int>

    ghost predicate Valid()
      reads this
    {
      0 < bytesPerBlock <= 0x8000_0000 - OffsetData
      && (cached.Some? ==> cached.value == ClusterSize(bytesPerBlock))
    }

    constructor(bytesPerBlock: int)
      requires 0 < bytesPerBlock <= 0x8000_0000 - OffsetData
      ensures Valid() && this.bytesPerBlock == bytesPerBlock && cached == None
    {
      this.bytesPerBlock := bytesPerBlock;
      cached := None;
    }

    method Get() returns (size: int)
      requires Valid()
      modifies this
      ensures Valid() && cached == Some(size)
      ensures size == ClusterSize(bytesPerBlock)
      ensures old(cached).Some? ==> size == old(cached).value
    {
      if cached.None? {
        cached := Some((OffsetData + bytesPerBlock - 1) / bytesPerBlock * bytesPerBlock);
      }
      size := cached.value;
    }
  }

  /** The four int32 properties. */
  datatype IntField = BytesPerCluster | ClustersPerTrack | DataClustersPerTrack | TrackCount

  function FieldOffset(f: IntField): (off: nat)
    ensures off + LengthInt32 <= OffsetNameLength
  {
    match f
    case BytesPerCluster => OffsetBytesPerCluster
    case ClustersPerTrack => OffsetTotalClustersPerTrack
    case DataClustersPerTrack => OffsetDataClustersPerTrack
    case TrackCount => OffsetTotalTracks
  }

  /** Different properties have disjoint byte ranges. */
  lemma FieldsDisjoint(f: IntField, g: IntField)
    requires f != g
    ensures FieldOffset(f) + LengthInt32 <= FieldOffset(g) || FieldOffset(g) + LengthInt32 <= FieldOffset(f)
  {
  }

  // ----- the layout on the window after the base header -----

  function ReadField(bytes: seq<Byte>, f: IntField): Int32
    requires OffsetData <= |bytes|
  {
    DecodeInt32(bytes[FieldOffset(f)..FieldOffset(f) + LengthInt32])
  }

  function WithField(bytes: seq<Byte>, f: IntField, value: Int32): seq<Byte>
    requires OffsetData <= |bytes|
  {
    Splice(bytes, FieldOffset(f), EncodeInt32(value))
  }

  /** The stored name: as many code units as the length byte says. */
  function NameOf(bytes: seq<Byte>): (name: seq<CodeUnit>)
    requires OffsetData <= |bytes|
    ensures |name| == bytes[OffsetNameLength] <= MaximumNameLength
  {
    var n: int := bytes[OffsetNameLength];
    DecodeString(bytes[OffsetName..OffsetName + 2 * n])
  }

  /** The name setter's three writes: length byte, code units, zeros up to Offset_Data. */
  function WithName(bytes: seq<Byte>, name: seq<CodeUnit>): seq<Byte>
    requires OffsetData <= |bytes| && |name| <= MaximumNameLength
  {
    var withLength := Splice(bytes, OffsetNameLength, [|name|]);
    var withUnits := Splice(withLength, OffsetName, EncodeString(name));
    Splice(withUnits, OffsetName + 2 * |name|, Zeros((MaximumNameLength - |name|) * 2))
  }

  /** A property reads back as written; the other three and the name are untouched. */
  lemma FieldRoundTrip(bytes: seq<Byte>, f: IntField, g: IntField, value: Int32)
    requires OffsetData <= |bytes|
    ensures ReadField(WithField(bytes, f, value), f) == value
    ensures g != f ==> ReadField(WithField(bytes, f, value), g) == ReadField(bytes, g)
    ensures NameOf(WithField(bytes, f, value)) == NameOf(bytes)
  {
    var e := EncodeInt32(value);
    SpliceAt(bytes, FieldOffset(f), e);
    Int32RoundTrip(value, []);
    if g != f {
      FieldsDisjoint(f, g);
      SpliceElsewhere(bytes, FieldOffset(f), e, FieldOffset(g), FieldOffset(g) + LengthInt32);
    }
    var n: int := bytes[OffsetNameLength];
    SpliceElsewhere(bytes, FieldOffset(f), e, OffsetName, OffsetName + 2 * n);
  }

  /** The bytes from the end of the new name up to Offset_Data are all zero. */
  lemma NameZeroFill(bytes: seq<Byte>, name: seq<CodeUnit>)
    requires OffsetData <= |bytes| && |name| <= MaximumNameLength
    ensures forall k :: OffsetName + 2 * |name| <= k < OffsetData ==> WithName(bytes, name)[k] == 0
  {
  }

  /** Setting the name touches nothing outside [Offset_NameLength, Offset_Data). */
  lemma NameFrame(bytes: seq<Byte>, name: seq<CodeUnit>, f: IntField)
    requires OffsetData <= |bytes| && |name| <= MaximumNameLength
    ensures forall k :: 0 <= k < |bytes| && !(OffsetNameLength <= k < OffsetData) ==> WithName(bytes, name)[k] == bytes[k]
    ensures ReadField(WithName(bytes, name), f) == ReadField(bytes, f)
  {
    var r := WithName(bytes, name);
    var o := FieldOffset(f);
    assert r[o..o + LengthInt32] == bytes[o..o + LengthInt32];
  }

  /** The name reads back as set. */
  lemma NameRoundTrip(bytes: seq<Byte>, name: seq<CodeUnit>)
    requires OffsetData <= |bytes| && |name| <= MaximumNameLength
    ensures NameOf(WithName(bytes, name)) == name
  {
    var r := WithName(bytes, name);
    var e := EncodeString(name);
    assert r[OffsetNameLength] == |name|;
    assert r[OffsetName..OffsetName + 2 * |name|] == e;
    StringRoundTrip(name);
  }

  /**
    The whole name area after a set depends only on the new name: whatever
    name was there before, no stale code unit survives.
  */
  lemma NameAreaIndependentOfHistory(b1: seq<Byte>, b2: seq<Byte>, name: seq<CodeUnit>)
    requires OffsetData <= |b1| && OffsetData <= |b2| && |name| <= MaximumNameLength
    ensures WithName(b1, name)[OffsetNameLength..OffsetData] == WithName(b2, name)[OffsetNameLength..OffsetData]
  {
    var r1, r2 := WithName(b1, name), WithName(b2, name);
    assert forall k :: OffsetNameLength <= k < OffsetData ==> r1[k] == r2[k];
    assert forall k :: 0 <= k < OffsetData - OffsetNameLength ==>
      r1[OffsetNameLength..OffsetData][k] == r2[OffsetNameLength..OffsetData][k];
  }

  // ----- the cluster object -----

  class PartitionHeaderCluster {
    const env: Env
    /** The base cluster's open block: its bytes after the base header. */
    const block: array<Byte>
    var clusterType: ClusterType

    ghost predicate Valid()
    {
      HeaderFits(env) && block.Length == ClusterSize(env.bytesPerBlock) - env.baseHeaderLength
    }

    /** A fresh superblock: zero geometry and an empty name. */
    constructor(env: Env)
      requires HeaderFits(env)
      ensures Valid() && fresh(block) && this.env == env
      ensures clusterType == PartitionHeader
      ensures Field(BytesPerCluster) == 0 && Field(ClustersPerTrack) == 0
      ensures Field(DataClustersPerTrack) == 0 && Field(TrackCount) == 0
      ensures VolumeName() == []
    {
      this.env := env;
      block := new Byte[ClusterSize(env.bytesPerBlock) - env.baseHeaderLength];
      clusterType := PartitionHeader;
      new;
      SetFields(0, 0, 0, 0);
      var _ := SetVolumeName(Some([]));
    }

    /** The four getters: the property's four bytes are exactly the encoding of the value read. */
    function Field(f: IntField): (v: Int32)
      requires Valid()
      reads block
      ensures EncodeInt32(v) == block[FieldOffset(f)..FieldOffset(f) + LengthInt32]
    {
      Int32RoundTrip(0, block[FieldOffset(f)..FieldOffset(f) + LengthInt32]);
      ReadField(block[..], f)
    }

    method SetField(f: IntField, value: Int32)
      requires Valid()
      modifies block
      ensures block[..] == WithField(old(block[..]), f, value)
      ensures Field(f) == value
      ensures forall g :: g != f ==> Field(g) == old(Field(g))
      ensures VolumeName() == old(VolumeName())
    {
      ghost var before := block[..];
      Write(block, FieldOffset(f), EncodeInt32(value));
      FieldRoundTrip(before, f, f, value);
      forall g | g != f ensures Field(g) == old(Field(g)) {
        FieldRoundTrip(before, f, g, value);
      }
    }

    /** The four property setters in declaration order, as the constructor and Clear call them. */
    method SetFields(bytesPerCluster: Int32, clustersPerTrack: Int32, dataClustersPerTrack: Int32, trackCount: Int32)
      requires Valid()
      modifies block
      ensures Field(BytesPerCluster) == bytesPerCluster && Field(ClustersPerTrack) == clustersPerTrack
      ensures Field(DataClustersPerTrack) == dataClustersPerTrack && Field(TrackCount) == trackCount
      ensures VolumeName() == old(VolumeName())
    {
      SetField(BytesPerCluster, bytesPerCluster);
      SetField(ClustersPerTrack, clustersPerTrack);
      SetField(DataClustersPerTrack, dataClustersPerTrack);
      SetField(TrackCount, trackCount);
    }

    function VolumeName(): (name: seq<CodeUnit>)
      requires Valid()
      reads block
      ensures |name| == block[OffsetNameLength] <= MaximumNameLength
    {
      NameOf(block[..])
    }

    /**
      The VolumeName setter: null and over-long names are rejected before any
      write; otherwise the length byte, the code units and the zero fill.
    */
    method SetVolumeName(value: Option<seq<CodeUnit>>) returns (r: Outcome)
      requires Valid()
      modifies block
      ensures value.None? ==> r == Fail(ArgumentNull) && block[..] == old(block[..])
      ensures value.Some? && |value.value| > MaximumNameLength ==>
        r == Fail(Argument) && block[..] == old(block[..])
      ensures value.Some? && |value.value| <= MaximumNameLength ==>
        && r == Pass
        && block[..] == WithName(old(block[..]), value.value)
        && VolumeName() == value.value
        && (forall f :: Field(f) == old(Field(f)))
    {
      if value.None? {
        return Fail(ArgumentNull);
      }
      var name := value.value;
      if |name| > MaximumNameLength {
        return Fail(Argument);
      }
      ghost var before := block[..];
      Write(block, OffsetNameLength, [|name|]);
      Write(block, OffsetName, EncodeString(name));
      Write(block, OffsetName + 2 * |name|, Zeros((MaximumNameLength - |name|) * 2));
      NameRoundTrip(before, name);
      forall f ensures Field(f) == old(Field(f)) {
        NameFrame(before, name, f);
      }
      r := Pass;
    }

    /**
      Resets every field to the configuration's defaults.  The name is set last,
      so a null or over-long default name throws after the four integers are written.
    */
    method Clear() returns (r: Outcome)
      requires Valid()
      modifies this, block
      ensures clusterType == PartitionHeader
      ensures Field(BytesPerCluster) == env.bytesPerCluster
      ensures Field(ClustersPerTrack) == env.clustersPerTrack
      ensures Field(DataClustersPerTrack) == env.dataClustersPerTrack
      ensures Field(TrackCount) == env.trackCount
      ensures env.volumeName.None? ==> r == Fail(ArgumentNull) && VolumeName() == old(VolumeName())
      ensures env.volumeName.Some? && |env.volumeName.value| <= MaximumNameLength ==>
        r == Pass && VolumeName() == env.volumeName.value
      ensures env.volumeName.Some? && |env.volumeName.value| > MaximumNameLength ==>
        r == Fail(Argument) && VolumeName() == old(VolumeName())
    {
      clusterType := PartitionHeader;
      SetFields(env.bytesPerCluster, env.clustersPerTrack, env.dataClustersPerTrack, env.trackCount);
      r := SetVolumeName(env.volumeName);
    }

    /** The superblock is pinned at partition byte 0, whatever its address. */
    function AbsoluteAddress(): (r: int)
      ensures r == 0
    {
      0
    }
  }
}
