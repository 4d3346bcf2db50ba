/**
  Directory: the directory-table entry.  Its attribute flags always carry the
  Directory bit, its identity is its ID, and it supplies the codec of the
  directory-table array cluster.  The ID, the name, the stored attributes and
  their (de)serialization belong to FileSystemObject, which is not part of this
  model: its fields are the fields below and its codec is a parameter.
*/
module Directories {
  import opened Bytes
  import opened Errors
  import opened Geometry
  import opened ArrayClusters

  /** System.IO.FileAttributes flags. */
  type FileAttributes = bv32
  const DirectoryFlag: FileAttributes := 0x10
  const NormalFlag: FileAttributes := 0x80

  /** What the Attributes accessors make of a value: the Directory bit forced on, every other bit kept. */
  function WithDirectoryBit(flags: FileAttributes): (a: FileAttributes)
    ensures a & DirectoryFlag == DirectoryFlag
    ensures a & !DirectoryFlag == flags & !DirectoryFlag
  {
    flags | DirectoryFlag
  }

  /** Writing back what was read changes nothing. */
  lemma WithDirectoryBitIdempotent(flags: FileAttributes)
    ensures WithDirectoryBit(WithDirectoryBit(flags)) == WithDirectoryBit(flags)
  {
  }

  /**
    The longest name an entry holds.  An entry is stored in a fixed number of
    bytes, so its name is bounded; the bound is taken to be 255 code units.
  */
  const MaximumNameLength: nat := 255
  type EntryName = s: seq<CodeUnit> | |s| <= MaximumNameLength

  /** The fields of a directory entry as FileSystemObject persists them. */
  datatype Entry = Entry(id: Int32, name: EntryName, attributes: FileAttributes)

  class Directory {
    var id: Int32
    var name: EntryName
    /** base.Attributes: the flags FileSystemObject stores. */
    var storedAttributes: FileAttributes

    /** new Directory(id, name): a Normal directory. */
    constructor(id: Int32, name: EntryName)
      ensures this.id == id && this.name == name
      ensures storedAttributes == NormalFlag | DirectoryFlag
      ensures Attributes() == NormalFlag | DirectoryFlag
    {
      this.id := id;
      this.name := name;
      storedAttributes := WithDirectoryBit(NormalFlag);
    }

    /** new Directory(block, offset): the entry FileSystemObject decoded from a table slot. */
    constructor Load(e: Entry)
      ensures id == e.id && name == e.name && storedAttributes == e.attributes
      ensures Attributes() == WithDirectoryBit(e.attributes)
    {
      id := e.id;
      name := e.name;
      storedAttributes := e.attributes;
    }

    function State(): Entry
      reads this
    {
      Entry(id, name, storedAttributes)
    }

    /** The getter: the stored flags with the Directory bit forced on. */
    function Attributes(): (a: FileAttributes)
      reads this
      ensures a & DirectoryFlag == DirectoryFlag
      ensures a & !DirectoryFlag == storedAttributes & !DirectoryFlag
    {
      WithDirectoryBit(storedAttributes)
    }

    /** The setter: what is stored always has the Directory bit. */
    method SetAttributes(value: FileAttributes)
      modifies this
      ensures storedAttributes == WithDirectoryBit(value)
      ensures Attributes() == WithDirectoryBit(value)
      ensures id == old(id) && name == old(name)
    {
      storedAttributes := WithDirectoryBit(value);
    }

    /** Equals(Directory): FileSystemObject's equality, passed in as baseEquals. */
    function EqualsDirectory(other: Directory, baseEquals: (Entry, Entry) -> bool): (r: bool)
      reads this, other
      ensures r == baseEquals(State(), other.State())
    {
      baseEquals(State(), other.State())
    }

    /** Equals(object): false for null and for anything that is not a Directory. */
    function Equals(obj: object?, baseEquals: (Entry, Entry) -> bool): (r: bool)
      reads this, obj
      ensures !(obj is Directory) ==> !r
      ensures obj is Directory ==> r == EqualsDirectory(obj as Directory, baseEquals)
    {
      if obj is Directory then EqualsDirectory(obj as Directory, baseEquals) else false
    }

    /** ID.GetHashCode(): an int32 hashes to itself. */
    function GetHashCode(): (h: Int32)
      reads this
      ensures h == id
    {
      id
    }
  }

  /** Entries with the same ID hash the same, whatever their names and attributes. */
  lemma HashDependsOnlyOnId(d1: Directory, d2: Directory)
    requires d1.id == d2.id
    ensures d1.GetHashCode() == d2.GetHashCode()
  {
  }

  /**
    When the base equality compares IDs only, a Directory equals exactly the
    Directories with its ID, and nothing else.
  */
  lemma EqualsById(d: Directory, obj: object?, baseEquals: (Entry, Entry) -> bool)
    requires forall a, b :: baseEquals(a, b) == (a.id == b.id)
    ensures d.Equals(obj, baseEquals) <==> obj is Directory && (obj as Directory).id == d.id
  {
  }

  /** The codec CreateArrayCluster binds: Save and the decoding constructor, StorageLength bytes each. */
  function DirectoryCodec(env: Env, save: Entry -> seq<Byte>, load: seq<Byte> -> Result<Entry>): Codec<Entry>
    requires env.entryStorageLength > 0
  {
    Codec(env.entryStorageLength, save, load)
  }

  // ----- a reference entry record: one codec that meets CreateArrayCluster's demands -----

  const OffsetId: nat := 0
  const OffsetAttributes: nat := 4
  const OffsetNameLength: nat := 8
  const OffsetName: nat := 9
  /** Bytes the reference record needs: ID, attributes, name length and a full name area. */
  const EntryLayoutLength: nat := OffsetName + 2 * MaximumNameLength

  function EncodeAttributes(a: FileAttributes): (bs: seq<Byte>)
    ensures |bs| == 4
  {
    EncodeLE(a as nat, 4)
  }

  function DecodeAttributes(bs: seq<Byte>): FileAttributes
    requires |bs| == 4
  {
    Pow256Widths();
    DecodeLE(bs) as FileAttributes
  }

  /** An entry as ID, attributes, name length and code units, zero-padded to storageLength bytes. */
  function SaveEntry(storageLength: nat, e: Entry): (bs: seq<Byte>)
    ensures storageLength >= EntryLayoutLength ==> |bs| == storageLength
  {
    var body := EncodeInt32(e.id) + EncodeAttributes(e.attributes) + [|e.name|] + EncodeString(e.name);
    body + Zeros(if storageLength >= |body| then storageLength - |body| else 0)
  }

  /** Reads a record back; a record of the wrong size or with a name length over the bound is rejected. */
  function LoadEntry(storageLength: nat, bs: seq<Byte>): (r: Result<Entry>)
    ensures r.Ok? ==> |bs| == storageLength >= EntryLayoutLength && bs[OffsetNameLength] == |r.value.name|
    ensures r.Err? ==> r.error == Argument
  {
    if |bs| != storageLength || |bs| < EntryLayoutLength then Err(Argument)
    else
      var n: int := bs[OffsetNameLength];
      if n > MaximumNameLength then Err(Argument)
      else
        Ok(Entry(
          DecodeInt32(bs[OffsetId..OffsetAttributes]),
          DecodeString(bs[OffsetName..OffsetName + 2 * n]),
          DecodeAttributes(bs[OffsetAttributes..OffsetNameLength])))
  }

  /** Loading a saved entry gives the entry back. */
  lemma EntryRoundTrip(storageLength: nat, e: Entry)
    requires storageLength >= EntryLayoutLength
    ensures LoadEntry(storageLength, SaveEntry(storageLength, e)) == Ok(e)
  {
    var bs := SaveEntry(storageLength, e);
    assert bs[OffsetId..OffsetAttributes] == EncodeInt32(e.id);
    assert bs[OffsetAttributes..OffsetNameLength] == EncodeAttributes(e.attributes);
    assert bs[OffsetNameLength] == |e.name|;
    assert bs[OffsetName..OffsetName + 2 * |e.name|] == EncodeString(e.name);
    Int32RoundTrip(e.id, []);
    Pow256Widths();
    DecodeEncodeLE(e.attributes as nat, 4);
    StringRoundTrip(e.name);
  }

  function ReferenceSave(storageLength: nat): Entry -> seq<Byte>
  {
    e => SaveEntry(storageLength, e)
  }

  function ReferenceLoad(storageLength: nat): seq<Byte> -> Result<Entry>
  {
    bs => LoadEntry(storageLength, bs)
  }

  /** With room for the reference record, the reference codec round-trips every entry. */
  lemma ReferenceCodecRoundTrips(env: Env)
    requires env.entryStorageLength >= EntryLayoutLength
    ensures RoundTrips(DirectoryCodec(env, ReferenceSave(env.entryStorageLength), ReferenceLoad(env.entryStorageLength)))
  {
    var c := DirectoryCodec(env, ReferenceSave(env.entryStorageLength), ReferenceLoad(env.entryStorageLength));
    forall e: Entry ensures c.decode(c.encode(e)) == Ok(e) {
      EntryRoundTrip(env.entryStorageLength, e);
    }
  }

  /** A configuration with 4096-byte clusters and 519-byte entries. */
  function ExampleEnv(): Env
  {
    Env(32, -1, 4096, 512, 64, 60, 100, Some([]), EntryLayoutLength)
  }

  /** CreateArrayCluster can be called: a configuration, an address and a codec that meet its requires. */
  lemma CreateArrayClusterCallable()
    ensures var env := ExampleEnv();
      && env.Valid() && 0 != env.noAddress && env.entryStorageLength > 0
      && RoundTrips(DirectoryCodec(env, ReferenceSave(env.entryStorageLength), ReferenceLoad(env.entryStorageLength)))
  {
    ReferenceCodecRoundTrips(ExampleEnv());
  }

  /**
    CreateArrayCluster(address): a directory table of StorageLength-byte entries at
    the address, encoding with Save and decoding with the Directory constructor.
  */
  method CreateArrayCluster(env: Env, address: Int32, save: Entry -> seq<Byte>, load: seq<Byte> -> Result<Entry>)
    returns (c: ArrayCluster<Entry>)
    requires env.Valid() && address != env.noAddress && env.entryStorageLength > 0
    requires RoundTrips(DirectoryCodec(env, save, load))
    ensures fresh(c) && fresh(c.block) && c.Valid()
    ensures c.env == env && c.elementSize == env.entryStorageLength && c.address == address
    ensures c.Count() == CalculateElementCount(env, env.entryStorageLength)
    ensures c.codec.encode == save && c.codec.decode == load
    ensures c.clusterType == DirectoryTable && c.NextClusterAddress() == env.noAddress
  {
    c := new ArrayCluster.Placed(env, address, DirectoryCodec(env, save, load), DirectoryTable);
  }
}
