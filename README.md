# SRFS cluster layout in Dafny

This project models the byte-layout layer of the SRFS cluster format and proves its layout properties. A cluster is a fixed-size unit of the partition. Each cluster type lays its fields out after the base `Cluster` header. The model covers four types:

- `ArrayCluster` / `ArrayCluster<T>` (module `ArrayClusters`, file `array_cluster.dfy`). A 4-byte `NextClusterAddress` chain pointer, then a fixed number of same-size element slots. Elements are read and written through an element codec. The capacity is `(BytesPerCluster - HeaderLength) / elementSize`, and the indexer checks bounds.
- `PartitionHeaderCluster` (module `PartitionHeader`, file `partition_header.dfy`). The superblock: four int32 geometry fields, a one-byte name length and a 255-code-unit name area, ending at `Offset_Data = 527`. Its `ClusterSize` is `Offset_Data` rounded up to whole blocks, cached after first use.
- `VerifyTimesCluster` (module `VerifyTimes`, file `verify_times.dfy`). An `ArrayCluster<DateTime>` whose 8-byte elements are int64 tick counts.
- `Directory` (module `Directories`, file `directory.dfy`). The directory-table entry. Its attributes always carry the Directory bit, its hash is its ID, and it supplies the codec of a directory-table array cluster.

Supporting modules:

- `Errors` (`errors.dfy`): `Result`/`Outcome` values. They stand for the .NET exceptions the code throws: `ArgumentOutOfRange`, `ArgumentNull` and `Argument`.
- `Bytes` (`bytes.dfy`): the byte window and its fixed-width encodings, with round-trip lemmas. These are little-endian unsigned integers, two's-complement int32/int64 and UTF-16 code-unit strings.
- `Geometry` (`geometry.dfy`): one value `Env` holding the constants this layer reads from elsewhere. These are the global `Configuration`, `Cluster.HeaderLength`, `Constants.NoAddress` and `FileSystemEntryStorageLength`.

Each cluster object holds its base open block (the bytes after the base header) as an `array<Byte>`. Its setters write into it in place. Each getter is a function of the array's contents. Every setter is specified against a pure function on byte sequences (`WriteSlot`, `WithNextCluster`, `WithField`, `WithName`). The read-back and "nothing else changes" properties are lemmas about those functions.

Points where the code's behaviour is easy to misread:

- Constructing a placed array cluster with `NoAddress` throws `ArgumentOutOfRangeException` (`ArrayCluster.cs:49`). The model reports `ArgumentOutOfRange`.
- The superblock record ends 527 bytes after the base header (`Offset_Data`). With 512-byte blocks, `ClusterSize(512) == 1024`.
- `AbsoluteAddressSentinel` proves that `AbsoluteAddress` is `NoAddress` iff `Address` is `NoAddress`, when real addresses are non-negative and `NoAddress` is negative.

## Model

| member | source | states |
|---|---|---|
| `Bytes.Int32RoundTrip` | SRFS.Model/Clusters/ArrayCluster.cs:22-29 | an int32 stored in 4 bytes reads back unchanged, and every 4 bytes are the encoding of the int32 they decode to |
| `Bytes.Int64RoundTrip` | SRFS.Model/Clusters/VerifyTimesCluster.cs:24-30 | an int64 stored in 8 bytes reads back unchanged, and every 8 bytes are the encoding of the int64 they decode to |
| `Bytes.Write` | SRFS.Model/Clusters/PartitionHeaderCluster.cs:84-86 | `ByteBlock.Set` at an offset: the given bytes land at the offset and every other byte is unchanged |
| `Bytes.StringRoundTrip` | SRFS.Model/Clusters/PartitionHeaderCluster.cs:76-88 | a string stored as UTF-16 code units reads back unchanged |
| `ArrayClusters.CalculateElementCount` | SRFS.Model/Clusters/ArrayCluster.cs:34-36 | the count is the largest number of slots that fit: `HeaderLength + count*size <= BytesPerCluster < HeaderLength + (count+1)*size` |
| `ArrayClusters.HeaderLength` | SRFS.Model/Clusters/ArrayCluster.cs:12-17 | set in the static constructor after `Offset_Data`, the array header is the base header plus exactly the 4-byte chain pointer, and slot 0 starts right after it |
| `ArrayClusters.SlotInRegion` | SRFS.Model/Clusters/ArrayCluster.cs:74-77 | every valid slot starts at or after `Offset_Data` (past the chain pointer) and ends inside the cluster |
| `ArrayClusters.SlotsDisjoint` | SRFS.Model/Clusters/ArrayCluster.cs:89-98 | the byte ranges `[i*size, (i+1)*size)` of two different slots do not overlap |
| `ArrayClusters.ReadAfterWriteSlot` | SRFS.Model/Clusters/ArrayCluster.cs:89-98 | for a round-tripping codec, reading slot i after writing v there gives v |
| `ArrayClusters.WriteSlotFrame` | SRFS.Model/Clusters/ArrayCluster.cs:94-97 | writing slot i leaves every other slot and the chain pointer as they were |
| `ArrayClusters.NextClusterRoundTrip` | SRFS.Model/Clusters/ArrayCluster.cs:22-29 | the chain pointer reads back as written, and writing it leaves every element slot as it was |
| `ArrayClusters.ArrayCluster.Placed` | SRFS.Model/Clusters/ArrayCluster.cs:107-110 | a new cluster has the given address, element size and codec, capacity `CalculateElementCount(elementSize)`, and `NextClusterAddress == NoAddress` |
| `ArrayClusters.Create` | SRFS.Model/Clusters/ArrayCluster.cs:48-52 | construction throws ArgumentOutOfRange exactly when the address is `NoAddress`; otherwise the chain pointer is `NoAddress` |
| `ArrayClusters.ArrayCluster.CopyOf` | SRFS.Model/Clusters/ArrayCluster.cs:112-115 | the copy keeps the element size, the count, the codec, the address and the bytes |
| `ArrayClusters.ArrayCluster.Count` | SRFS.Model/Clusters/ArrayCluster.cs:100 | `Count` is the capacity: as many slots as fit after the header, and not one more |
| `ArrayClusters.ArrayCluster.NextClusterAddress` | SRFS.Model/Clusters/ArrayCluster.cs:22-25 | the getter reads the chain pointer losslessly: its four bytes are exactly the encoding of the value returned |
| `ArrayClusters.ArrayCluster.SetNextClusterAddress` | SRFS.Model/Clusters/ArrayCluster.cs:26-28 | after the set the pointer reads back as the value written, and every element reads as before |
| `ArrayClusters.ArrayCluster.Initialize` | SRFS.Model/Clusters/ArrayCluster.cs:38-41 | after `Initialize` the chain pointer is `NoAddress` and every element reads as before |
| `ArrayClusters.ArrayCluster.AbsoluteAddress` | SRFS.Model/Clusters/ArrayCluster.cs:61-65 | `NoAddress` for `NoAddress`, otherwise `Address * BytesPerCluster`, and always within the range of a long |
| `ArrayClusters.ProductFitsInt64` | SRFS.Model/Clusters/ArrayCluster.cs:63 | the product of two int32 values never overflows a long |
| `ArrayClusters.AbsoluteAddressSentinel` | SRFS.Model/Clusters/ArrayCluster.cs:61-65 | with non-negative real addresses and a negative `NoAddress`, the absolute address is `NoAddress` iff the address is |
| `ArrayClusters.ArrayCluster.Get` | SRFS.Model/Clusters/ArrayCluster.cs:90-93 | throws ArgumentOutOfRange when `index < 0 or index >= Count`; otherwise decodes the bytes of slot `index`, which lie inside the block |
| `ArrayClusters.ArrayCluster.Set` | SRFS.Model/Clusters/ArrayCluster.cs:94-97 | out of range: throws and leaves the buffer unchanged; in range: slot `index` reads back as the value, every other slot and the chain pointer read as before |
| `ArrayClusters.ArrayCluster.Enumerate` | SRFS.Model/Clusters/ArrayCluster.cs:124-126 | yields `this[0] .. this[Count-1]` in ascending order, or the first exception one of them throws; modifies nothing |
| `PartitionHeader.LayoutOffsets` | SRFS.Model/Clusters/PartitionHeaderCluster.cs:114-132 | the fields sit at 0, 4, 8, 12, the name length at 16 and the name at 17, so `Offset_Data == 527` |
| `PartitionHeader.RecordLength` | SRFS.Model/Clusters/PartitionHeaderCluster.cs:12 | the intended `HeaderLength`: it covers all four int32 properties, the length byte and the whole 255-code-unit name area, and ends where the name area does |
| `PartitionHeader.HeaderLengthField` | SRFS.Model/Clusters/PartitionHeaderCluster.cs:12 | the public `HeaderLength` field as initialized is just `Cluster.HeaderLength`, because `Offset_Data` still reads 0 when line 12 runs |
| `PartitionHeader.HeaderLengthFieldShort` | SRFS.Model/Clusters/PartitionHeaderCluster.cs:12 | the `HeaderLength` field as initialized (with `Offset_Data` still 0) is `Offset_Data` short of the record and ends before the first property's bytes |
| `PartitionHeader.ClusterSize` | SRFS.Model/Clusters/PartitionHeaderCluster.cs:29-38 | a multiple of the block size, at least `Offset_Data` and less than `Offset_Data + BytesPerBlock`; a function of the block size alone, never of the stored `BytesPerCluster` |
| `PartitionHeader.ClusterSizeOf512` | SRFS.Model/Clusters/PartitionHeaderCluster.cs:33 | with 512-byte blocks the superblock cluster is 1024 bytes |
| `PartitionHeader.ClusterSizeMayNotCoverHeader` | SRFS.Model/Clusters/PartitionHeaderCluster.cs:12 | the round-up is of `Offset_Data`, not of the record length: with 527-byte blocks and any base header the record overflows its cluster |
| `PartitionHeader.ClusterSizeCache.Get` | SRFS.Model/Clusters/PartitionHeaderCluster.cs:29-38 | returns the round-up formula; once computed the cached value is returned unchanged |
| `PartitionHeader.FieldsDisjoint` | SRFS.Model/Clusters/PartitionHeaderCluster.cs:114-124 | the byte ranges of the four int32 properties do not overlap |
| `PartitionHeader.FieldRoundTrip` | SRFS.Model/Clusters/PartitionHeaderCluster.cs:40-74 | an int32 property reads back as written; the other three and the name are unchanged |
| `PartitionHeader.NameRoundTrip` | SRFS.Model/Clusters/PartitionHeaderCluster.cs:76-88 | after setting a name of at most 255 code units it reads back exactly, with the length byte equal to its length |
| `PartitionHeader.NameZeroFill` | SRFS.Model/Clusters/PartitionHeaderCluster.cs:86 | after setting a name, the bytes `[17 + 2*len, 527)` are all zero |
| `PartitionHeader.NameFrame` | SRFS.Model/Clusters/PartitionHeaderCluster.cs:84-86 | setting the name changes no byte outside `[16, 527)` and no int32 property |
| `PartitionHeader.NameAreaIndependentOfHistory` | SRFS.Model/Clusters/PartitionHeaderCluster.cs:84-86 | the name area after a set depends only on the new name, so no stale characters of a longer earlier name survive |
| `PartitionHeader.PartitionHeaderCluster.constructor` | SRFS.Model/Clusters/PartitionHeaderCluster.cs:17-24 | a new superblock has type PartitionHeader, all four int32 properties 0 and an empty name |
| `PartitionHeader.PartitionHeaderCluster.SetField` | SRFS.Model/Clusters/PartitionHeaderCluster.cs:40-74 | the property reads back as written; the other properties and the name are unchanged |
| `PartitionHeader.PartitionHeaderCluster.Field` | SRFS.Model/Clusters/PartitionHeaderCluster.cs:40-74 | each int32 getter reads its property's four bytes losslessly: they are exactly the encoding of the value returned |
| `PartitionHeader.PartitionHeaderCluster.SetFields` | SRFS.Model/Clusters/PartitionHeaderCluster.cs:96-99 | the four property setters in turn: each property reads back as given and the name is unchanged |
| `PartitionHeader.PartitionHeaderCluster.VolumeName` | SRFS.Model/Clusters/PartitionHeaderCluster.cs:77-79 | the name read has exactly as many code units as the length byte says, hence at most 255 |
| `PartitionHeader.PartitionHeaderCluster.SetVolumeName` | SRFS.Model/Clusters/PartitionHeaderCluster.cs:80-87 | null throws ArgumentNull and a name over 255 throws Argument, both before any write; otherwise the name reads back and the int32 properties are unchanged |
| `PartitionHeader.PartitionHeaderCluster.Clear` | SRFS.Model/Clusters/PartitionHeaderCluster.cs:93-101 | afterwards the type is PartitionHeader and the four properties equal the configuration's; the name equals the configured one, or the call throws ArgumentNull (null name) or Argument (over 255) and the name is unchanged |
| `PartitionHeader.PartitionHeaderCluster.AbsoluteAddress` | SRFS.Model/Clusters/PartitionHeaderCluster.cs:107 | the superblock is always at byte 0 |
| `VerifyTimes.FromTicks` | SRFS.Model/Clusters/VerifyTimesCluster.cs:28-30 | decoding succeeds exactly for ticks in DateTime's range, with those ticks; otherwise it throws ArgumentOutOfRange |
| `VerifyTimes.WriteElement` | SRFS.Model/Clusters/VerifyTimesCluster.cs:24-26 | writes only the 8 bytes at the offset, and `ReadElement` there gives the value back |
| `VerifyTimes.ReadElement` | SRFS.Model/Clusters/VerifyTimesCluster.cs:28-30 | a DateTime read back re-encodes to exactly the 8 bytes at the offset; a tick count outside DateTime's range throws ArgumentOutOfRange |
| `VerifyTimes.TicksCodec` | SRFS.Model/Clusters/VerifyTimesCluster.cs:16 | the element size is `sizeof(long)`, 8 bytes |
| `VerifyTimes.TicksCodecRoundTrips` | SRFS.Model/Clusters/VerifyTimesCluster.cs:24-30 | decoding the written ticks gives back the same DateTime |
| `VerifyTimes.ElementsPerClusterCache.ElementsPerCluster` | SRFS.Model/Clusters/VerifyTimesCluster.cs:14-19 | returns `CalculateElementCount(8)`; once computed the cached value is returned unchanged |
| `VerifyTimes.NewVerifyTimesCluster` | SRFS.Model/Clusters/VerifyTimesCluster.cs:10 | an array cluster over the given configuration, of 8-byte tick elements with `ElementsPerCluster` slots; `NoAddress` throws ArgumentOutOfRange |
| `Directories.WithDirectoryBit` | SRFS.Model/Data/Directory.cs:20-27 | the Directory bit is set and every other bit is kept |
| `Directories.WithDirectoryBitIdempotent` | SRFS.Model/Data/Directory.cs:20-27 | writing back the attributes just read changes nothing |
| `Directories.Directory.constructor` | SRFS.Model/Data/Directory.cs:14-16 | a new directory reports `Normal \| Directory` |
| `Directories.Directory.Load` | SRFS.Model/Data/Directory.cs:18 | a directory decoded from a table slot has the stored fields and reports the Directory bit |
| `Directories.Directory.Attributes` | SRFS.Model/Data/Directory.cs:21-23 | the getter always includes the Directory bit, whatever is stored, and keeps the other stored bits |
| `Directories.Directory.SetAttributes` | SRFS.Model/Data/Directory.cs:24-26 | the stored flags become `value \| Directory`, and the getter then reports exactly that |
| `Directories.Directory.EqualsDirectory` | SRFS.Model/Data/Directory.cs:38-40 | delegates to the base entity's equality |
| `Directories.Directory.Equals` | SRFS.Model/Data/Directory.cs:29-32 | false for null and for anything that is not a Directory; otherwise `Equals(Directory)` |
| `Directories.Directory.GetHashCode` | SRFS.Model/Data/Directory.cs:34-36 | the hash is the ID |
| `Directories.HashDependsOnlyOnId` | SRFS.Model/Data/Directory.cs:34-36 | entries with equal IDs hash the same, whatever their names and attributes |
| `Directories.EqualsById` | SRFS.Model/Data/Directory.cs:29-32 | when the base equality compares IDs, a directory equals exactly the directories with its ID |
| `Directories.CreateArrayCluster` | SRFS.Model/Data/Directory.cs:11-12 | a directory table over the given configuration at the address, with `StorageLength`-byte elements, capacity `CalculateElementCount(StorageLength)`, Save as encoder and the decoding constructor as decoder |
| `Directories.EntryRoundTrip` | SRFS.Model/Data/Directory.cs:11-12 | with at least 519 bytes per entry, loading a saved entry (ID, attributes, name of at most 255 code units) gives the same entry back |
| `Directories.ReferenceCodecRoundTrips` | SRFS.Model/Data/Directory.cs:11-12 | the reference save/load pair is a round-tripping `StorageLength`-byte element codec: a codec that meets `CreateArrayCluster`'s requires |
| `Directories.CreateArrayClusterCallable` | SRFS.Model/Data/Directory.cs:11-12 | a concrete configuration, address and codec meet every precondition of `CreateArrayCluster`, so its guarantees are not vacuous |

## Left out

- The byte window primitive (`ByteBlock`/`DataBlock`) is not part of this model. Integers and strings are assumed to be stored little-endian. No property proved depends on the byte order. Its `ToString(offset, length)` is taken to count UTF-16 code units, not bytes: the name setter writes `length * sizeof(char)` bytes, and `NameOf` and `NameRoundTrip` rest on that reading.
- The base `Cluster` class is not part of this model. Its header bytes are not represented. Its `Address` and `Type` are plain fields, and its `HeaderLength` is a parameter.
- The global `Configuration`, `Constants.NoAddress` and `FileSystemEntryStorageLength` are one immutable parameter (`Geometry.Env`). Array clusters require `BytesPerCluster > HeaderLength`.
- `FileSystemObject` is not part of this model. Its fields become `Directory` fields. Its `Save` and byte constructor are a caller-supplied codec, assumed to round-trip; a reference record (`SaveEntry`/`LoadEntry`) shows one such codec exists, but its byte layout is not the source's. Its `Equals` is a caller-supplied function. Its `ID` is taken to be an int32, whose `GetHashCode` is the value itself, so `GetHashCode` returns the ID.
- `Directories.Entry`: names are bounded to 255 code units (`EntryName`). A fixed-size record cannot hold unbounded names, and the bound `FileSystemObject` enforces is not shown.
- `Directories.Directory.EqualsDirectory`: takes a non-null directory. The source's `Equals(Directory)` also accepts null and passes it to the base equality, which is not shown.
- `ObjectArrayCluster<T>` is not part of this model. The directory table is an `ArrayCluster<Entry>` with an injected codec. Table elements are values (`Entry`), because a codec function cannot allocate `Directory` objects; `Directory.Load` builds one from an element.
- `DateTime` is modelled by its tick count only. Its `Kind` and calendar are left out, and `FileAttributes` is a bit-vector.
- `VerifyTimesCluster` calls `base(sizeof(long))` with no address and overrides with `ByteBlock` instead of `DataBlock`. Neither matches `ArrayCluster<T>`. It is modelled as `ArrayCluster<DateTime>` with element size 8 and a caller-supplied address.
- The static caches (`_clusterSize`, `_elementsPerCluster`) are modelled as objects over a fixed configuration. Their thread safety is not modelled.
- `GetEnumerator` is lazy in the source. `Enumerate` collects the whole sequence at once. Concurrent mutation during enumeration is not modelled.
- `MaximumNameLength` is a mutable public static in the source. It is modelled as the constant 255 that `Length_Name` is computed from.
- Chain traversal, cycle detection, allocation and disk I/O are not done by this code.
- `PartitionHeader.ClusterSize`: requires `BytesPerBlock <= 2^31 - 527`. The int32 overflow of `Offset_Data + blockSize - 1` for larger block sizes is not modelled.
- `PartitionHeader.PartitionHeaderCluster.constructor`: requires that the whole record fit in `ClusterSize` (`HeaderFits`). `ClusterSizeMayNotCoverHeader` shows this can fail.
- `PartitionHeader.PartitionHeaderCluster.Clear`: the call to `base.Clear()` is not modelled, since the base `Cluster` is not part of this model. The failure-path clause "the name is unchanged" holds only if `base.Clear()` leaves bytes [16, 527) of the open block alone.
- `ArrayClusters.CalculateElementCount`: requires a positive element size. In the source it is public and divides by any int: 0 throws `DivideByZeroException`, and a negative size gives a count of 0 or below (C# division truncates toward zero). Every caller in this model passes a positive size.
- `ArrayClusters.ArrayCluster.Initialize`: the call to `base.Initialize()` is not modelled, since the base `Cluster` is not part of this model.
- `ArrayClusters.ArrayCluster.CopyOf`: the base copy constructor `Cluster(Cluster)` is not part of this model. It is taken to copy the bytes, not to share them.
- `Directories.CreateArrayCluster`: requires `address != NoAddress` and a round-tripping codec. What `ObjectArrayCluster`'s constructor does before `Address` is assigned is not part of this model.
- `ArrayClusters.ArrayCluster.Get`: out of range it gives ArgumentOutOfRange. In range it gives whatever the codec's decoder gives, and that may also be an error. For the tick codec, an invalid tick count gives ArgumentOutOfRange too.

## Findings

| source | as written | input that shows it | evidently intended | confidence | as-written member | corrected member |
|---|---|---|---|---|---|---|
| SRFS.Model/Clusters/PartitionHeaderCluster.cs:12 | `HeaderLength = Cluster.HeaderLength + Offset_Data` runs before `Offset_Data` (a `static readonly` field declared at line 132) is initialized, so it reads 0 and the field equals `Cluster.HeaderLength` | any configuration: the field is `Cluster.HeaderLength`, 527 bytes less than the record, and ends before `BytesPerCluster`'s bytes | `Cluster.HeaderLength + 527`, as `ArrayCluster` gets by computing its header length in a static constructor (`ArrayCluster.cs:15-17`) | high; not executed | `PartitionHeader.HeaderLengthFieldShort` | `PartitionHeader.RecordLength` |
