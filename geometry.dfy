/**
  Constants the cluster layer reads from code outside this model: the global
  partition Configuration (geometry and defaults), the base Cluster's header
  length, the NoAddress sentinel and the file-system entry storage length.
  They are fixed for a process, so they are passed around as one value.
*/
module Geometry {
  import opened Bytes
  import opened Errors

  datatype Env = Env(
    baseHeaderLength: nat,           // Cluster.HeaderLength
    noAddress: Int32,                // Constants.NoAddress
    bytesPerCluster: Int32,          // Configuration.Geometry.BytesPerCluster
    bytesPerBlock: Int32,            // Configuration.Partition.BytesPerBlock
    clustersPerTrack: Int32,         // Configuration.Geometry.ClustersPerTrack
    dataClustersPerTrack: Int32,     // Configuration.Geometry.DataClustersPerTrack
    trackCount: Int32,               // Configuration.Geometry.TrackCount
    volumeName: Option<seq<CodeUnit>>, // Configuration.VolumeName (a .NET string, so possibly null)
    entryStorageLength: Int32)       // FileSystemObject.FileSystemEntryStorageLength
  {
    /** The geometry an array cluster needs: room for the base header and the chain pointer. */
    predicate Valid() {
      baseHeaderLength + 4 < bytesPerCluster && bytesPerBlock > 0
    }
  }

  /** The tag the base Cluster stores to say which record occupies the cluster. */
  datatype ClusterType = Unassigned | PartitionHeader | DirectoryTable
}
