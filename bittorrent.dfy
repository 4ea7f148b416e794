/** The read-only view of one torrent that the serializer consumes. */
module BitTorrent {
  import opened Qt

  /** A C++ `int`, 32 bits wide. */
  newtype int32 = x: int | -0x8000_0000 <= x < 0x8000_0000

  const INT32_MAX: int32 := 0x7fff_ffff

  /** The lifecycle state the session attaches to a torrent. The eighteen named
      enumerators are those the serializer's switch lists; `Unrecognized`
      stands for any other value the enumeration may hold. */
  datatype TorrentState =
    | Error
    | MissingFiles
    | Uploading
    | StoppedUploading
    | QueuedUploading
    | StalledUploading
    | CheckingUploading
    | ForcedUploading
    | Downloading
    | DownloadingMetadata
    | ForcedDownloadingMetadata
    | StoppedDownloading
    | QueuedDownloading
    | StalledDownloading
    | CheckingDownloading
    | ForcedDownloading
    | CheckingResumeData
    | Moving
    | Unrecognized

  /** One entry of the torrent's tracker list; the serializer only counts them. */
  type TrackerEntry

  /** A snapshot of every accessor of `BitTorrent::Torrent` that the serializer
      calls, already turned into the value the call returns. Identity, hashes
      and paths are held as the strings their `toString()` gives; integers are
      unbounded except the queue position, whose arithmetic is 32-bit. */
  datatype Torrent = Torrent(
    id: string,
    infoHashV1: string,
    infoHashV2: string,
    name: string,
    hasMetadata: bool,
    creator: string,
    creationDate: DateTime,
    isPrivate: bool,
    totalSize: int,
    piecesCount: int,
    pieceLength: int,
    magnetUri: string,
    wantedSize: int,
    progress: Float64,
    wastedSize: int,
    piecesHave: int,
    downloadPayloadRate: int,
    uploadPayloadRate: int,
    queuePosition: int32,
    seedsCount: int,
    totalSeedsCount: int,
    leechsCount: int,
    totalLeechersCount: int,
    state: TorrentState,
    eta: int,
    isSequentialDownload: bool,
    hasFirstLastPiecePriority: bool,
    category: string,
    tags: seq<string>,
    superSeeding: bool,
    isForced: bool,
    savePath: string,
    downloadPath: string,
    contentPath: string,
    rootPath: string,
    addedTime: DateTime,
    completedTime: DateTime,
    currentTracker: string,
    trackers: seq<TrackerEntry>,
    downloadLimit: int,
    uploadLimit: int,
    totalDownload: int,
    totalUpload: int,
    totalPayloadDownload: int,
    totalPayloadUpload: int,
    remainingSize: int,
    completedSize: int,
    connectionsCount: int,
    connectionsLimit: int,
    maxRatio: Float64,
    maxSeedingTime: int,
    maxInactiveSeedingTime: int,
    realRatio: real,
    ratioLimit: Float64,
    popularity: Float64,
    seedingTimeLimit: int,
    inactiveSeedingTimeLimit: int,
    lastSeenComplete: DateTime,
    isAutoTMMEnabled: bool,
    activeTime: int,
    finishedTime: int,
    timeSinceActivity: int,
    distributedCopies: Float64,
    nextAnnounce: int,
    comment: string)
}
