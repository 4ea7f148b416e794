/** `serialize` from serialize_torrent.cpp: the projection of one torrent
    onto the web API's key/value map, restricted to the fields a caller asks
    for, with the handful of value adjustments it applies on the way. */
module SerializeTorrent {
  import opened Qt
  import opened BitTorrent
  import opened TorrentKeys

  /** What `serialize` calls but does not define: the date-time utility, the
      string-join utility, and the clock reading `currentSecsSinceEpoch`. */
  datatype Collaborators = Collaborators(
    toSecsSinceEpoch: DateTime -> int,
    joinIntoString: (seq<string>, string) -> string,
    currentSecsSinceEpoch: int)

  /** `Torrent::MAX_RATIO`, the ratio at and above which a torrent counts as
      having an unlimited ratio. */
  const MAX_RATIO: real := 9999.0

  // ----- torrentStateToString -----

  /** The external token of a lifecycle state. */
  function StateToString(state: TorrentState): (token: string)
    ensures token == "unknown" <==> state == Unrecognized
    ensures |token| > 0
  {
    match state
    case Error => "error"
    case MissingFiles => "missingFiles"
    case Uploading => "uploading"
    case StoppedUploading => "stoppedUP"
    case QueuedUploading => "queuedUP"
    case StalledUploading => "stalledUP"
    case CheckingUploading => "checkingUP"
    case ForcedUploading => "forcedUP"
    case Downloading => "downloading"
    case DownloadingMetadata => "metaDL"
    case ForcedDownloadingMetadata => "forcedMetaDL"
    case StoppedDownloading => "stoppedDL"
    case QueuedDownloading => "queuedDL"
    case StalledDownloading => "stalledDL"
    case CheckingDownloading => "checkingDL"
    case ForcedDownloading => "forcedDL"
    case CheckingResumeData => "checkingResumeData"
    case Moving => "moving"
    case Unrecognized => "unknown"
  }

  /** Distinct states get distinct tokens, so a client can recover the state. */
  lemma StateTokensDistinct(a: TorrentState, b: TorrentState)
    requires a != b
    ensures StateToString(a) != StateToString(b)
  {
  }

  // ----- adjustQueuePosition -----

  /** The queue position shown to users: 0 for a torrent outside the queue,
      otherwise its 0-based position made 1-based. */
  function AdjustQueuePosition(position: int32): (shown: int32)
    requires position < INT32_MAX
    ensures shown >= 0
    ensures shown == 0 <==> position < 0
    ensures position >= 0 ==> shown as int == position as int + 1
  {
    if position < 0 then 0 else position + 1
  }

  /** Queued torrents keep their relative order and no two share a shown position. */
  lemma QueueOrderPreserved(p: int32, q: int32)
    requires 0 <= p < q < INT32_MAX
    ensures 0 < AdjustQueuePosition(p) < AdjustQueuePosition(q)
  {
  }

  /** Boundary values: not queued, first in queue, sixth in queue. */
  lemma QueuePositionExamples()
    ensures AdjustQueuePosition(-1) == 0
    ensures AdjustQueuePosition(0) == 1
    ensures AdjustQueuePosition(5) == 6
  {
  }

  // ----- adjustRatio -----

  /** The share ratio shown to users: -1 once the ratio reaches `MAX_RATIO`. */
  function AdjustRatio(ratio: real): (shown: real)
    ensures shown == -1.0 || shown == ratio
    ensures shown < MAX_RATIO
    ensures ratio < MAX_RATIO ==> shown == ratio
    ensures ratio >= MAX_RATIO ==> shown == -1.0
  {
    if ratio >= MAX_RATIO then -1.0 else ratio
  }

  /** For the non-negative ratios a torrent has, -1 means exactly "at or above
      the maximum", and adjusting twice changes nothing more. */
  lemma RatioSentinelUnambiguous(ratio: real)
    requires ratio >= 0.0
    ensures AdjustRatio(ratio) == -1.0 <==> ratio >= MAX_RATIO
    ensures AdjustRatio(AdjustRatio(ratio)) == AdjustRatio(ratio)
  {
  }

  /** Boundary values: at the maximum, just below it, and zero. */
  lemma RatioExamples()
    ensures AdjustRatio(MAX_RATIO) == -1.0
    ensures AdjustRatio(MAX_RATIO - 0.01) == MAX_RATIO - 0.01
    ensures AdjustRatio(0.0) == 0.0
  {
  }

  // ----- getLastActivityTime -----

  /** When the torrent was last active, in seconds since the epoch: its added
      time if it was never active, else the clock minus the time since. */
  function GetLastActivityTime(t: Torrent, env: Collaborators): (when: int)
    ensures t.timeSinceActivity < 0 ==> when == env.toSecsSinceEpoch(t.addedTime)
    ensures t.timeSinceActivity >= 0 ==> when <= env.currentSecsSinceEpoch
    ensures t.timeSinceActivity >= 0 ==> env.currentSecsSinceEpoch - when == t.timeSinceActivity
  {
    var timeSinceActivity := t.timeSinceActivity;
    if timeSinceActivity < 0
    then env.toSecsSinceEpoch(t.addedTime)
    else env.currentSecsSinceEpoch - timeSinceActivity
  }

  /** The longer a torrent has been idle, the earlier its last activity. */
  lemma LastActivityMonotone(t: Torrent, u: Torrent, env: Collaborators)
    requires 0 <= t.timeSinceActivity <= u.timeSinceActivity
    ensures GetLastActivityTime(u, env) <= GetLastActivityTime(t, env)
  {
  }

  /** With the clock after the epoch, a 64-bit idle time gives a 64-bit result:
      the subtraction cannot overflow `qlonglong`. */
  lemma LastActivityFitsInt64(t: Torrent, env: Collaborators)
    requires 0 <= env.currentSecsSinceEpoch < 0x8000_0000_0000_0000
    requires 0 <= t.timeSinceActivity < 0x8000_0000_0000_0000
    ensures -0x8000_0000_0000_0000 <= GetLastActivityTime(t, env) < 0x8000_0000_0000_0000
  {
  }

  // ----- the private flag -----

  /** The value stored under the private-flag key: the flag itself only once
      metadata is present, otherwise the null `QVariant()`, never `false`. */
  function PrivateFlag(hasMetadata: bool, isPrivate: bool): (v: Variant)
    ensures v == Invalid <==> !hasMetadata
    ensures v != Invalid ==> v == Bool(isPrivate)
  {
    if hasMetadata then Bool(isPrivate) else Invalid
  }

  // ----- serialize -----

  /** The value `serialize` inserts under key `k`, with `hasMetadata` the
      value it read once before the insertions. Only the `KEY_TORRENT_PRIVATE`
      value can be the null `QVariant()`, and only without metadata. The queue
      position is evaluated only when its key is selected, so only that key
      needs the position below `INT32_MAX`. */
  function FieldValue(t: Torrent, env: Collaborators, hasMetadata: bool, k: Key): (v: Variant)
    requires k == QueuePosition ==> t.queuePosition < INT32_MAX
    ensures v == Invalid <==> k == Private && !hasMetadata
  {
    if k == Id then Text(t.id)
    else if k == InfoHashV1 then Text(t.infoHashV1)
    else if k == InfoHashV2 then Text(t.infoHashV2)
    else if k == Name then Text(t.name)
    else if k == HasMetadata then Bool(hasMetadata)
    else if k == CreatedBy then Text(t.creator)
    else if k == CreationDate then Int(env.toSecsSinceEpoch(t.creationDate))
    else if k == Private then PrivateFlag(hasMetadata, t.isPrivate)
    else if k == TotalSize then Int(t.totalSize)
    else if k == PiecesNum then Int(t.piecesCount)
    else if k == PieceSize then Int(t.pieceLength)
    else if k == MagnetUri then Text(t.magnetUri)
    else if k == Size then Int(t.wantedSize)
    else if k == Progress then Float(t.progress)
    else if k == TotalWasted then Int(t.wastedSize)
    else if k == PiecesHave then Int(t.piecesHave)
    else if k == DlSpeed then Int(t.downloadPayloadRate)
    else if k == UpSpeed then Int(t.uploadPayloadRate)
    else if k == QueuePosition then Int(AdjustQueuePosition(t.queuePosition) as int)
    else if k == Seeds then Int(t.seedsCount)
    else if k == NumComplete then Int(t.totalSeedsCount)
    else if k == Leechs then Int(t.leechsCount)
    else if k == NumIncomplete then Int(t.totalLeechersCount)
    else if k == State then Text(StateToString(t.state))
    else if k == Eta then Int(t.eta)
    else if k == SequentialDownload then Bool(t.isSequentialDownload)
    else if k == FirstLastPiecePrio then Bool(t.hasFirstLastPiecePriority)
    else if k == Category then Text(t.category)
    else if k == Tags then Text(env.joinIntoString(t.tags, ", "))
    else if k == SuperSeeding then Bool(t.superSeeding)
    else if k == ForceStart then Bool(t.isForced)
    else if k == SavePath then Text(t.savePath)
    else if k == DownloadPath then Text(t.downloadPath)
    else if k == ContentPath then Text(t.contentPath)
    else if k == RootPath then Text(t.rootPath)
    else if k == AddedOn then Int(env.toSecsSinceEpoch(t.addedTime))
    else if k == CompletionOn then Int(env.toSecsSinceEpoch(t.completedTime))
    else if k == Tracker then Text(t.currentTracker)
    else if k == TrackersCount then Int(|t.trackers|)
    else if k == DlLimit then Int(t.downloadLimit)
    else if k == UpLimit then Int(t.uploadLimit)
    else if k == AmountDownloaded then Int(t.totalDownload)
    else if k == AmountUploaded then Int(t.totalUpload)
    else if k == AmountDownloadedSession then Int(t.totalPayloadDownload)
    else if k == AmountUploadedSession then Int(t.totalPayloadUpload)
    else if k == AmountLeft then Int(t.remainingSize)
    else if k == AmountCompleted then Int(t.completedSize)
    else if k == ConnectionsCount then Int(t.connectionsCount)
    else if k == ConnectionsLimit then Int(t.connectionsLimit)
    else if k == MaxRatio then Float(t.maxRatio)
    else if k == MaxSeedingTime then Int(t.maxSeedingTime)
    else if k == MaxInactiveSeedingTime then Int(t.maxInactiveSeedingTime)
    else if k == Ratio then Real(AdjustRatio(t.realRatio))
    else if k == RatioLimit then Float(t.ratioLimit)
    else if k == Popularity then Float(t.popularity)
    else if k == SeedingTimeLimit then Int(t.seedingTimeLimit)
    else if k == InactiveSeedingTimeLimit then Int(t.inactiveSeedingTimeLimit)
    else if k == LastSeenCompleteTime then Int(env.toSecsSinceEpoch(t.lastSeenComplete))
    else if k == AutoTorrentManagement then Bool(t.isAutoTMMEnabled)
    else if k == TimeActive then Int(t.activeTime)
    else if k == SeedingTime then Int(t.finishedTime)
    else if k == LastActivityTime then Int(GetLastActivityTime(t, env))
    else if k == Availability then Float(t.distributedCopies)
    else if k == Reannounce then Int(t.nextAnnounce)
    else Text(t.comment)
  }

  /** The map `serialize` returns: every selected schema key with its value. */
  function Projection(t: Torrent, env: Collaborators, fields: seq<FieldName>): map<Key, Variant>
    requires Selected(fields, QueuePosition) ==> t.queuePosition < INT32_MAX
  {
    map k | k in SelectedKeys(fields) :: FieldValue(t, env, t.hasMetadata, k)
  }

  /** `serialize(torrent, fields)`: visits the schema keys in source order and
      inserts each one that `INSERT_M`'s test selects. */
  method Serialize(t: Torrent, env: Collaborators, fields: seq<FieldName>) returns (result: map<Key, Variant>)
    requires Selected(fields, QueuePosition) ==> t.queuePosition < INT32_MAX
    ensures result.Keys == SelectedKeys(fields)
    ensures result == Projection(t, env, fields)
  {
    var hasMetadata := t.hasMetadata;
    var schema := Schema();
    result := map[];
    var i := 0;
    while i < |schema|
      invariant 0 <= i <= |schema|
      invariant result.Keys == set k | k in schema[..i] && Selected(fields, k)
      invariant forall k :: k in result ==> Selected(fields, k) && result[k] == FieldValue(t, env, hasMetadata, k)
    {
      var key := schema[i];
      if Selected(fields, key) {
        result := result[key := FieldValue(t, env, hasMetadata, key)];
      }
      assert schema[..i + 1] == schema[..i] + [key];
      i := i + 1;
    }
    assert schema[..i] == schema;
  }

  // ----- properties of the projection -----

  /** With no field list, every schema key is present. */
  lemma EmptyFieldsProjectEverything(t: Torrent, env: Collaborators, k: Key)
    requires t.queuePosition < INT32_MAX
    ensures k in Projection(t, env, [])
  {
    EmptySelectsAll(k);
  }

  /** With a non-empty field list, a key is present exactly when it is listed;
      listed names that are no key produce nothing and no error. */
  lemma ListedFieldsProjected(t: Torrent, env: Collaborators, fields: seq<FieldName>, k: Key)
    requires Selected(fields, QueuePosition) ==> t.queuePosition < INT32_MAX
    requires |fields| > 0
    ensures k in Projection(t, env, fields) <==> Named(k) in fields
  {
    ListedKeysSelected(fields, k);
  }

  /** A filtered projection is the full projection cut down to the selected
      keys: it never holds a key or a value the full one lacks. */
  lemma FilteredAgreesWithFull(t: Torrent, env: Collaborators, fields: seq<FieldName>)
    requires t.queuePosition < INT32_MAX
    ensures Projection(t, env, fields).Keys <= Projection(t, env, []).Keys
    ensures forall k :: k in Projection(t, env, fields) ==>
              Projection(t, env, fields)[k] == Projection(t, env, [])[k]
  {
    SelectionWithinFull(fields);
  }

  /** Listing every key by name gives the same map as listing none. */
  lemma ListingEveryKeyIsFull(t: Torrent, env: Collaborators, fields: seq<FieldName>)
    requires t.queuePosition < INT32_MAX
    requires forall k: Key :: Named(k) in fields
    ensures Projection(t, env, fields) == Projection(t, env, [])
  {
    assert Named(Id) in fields;
    forall k | k in Schema()
      ensures Selected(fields, k) == Selected([], k)
    {
    }
  }

  /** A projected key holds the value `serialize` computes for it. */
  lemma ProjectedValue(t: Torrent, env: Collaborators, fields: seq<FieldName>, k: Key)
    requires Selected(fields, QueuePosition) ==> t.queuePosition < INT32_MAX
    requires k in Projection(t, env, fields)
    ensures Projection(t, env, fields)[k] == FieldValue(t, env, t.hasMetadata, k)
  {
  }

  /** The arms of `FieldValue` for the derived keys, one at a time. */
  lemma DerivedValues(t: Torrent, env: Collaborators, h: bool, k: Key)
    requires k == QueuePosition ==> t.queuePosition < INT32_MAX
    ensures k == QueuePosition ==> FieldValue(t, env, h, k) == Int(AdjustQueuePosition(t.queuePosition) as int)
    ensures k == Ratio ==> FieldValue(t, env, h, k) == Real(AdjustRatio(t.realRatio))
    ensures k == State ==> FieldValue(t, env, h, k) == Text(StateToString(t.state))
    ensures k == LastActivityTime ==> FieldValue(t, env, h, k) == Int(GetLastActivityTime(t, env))
  {
  }

  /** The two metadata fields agree: the has-metadata value is the one that
      gates the private flag, which is null exactly when metadata is missing. */
  lemma MetadataGatesPrivateFlag(t: Torrent, env: Collaborators, fields: seq<FieldName>)
    requires Selected(fields, QueuePosition) ==> t.queuePosition < INT32_MAX
    requires HasMetadata in Projection(t, env, fields) && Private in Projection(t, env, fields)
    ensures Projection(t, env, fields)[HasMetadata] == Bool(t.hasMetadata)
    ensures Projection(t, env, fields)[Private] == Invalid <==> !t.hasMetadata
    ensures t.hasMetadata ==> Projection(t, env, fields)[Private] == Bool(t.isPrivate)
  {
    ProjectedValue(t, env, fields, HasMetadata);
    ProjectedValue(t, env, fields, Private);
  }

  /** The queue-position field is never negative, and 0 means "not queued". */
  lemma QueuePositionField(t: Torrent, env: Collaborators, fields: seq<FieldName>)
    requires Selected(fields, QueuePosition) ==> t.queuePosition < INT32_MAX
    requires QueuePosition in Projection(t, env, fields)
    ensures Projection(t, env, fields)[QueuePosition].Int?
    ensures Projection(t, env, fields)[QueuePosition].i >= 0
    ensures Projection(t, env, fields)[QueuePosition].i == 0 <==> t.queuePosition < 0
  {
    ProjectedValue(t, env, fields, QueuePosition);
    DerivedValues(t, env, t.hasMetadata, QueuePosition);
  }

  /** The ratio field is the raw ratio, or -1 once it reaches `MAX_RATIO`. */
  lemma RatioField(t: Torrent, env: Collaborators, fields: seq<FieldName>)
    requires Selected(fields, QueuePosition) ==> t.queuePosition < INT32_MAX
    requires Ratio in Projection(t, env, fields)
    ensures Projection(t, env, fields)[Ratio].Real?
    ensures Projection(t, env, fields)[Ratio].r < MAX_RATIO
    ensures Projection(t, env, fields)[Ratio].r == -1.0 || Projection(t, env, fields)[Ratio].r == t.realRatio
  {
    ProjectedValue(t, env, fields, Ratio);
    DerivedValues(t, env, t.hasMetadata, Ratio);
  }

  /** The state field is "unknown" exactly for a state outside the enumeration. */
  lemma StateField(t: Torrent, env: Collaborators, fields: seq<FieldName>)
    requires Selected(fields, QueuePosition) ==> t.queuePosition < INT32_MAX
    requires State in Projection(t, env, fields)
    ensures Projection(t, env, fields)[State].Text?
    ensures Projection(t, env, fields)[State].s == "unknown" <==> t.state == Unrecognized
  {
    ProjectedValue(t, env, fields, State);
    DerivedValues(t, env, t.hasMetadata, State);
  }

  /** The last-activity field never lies after the clock reading unless the
      torrent was never active, when it is the added time. */
  lemma LastActivityField(t: Torrent, env: Collaborators, fields: seq<FieldName>)
    requires Selected(fields, QueuePosition) ==> t.queuePosition < INT32_MAX
    requires LastActivityTime in Projection(t, env, fields)
    ensures Projection(t, env, fields)[LastActivityTime].Int?
    ensures t.timeSinceActivity >= 0 ==>
      Projection(t, env, fields)[LastActivityTime].i <= env.currentSecsSinceEpoch
    ensures t.timeSinceActivity < 0 ==>
      Projection(t, env, fields)[LastActivityTime].i == env.toSecsSinceEpoch(t.addedTime)
  {
    ProjectedValue(t, env, fields, LastActivityTime);
    DerivedValues(t, env, t.hasMetadata, LastActivityTime);
  }
}
