/** The serializer's field schema: the `KEY_TORRENT_*` names, the canonical
    order in which `serialize` inserts them, and the caller's field selector. */
module TorrentKeys {

  /** One `KEY_TORRENT_*` name, numbered by the `INSERT_M` line that inserts
      it: 0 for the first, 64 for the last. The strings the names stand for are
      defined in serialize_torrent.h, which is not part of this model; the model
      relies only on their being distinct, which distinct numbers give. */
  newtype Key = i: int | 0 <= i < 65

  const Id: Key := 0
  const InfoHashV1: Key := 1
  const InfoHashV2: Key := 2
  const Name: Key := 3
  const HasMetadata: Key := 4
  const CreatedBy: Key := 5
  const CreationDate: Key := 6
  const Private: Key := 7
  const TotalSize: Key := 8
  const PiecesNum: Key := 9
  const PieceSize: Key := 10
  const MagnetUri: Key := 11
  const Size: Key := 12
  const Progress: Key := 13
  const TotalWasted: Key := 14
  const PiecesHave: Key := 15
  const DlSpeed: Key := 16
  const UpSpeed: Key := 17
  const QueuePosition: Key := 18
  const Seeds: Key := 19
  const NumComplete: Key := 20
  const Leechs: Key := 21
  const NumIncomplete: Key := 22
  const State: Key := 23
  const Eta: Key := 24
  const SequentialDownload: Key := 25
  const FirstLastPiecePrio: Key := 26
  const Category: Key := 27
  const Tags: Key := 28
  const SuperSeeding: Key := 29
  const ForceStart: Key := 30
  const SavePath: Key := 31
  const DownloadPath: Key := 32
  const ContentPath: Key := 33
  const RootPath: Key := 34
  const AddedOn: Key := 35
  const CompletionOn: Key := 36
  const Tracker: Key := 37
  const TrackersCount: Key := 38
  const DlLimit: Key := 39
  const UpLimit: Key := 40
  const AmountDownloaded: Key := 41
  const AmountUploaded: Key := 42
  const AmountDownloadedSession: Key := 43
  const AmountUploadedSession: Key := 44
  const AmountLeft: Key := 45
  const AmountCompleted: Key := 46
  const ConnectionsCount: Key := 47
  const ConnectionsLimit: Key := 48
  const MaxRatio: Key := 49
  const MaxSeedingTime: Key := 50
  const MaxInactiveSeedingTime: Key := 51
  const Ratio: Key := 52
  const RatioLimit: Key := 53
  const Popularity: Key := 54
  const SeedingTimeLimit: Key := 55
  const InactiveSeedingTimeLimit: Key := 56
  const LastSeenCompleteTime: Key := 57
  const AutoTorrentManagement: Key := 58
  const TimeActive: Key := 59
  const SeedingTime: Key := 60
  const LastActivityTime: Key := 61
  const Availability: Key := 62
  const Reannounce: Key := 63
  const Comment: Key := 64

  /** The canonical field order: all 65 keys, each once, as `serialize` visits them. */
  function Schema(): (s: seq<Key>)
    ensures |s| == 65
  {
    seq(65, i requires 0 <= i < 65 => i as Key)
  }

  /** Every key occurs in the schema, at its own number. */
  lemma InSchema(k: Key)
    ensures Schema()[k] == k && k in Schema()
  {
    assert Schema()[k] == k;
  }

  /** No key occurs twice in the schema. */
  lemma SchemaDistinct(i: nat, j: nat)
    requires i < j < |Schema()|
    ensures Schema()[i] != Schema()[j]
  {
  }

  /** An entry of the caller's `fields` list: the name of a schema key, or a
      string that names none of them. */
  datatype FieldName = Named(key: Key) | Unrecognised(text: string)

  /** The test `INSERT_M` applies before each insertion: an empty list
      selects everything, otherwise the key's own name must be listed. */
  predicate Selected(fields: seq<FieldName>, k: Key)
  {
    |fields| == 0 || Named(k) in fields
  }

  /** The key set the serializer's result is specified to have. */
  function SelectedKeys(fields: seq<FieldName>): set<Key>
  {
    set k | k in Schema() && Selected(fields, k)
  }

  /** With no field list every key is selected. */
  lemma EmptySelectsAll(k: Key)
    ensures k in SelectedKeys([])
  {
    InSchema(k);
    assert k in Schema();
  }

  /** With a non-empty field list exactly the listed keys are selected. */
  lemma ListedKeysSelected(fields: seq<FieldName>, k: Key)
    requires |fields| > 0
    ensures k in SelectedKeys(fields) <==> Named(k) in fields
  {
    InSchema(k);
    assert k in Schema();
  }

  /** Whatever the field list, the selection is part of the full schema. */
  lemma SelectionWithinFull(fields: seq<FieldName>)
    ensures SelectedKeys(fields) <= SelectedKeys([])
  {
  }

  /** Names that are not schema keys change nothing in a non-empty list. */
  lemma UnrecognisedIgnored(fields: seq<FieldName>, extra: seq<FieldName>)
    requires |fields| > 0
    requires forall i :: 0 <= i < |extra| ==> extra[i].Unrecognised?
    ensures SelectedKeys(fields + extra) == SelectedKeys(fields)
  {
    forall k | k in Schema()
      ensures Named(k) in fields + extra <==> Named(k) in fields
    {
      assert forall i :: |fields| <= i < |fields + extra| ==> (fields + extra)[i] == extra[i - |fields|];
    }
  }

  /** A non-empty list of unknown names selects nothing at all: it is not
      treated as the empty list. */
  lemma OnlyUnrecognisedSelectsNothing(fields: seq<FieldName>)
    requires |fields| > 0
    requires forall i :: 0 <= i < |fields| ==> fields[i].Unrecognised?
    ensures SelectedKeys(fields) == {}
  {
  }

  /** Only membership in the field list matters, not order or repetition. */
  lemma SelectionIgnoresOrder(fields: seq<FieldName>, others: seq<FieldName>)
    requires forall n :: n in fields <==> n in others
    ensures SelectedKeys(fields) == SelectedKeys(others)
  {
    if |fields| > 0 {
      assert fields[0] in others;
    }
    if |others| > 0 {
      assert others[0] in fields;
    }
  }

  /** A sequence without repeated items has as many distinct items as entries. */
  lemma {:induction false} DistinctItemsCount<T>(s: seq<T>)
    requires forall i, j :: 0 <= i < j < |s| ==> s[i] != s[j]
    ensures |set x | x in s| == |s|
  {
    if |s| > 0 {
      var init := s[..|s| - 1];
      DistinctItemsCount(init);
      assert (set x | x in s) == (set x | x in init) + {s[|s| - 1]};
      assert s[|s| - 1] !in init;
    }
  }

  /** The full projection has one entry per schema key: 65 of them. */
  lemma FullSelectionSize()
    ensures |SelectedKeys([])| == 65
  {
    forall i, j | 0 <= i < j < |Schema()|
      ensures Schema()[i] != Schema()[j]
    {
      SchemaDistinct(i, j);
    }
    DistinctItemsCount(Schema());
    assert SelectedKeys([]) == set x | x in Schema();
  }
}
