# qBittorrent Web API torrent serializer

This project models qBittorrent's per-torrent field projector, `serialize` in
`src/webui/api/serialize/serialize_torrent.cpp`. The function takes a torrent
and a caller's list of field names. It returns a map from `KEY_TORRENT_*` names
to values. An empty list selects every field. A non-empty list selects exactly
the listed names, and names that match no key are silently ignored. On the way,
the projector applies a few value adjustments:

- a 1-based queue position, with 0 for a torrent that is not queued;
- a share ratio of -1 once it reaches `MAX_RATIO`;
- a last-activity time computed from the idle time;
- a lifecycle state rendered as a fixed string token;
- a private flag that is the null value until metadata is present.

Modules:

- `Qt` (`qt.dfy`): the value types the serializer stores. `Variant` stands for
  `QVariant`, and `DateTime` and `Float64` are opaque stand-ins for
  `QDateTime` and `qreal`.
- `BitTorrent` (`bittorrent.dfy`): the `TorrentState` enumeration, a 32-bit
  `int32`, and `Torrent`, a snapshot of every accessor `serialize` reads.
- `TorrentKeys` (`torrent_keys.dfy`): the 65 keys are numbered in the order the
  `INSERT_M` lines insert them. The module holds the canonical schema, the
  caller's field names, and the selection test `INSERT_M` applies.
- `SerializeTorrent` (`serialize_torrent.dfy`):
  - `StateToString` and the three adjustment lambdas, as functions.
  - The private-flag gate.
  - `FieldValue`, the value inserted per key.
  - `Projection`, the specification of the result.
  - `Serialize`, a method that walks the schema and inserts the selected keys
    one at a time into a map. It is proved to return `Projection`.

Besides the torrent's accessors, `serialize` calls three things from outside this file:
`Utils::DateTime::toSecsSinceEpoch`, `Utils::String::joinIntoString` and
`QDateTime::currentSecsSinceEpoch()`. They are passed in as a `Collaborators`
record of two functions and one clock reading. The model therefore holds for
any behaviour of them. The clock is read once per call.

`serialize` returns a `QVariantMap`, which is a `QMap` ordered by key string,
so the order of insertion is not observable. The model returns a `map`. The
schema order only fixes the order in which `Serialize` visits the keys.

## Model

| member | source | states |
|---|---|---|
| SerializeTorrent.StateToString | src/webui/api/serialize/serialize_torrent.cpp:44-87 | Each of the 18 states has its own non-empty token; "unknown" is returned exactly for a value outside the enumeration (the `default:` arm) |
| SerializeTorrent.StateTokensDistinct | src/webui/api/serialize/serialize_torrent.cpp:44-87 | Distinct states map to distinct tokens, so the token identifies the state |
| SerializeTorrent.AdjustQueuePosition | src/webui/api/serialize/serialize_torrent.cpp:92-95 | The shown position is never negative; it is 0 exactly for a negative (not queued) position, and otherwise it is the position plus one |
| SerializeTorrent.QueueOrderPreserved | src/webui/api/serialize/serialize_torrent.cpp:92-95 | Queued torrents keep their relative order, and all of them are shown with positions above 0 |
| SerializeTorrent.QueuePositionExamples | src/webui/api/serialize/serialize_torrent.cpp:92-95 | -1 becomes 0, 0 becomes 1, 5 becomes 6 |
| SerializeTorrent.AdjustRatio | src/webui/api/serialize/serialize_torrent.cpp:97-100 | The result is either the ratio itself or -1, and always below `MAX_RATIO`; it is -1 exactly when the ratio is at or above `MAX_RATIO` |
| SerializeTorrent.RatioSentinelUnambiguous | src/webui/api/serialize/serialize_torrent.cpp:97-100 | For a non-negative ratio, -1 means exactly "at or above the maximum"; adjusting a second time changes nothing |
| SerializeTorrent.RatioExamples | src/webui/api/serialize/serialize_torrent.cpp:97-100 | `MAX_RATIO` becomes -1, while `MAX_RATIO - 0.01` and 0 are unchanged |
| SerializeTorrent.GetLastActivityTime | src/webui/api/serialize/serialize_torrent.cpp:102-108 | A never-active torrent (negative idle time) reports its added time; otherwise the result is the clock reading minus the idle time, so it is never after the clock |
| SerializeTorrent.LastActivityMonotone | src/webui/api/serialize/serialize_torrent.cpp:102-108 | Under one clock reading, a longer idle time gives an earlier or equal last-activity time |
| SerializeTorrent.LastActivityFitsInt64 | src/webui/api/serialize/serialize_torrent.cpp:102-108 | With a non-negative clock and a non-negative 64-bit idle time, the `qlonglong` subtraction stays within 64 bits |
| SerializeTorrent.PrivateFlag | src/webui/api/serialize/serialize_torrent.cpp:124 | The private field is the null `QVariant()` exactly when metadata is missing, and otherwise it is the torrent's private flag |
| SerializeTorrent.FieldValue | src/webui/api/serialize/serialize_torrent.cpp:110-184 | The value inserted under each of the 65 keys (lines 116-184). Only the private-flag key can hold the null `QVariant()`, and it does so exactly when metadata is missing |
| TorrentKeys.Selected | src/webui/api/serialize/serialize_torrent.cpp:114 | `INSERT_M`'s test: a key is selected when the field list is empty or lists its name |
| TorrentKeys.SelectedKeys | src/webui/api/serialize/serialize_torrent.cpp:114-184 | The schema keys that pass `INSERT_M`'s test, which is the key set of the result |
| SerializeTorrent.Projection | src/webui/api/serialize/serialize_torrent.cpp:110-185 | The result `serialize` specifies: each selected key mapped to its `FieldValue`, with has-metadata read from the torrent |
| SerializeTorrent.Serialize | src/webui/api/serialize/serialize_torrent.cpp:90-186 | The returned map's keys are exactly the selected schema keys, and every value is the one `serialize` inserts for that key, with has-metadata read once |
| SerializeTorrent.EmptyFieldsProjectEverything | src/webui/api/serialize/serialize_torrent.cpp:114 | With an empty field list, every key is present in the projection |
| SerializeTorrent.ListedFieldsProjected | src/webui/api/serialize/serialize_torrent.cpp:114 | With a non-empty field list, a key is present if and only if its name is listed |
| SerializeTorrent.FilteredAgreesWithFull | src/webui/api/serialize/serialize_torrent.cpp:114-184 | A filtered projection is part of the full projection: its keys are a subset, and it has the same value at each key |
| SerializeTorrent.ListingEveryKeyIsFull | src/webui/api/serialize/serialize_torrent.cpp:114 | Listing every key by name gives the same map as an empty list |
| SerializeTorrent.MetadataGatesPrivateFlag | src/webui/api/serialize/serialize_torrent.cpp:110-124 | In one result, the has-metadata field and the private field agree: private is null exactly when has-metadata is false, and otherwise it is the flag |
| SerializeTorrent.QueuePositionField | src/webui/api/serialize/serialize_torrent.cpp:136 | The queue-position field is an integer, never negative, and 0 exactly for a torrent that is not queued |
| SerializeTorrent.RatioField | src/webui/api/serialize/serialize_torrent.cpp:172 | The ratio field is a real below `MAX_RATIO`, and it is either the raw ratio or -1 |
| SerializeTorrent.StateField | src/webui/api/serialize/serialize_torrent.cpp:142 | The state field is text, and it is "unknown" exactly for an unrecognised state |
| SerializeTorrent.LastActivityField | src/webui/api/serialize/serialize_torrent.cpp:181 | The last-activity field is an integer: the added time for a never-active torrent, and otherwise no later than the clock |
| TorrentKeys.Schema | src/webui/api/serialize/serialize_torrent.cpp:116-184 | The schema lists 65 keys, in insertion order |
| TorrentKeys.InSchema | src/webui/api/serialize/serialize_torrent.cpp:116-184 | Every key occurs in the schema, at the position of its `INSERT_M` line |
| TorrentKeys.SchemaDistinct | src/webui/api/serialize/serialize_torrent.cpp:116-184 | No key is inserted twice |
| TorrentKeys.FullSelectionSize | src/webui/api/serialize/serialize_torrent.cpp:116-184 | The full selection has exactly 65 keys |
| TorrentKeys.EmptySelectsAll | src/webui/api/serialize/serialize_torrent.cpp:114 | With an empty field list, every key is selected |
| TorrentKeys.ListedKeysSelected | src/webui/api/serialize/serialize_torrent.cpp:114 | With a non-empty list, a key is selected if and only if its name is listed |
| TorrentKeys.SelectionWithinFull | src/webui/api/serialize/serialize_torrent.cpp:114 | Every selection is a subset of the full selection |
| TorrentKeys.UnrecognisedIgnored | src/webui/api/serialize/serialize_torrent.cpp:114 | Appending names that match no key to a non-empty list changes nothing, and raises no error |
| TorrentKeys.OnlyUnrecognisedSelectsNothing | src/webui/api/serialize/serialize_torrent.cpp:114 | A non-empty list of only unknown names selects nothing; it is not treated like the empty list |
| TorrentKeys.SelectionIgnoresOrder | src/webui/api/serialize/serialize_torrent.cpp:114 | Two lists with the same members select the same keys, whatever their order or repetitions |

## Left out

- `BinaryController::dumpAction` (`src/webui/api/binarycontroller.cpp`) is not modelled. It is transport plumbing: it fetches the session singleton, serializes each torrent, and discards each result rather than appending it to the returned buffer.
- The concrete strings behind the `KEY_TORRENT_*` names are left out, because serialize_torrent.h is not part of this model. Keys are numbers 0 to 64 in insertion order, which the model uses only for their distinctness. Caller names are pre-classified as a key's name or as an unknown name (`FieldName`).
- The value of `BitTorrent::Torrent::MAX_RATIO` comes from a file that is not part of this model. The model uses 9999.
- `Utils::DateTime::toSecsSinceEpoch`, `Utils::String::joinIntoString` and `QDateTime::currentSecsSinceEpoch()` are taken as parameters, not modelled. Since `joinIntoString` is not modelled, the text of the tags field is not proved.
- The torrent accessors and the conversions applied to their results are not modelled. These are the `toString()` of the ID, the info hashes and the paths, and `createMagnetURI`. Each is a snapshot field holding the converted value.
- Floating-point values (`qreal` progress, popularity, availability, ratio limits) are opaque and pass through unchanged. Only the share ratio is modelled as a `real`, since it is compared with `MAX_RATIO`. IEEE-754 rounding and NaN are not modelled.
- Integer accessors are unbounded `int`s. `QVariant`'s distinction between int, qlonglong and qint64 is merged into one `Int` case. The queue position is the only value modelled at its C++ width, a 32-bit `int32`. The 64-bit subtraction in the last-activity time is not modelled at its width; `LastActivityFitsInt64` proves it stays within 64 bits.
- `QVariantMap`'s ordering by key string is not modelled; the result is an unordered `map`.
- Accessors of the torrent (`torrent.name()` and the rest) are snapshot fields read by value. Concurrent changes to the torrent while it is serialized are not modelled.
- The tracker list is abstract (`TrackerEntry`). Only its length is used.
- AdjustQueuePosition: requires the position to be below `INT32_MAX`. At `INT32_MAX` the C++ `position + 1` overflows a signed int, which is undefined behaviour. `FieldValue` requires the same bound only for the queue-position key. `Projection` and `Serialize` require it only when that key is selected, since `INSERT_M` evaluates a value only for a selected key.
