/** The few Qt value types the torrent serializer reads or produces. */
module Qt {
  /** A point in time as `QDateTime` holds it; only the date-time utility
      (`Utils::DateTime::toSecsSinceEpoch`) interprets one. */
  type DateTime

  /** A `qreal` (IEEE double) that the serializer copies without looking at it. */
  type Float64(==)

  /** The subset of `QVariant` the serializer stores in its result map.
      `Invalid` is the default-constructed `QVariant()`, the null marker.
      `Real` and `Float` are both a `QVariant` holding a `double`. `Real`
      carries a value the serializer compares (the share ratio), and `Float`
      one it passes through unexamined. */
  datatype Variant =
    | Invalid
    | Bool(b: bool)
    | Int(i: int)
    | Real(r: real)
    | Float(f: Float64)
    | Text(s: string)
}
