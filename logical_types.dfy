/**
 * Flink's logical types as far as the converters look at them: the type root, whether the type
 * object is a ClobType, which timestamp class it is (and then its precision), and its summary
 * string.
 */
module LogicalTypes {
  import opened Wrappers

  /** `LogicalTypeRoot`: the closed set of roots a Flink logical type can have. */
  datatype TypeRoot =
    | Char | VarChar | Boolean | Binary | VarBinary | Decimal
    | TinyInt | SmallInt | Integer | BigInt | Float | Double
    | Date | TimeWithoutTimeZone | TimestampWithoutTimeZone | TimestampWithTimeZone
    | TimestampWithLocalTimeZone | IntervalYearMonth | IntervalDayTime
    | Array | Multiset | Map | Row | DistinctType | StructuredType
    | Null | Raw | Symbol | Unresolved

  /** Which of Flink's timestamp classes the type object is, with its declared precision:
      `TimestampType`, `ZonedTimestampType` and `LocalZonedTimestampType` are three unrelated
      classes. */
  datatype TimestampClass =
    | NoTimestampClass
    | TimestampType(precision: nat)
    | ZonedTimestampType(precision: nat)
    | LocalZonedTimestampType(precision: nat)

  /** One field's logical type. `isClob` stands for `type instanceof ClobType`; `summary` is
      what `asSummaryString()` / `toString()` print. */
  datatype LogicalType = LogicalType(
    root: TypeRoot,
    isClob: bool,
    timestampClass: TimestampClass,
    summary: string)

  /** The types Flink builds: each timestamp root belongs to exactly one timestamp class. */
  predicate WellFormed(t: LogicalType) {
    (t.root == TimestampWithoutTimeZone <==> t.timestampClass.TimestampType?) &&
    (t.root == TimestampWithTimeZone <==> t.timestampClass.ZonedTimestampType?) &&
    (t.root == TimestampWithLocalTimeZone <==> t.timestampClass.LocalZonedTimestampType?)
  }

  /** `((TimestampType) type).getPrecision()`: the precision when the cast succeeds. */
  function CastToTimestampType(t: LogicalType): (p: Option<nat>)
    ensures p.Some? <==> t.timestampClass.TimestampType?
    ensures p.Some? ==> p.value == t.timestampClass.precision
  {
    if t.timestampClass.TimestampType? then Some(t.timestampClass.precision) else None
  }

  /** The declared precision of a timestamp with or without time zone, whichever class holds it. */
  function DeclaredTimestampPrecision(t: LogicalType): (p: Option<nat>)
    ensures p.Some? <==> t.timestampClass.TimestampType? || t.timestampClass.ZonedTimestampType?
    ensures p.Some? ==> p.value == t.timestampClass.precision
  {
    match t.timestampClass
    case TimestampType(precision) => Some(precision)
    case ZonedTimestampType(precision) => Some(precision)
    case _ => None
  }
}
