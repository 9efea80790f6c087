/**
 * The canonical cell values produced by the reader-side converters, and the one failure kind
 * of a column conversion.
 */
module Columns {
  import opened JavaLang

  type byte = bv8

  /** `java.math.BigDecimal`: the value is unscaled * 10^(-scale). */
  datatype BigDecimal = BigDecimal(unscaled: int, scale: int)

  function Pow10(k: nat): (p: nat)
    ensures p >= 1
  {
    if k == 0 then 1 else 10 * Pow10(k - 1)
  }

  /** The exact number a BigDecimal denotes. */
  function DecimalValue(d: BigDecimal): real {
    if d.scale >= 0 then d.unscaled as real / Pow10(d.scale) as real
    else (d.unscaled * Pow10(-d.scale)) as real
  }

  /** `new BigDecimal(long)`: the integer itself, at scale zero. */
  function DecimalOfInt(i: int): (d: BigDecimal)
    ensures DecimalValue(d) == i as real
  {
    BigDecimal(i, 0)
  }

  /** Floating-point values are carried as their IEEE 754 bit patterns and never interpreted. */
  datatype Float32 = Float32(bits: bv32)
  datatype Float64 = Float64(bits: bv64)

  /** `java.sql.Date`, `java.sql.Time`, `java.sql.Timestamp`: opaque instants. */
  datatype SqlDate = SqlDate(epochMillis: int)
  datatype SqlTime = SqlTime(epochMillis: int)
  datatype SqlTimestamp = SqlTimestamp(epochMillis: int, nanos: nat)

  /** What a BigDecimalColumn holds: an exact decimal, or a floating-point value converted by
      BigDecimalColumn's own constructor (not interpreted here). */
  datatype NumericValue = Exact(decimal: BigDecimal) | FromFloat(f: Float32) | FromDouble(d: Float64)

  /** The column variants the Saphana reader produces. */
  datatype ColumnValue =
    | BooleanColumn(b: bool)
    | BigDecimalColumn(n: NumericValue)
    | StringColumn(s: string)
    | SqlDateColumn(date: SqlDate)
    | TimeColumn(time: SqlTime)
    | TimestampColumn(timestamp: SqlTimestamp, precision: int)
    | BytesColumn(bytes: seq<byte>)

  /** `CastException(fromKind, toKind, value)`: a column cannot be viewed as the requested kind. */
  datatype CastException = CastException(fromKind: string, toKind: string, value: string)
}
