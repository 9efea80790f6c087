/**
 * `IntColumn`: an immutable column holding a Java `int`, with a size hint that depends on how
 * it was built, an exact decimal view and no byte-array view.
 */
module IntColumns {
  import opened Wrappers
  import opened JavaLang
  import opened Columns

  datatype IntColumn = IntColumn(data: int32, byteSize: int)

  /** `IntColumn(int data)`: delegates with size hint 4 (the width of an int in bytes). */
  function NewIntColumn(data: int32): (c: IntColumn)
    ensures c.data == data && c.byteSize == 4
  {
    IntColumn(data, 4)
  }

  /** `from(int data)`: a new column holding `data` with size hint 0; the receiver is a value and
      is not changed. */
  function From(receiver: IntColumn, data: int32): (c: IntColumn)
    ensures c.data == data && c.byteSize == 0
  {
    IntColumn(data, 0)
  }

  /** `asStringInternal`, inherited from NumericColumn: the decimal rendering of the value. */
  function AsStringInternal(c: IntColumn): (s: string)
    ensures ParseDecimal(s) == c.data as int
  {
    ParseDecimalOfDecimalString(c.data as int);
    DecimalString(c.data as int)
  }

  /** `asBytesInternal`: always fails; the exception names "float" (not "int") as the source
      kind, "byte[]" as the target and carries the column's string form. */
  function AsBytesInternal(c: IntColumn): (r: Result<seq<byte>, CastException>)
    ensures r.Failure?
    ensures r.error.fromKind == "float" && r.error.toKind == "byte[]"
    ensures ParseDecimal(r.error.value) == c.data as int
  {
    Failure(CastException("float", "byte[]", AsStringInternal(c)))
  }

  /** `asBigDecimalInternal`: `new BigDecimal((int) data)`, exact. */
  function AsBigDecimalInternal(c: IntColumn): (d: BigDecimal)
    ensures DecimalValue(d) == c.data as real
  {
    DecimalOfInt(c.data as int)
  }

  /** The byte view fails for every column, whatever its value or size hint; two columns fail
      with the same exception exactly when they hold the same value. */
  lemma BytesViewNeverSucceeds(c: IntColumn, d: IntColumn)
    ensures AsBytesInternal(c).Failure? && AsBytesInternal(d).Failure?
    ensures AsBytesInternal(c) == AsBytesInternal(d) <==> c.data == d.data
  {
    if AsBytesInternal(c) == AsBytesInternal(d) {
      DecimalStringInjective(c.data as int, d.data as int);
    }
  }

  /** `IntColumn(42)`'s byte view fails with ("float", "byte[]", "42"). */
  lemma BytesViewOf42()
    ensures AsBytesInternal(NewIntColumn(42)) == Failure(CastException("float", "byte[]", "42"))
  {
    assert Digits(4) == "4" && DigitChar(2) == '2';
    assert Digits(42) == Digits(4) + [DigitChar(2)] == "42";
    assert DecimalString(42) == "42";
  }

  /** The size hint records which constructor was used; `from` keeps nothing of its receiver. */
  lemma SizeHintByConstructor(data: int32, receiver: IntColumn)
    ensures NewIntColumn(data).byteSize != From(receiver, data).byteSize
    ensures From(receiver, data) == From(NewIntColumn(data), data)
    ensures AsBigDecimalInternal(From(receiver, data)) == AsBigDecimalInternal(NewIntColumn(data))
  {
  }
}
