/**
 * `SaphanaColumnConverter`: for one field index the logical type root is matched once and
 * yields a reader-side converter (JDBC result set to column value) and a writer-side converter
 * (column row to one typed statement setter). An unsupported root fails when the converter is
 * created, never per row.
 *
 * The converters are represented by the kind of closure the dispatch returns; applying a kind
 * to a row is what the closure does at row time.
 */
module SaphanaConverter {
  import opened Wrappers
  import opened JavaLang
  import opened Columns
  import opened LogicalTypes
  import opened ClobText

  /** `UnsupportedOperationException("Unsupported type:" + type)`. */
  datatype Unsupported = Unsupported(message: string)

  function UnsupportedType(t: LogicalType): Unsupported {
    Unsupported("Unsupported type:" + t.summary)
  }

  // ---------------------------------------------------------------- reader side

  /** The object `getObject` returns for a CLOB-typed column: a `HanaClob`, whose character
      stream reads as the given lines, any other object, or null for SQL NULL. */
  datatype SqlObject = HanaClob(lines: seq<string>) | OtherObject | NullObject

  /** What each typed getter of the result set answers at one position. */
  datatype ResultSetCell = ResultSetCell(
    getBoolean: bool,
    getByte: int8,
    getShort: int16,
    getInt: int32,
    getFloat: Float32,
    getDouble: Float64,
    getLong: int64,
    getBigDecimal: BigDecimal,
    getObject: SqlObject,
    getString: string,
    getDate: SqlDate,
    getTime: SqlTime,
    getTimestamp: SqlTimestamp,
    getBytes: seq<byte>)

  /** The result set positioned on one row: JDBC column c, counted from 1, is `rs[c - 1]`. */
  type ResultSet = seq<ResultSetCell>

  /** Row-time failures of a reader: a column number the result set does not have, a failing
      Java cast (`(HanaClob) val`, `(TimestampType) type`), or the null dereference
      `clob.getCharacterStream()` of a NULL CLOB. */
  datatype ReadError = InvalidColumnIndex(column: int) | ClassCast(target: string) | NullPointer

  /** The closure `createInternalConverter` returns, by the case that built it. A timestamp
      reader holds the precision it reads from the field's type, or `None` when that read fails
      its cast. */
  datatype ReaderKind =
    | ReadBoolean | ReadTinyInt | ReadSmallInt | ReadInteger | ReadFloat | ReadDouble
    | ReadBigInt | ReadDecimal
    | ReadText(isClob: bool)
    | ReadDate | ReadTime
    | ReadTimestamp(timestampPrecision: Option<nat>)
    | ReadBinary

  /** The roots the reader side handles. */
  predicate ReaderSupports(root: TypeRoot) {
    root in {Boolean, TinyInt, SmallInt, Integer, Float, Double, BigInt, Decimal,
             Char, VarChar, Date, TimeWithoutTimeZone,
             TimestampWithTimeZone, TimestampWithoutTimeZone, Binary, VarBinary}
  }

  /** `createInternalConverter`: a converter for exactly the supported roots, otherwise the
      unsupported-type failure, decided when the converter is created. A timestamp reader takes
      the declared precision of a timestamp with or without time zone. */
  function CreateInternalConverter(t: LogicalType): (r: Result<ReaderKind, Unsupported>)
    ensures r.Success? <==> ReaderSupports(t.root)
    ensures r.Failure? ==> r.error == UnsupportedType(t)
    ensures r.Success? && r.value.ReadText? ==> r.value.isClob == t.isClob
    ensures r.Success? && r.value.ReadTimestamp? ==> r.value.timestampPrecision == DeclaredTimestampPrecision(t)
  {
    match t.root
    case Boolean => Success(ReadBoolean)
    case TinyInt => Success(ReadTinyInt)
    case SmallInt => Success(ReadSmallInt)
    case Integer => Success(ReadInteger)
    case Float => Success(ReadFloat)
    case Double => Success(ReadDouble)
    case BigInt => Success(ReadBigInt)
    case Decimal => Success(ReadDecimal)
    case Char => Success(ReadText(t.isClob))
    case VarChar => Success(ReadText(t.isClob))
    case Date => Success(ReadDate)
    case TimeWithoutTimeZone => Success(ReadTime)
    case TimestampWithTimeZone => Success(ReadTimestamp(DeclaredTimestampPrecision(t)))
    case TimestampWithoutTimeZone => Success(ReadTimestamp(DeclaredTimestampPrecision(t)))
    case Binary => Success(ReadBinary)
    case VarBinary => Success(ReadBinary)
    case _ => Failure(UnsupportedType(t))
  }

  /** The timestamp reader whose type cast fails: it fails before touching the result set. */
  predicate CastFailsFirst(k: ReaderKind) {
    k.ReadTimestamp? && k.timestampPrecision.None?
  }

  /** The value each reader takes from the cell: the getter's answer itself, as an exact
      decimal for the integral getters, or the CLOB's lines joined. */
  predicate CarriesGetterValue(k: ReaderKind, cell: ResultSetCell, c: ColumnValue) {
    match k
    case ReadBoolean => c.BooleanColumn? && c.b == cell.getBoolean
    case ReadTinyInt => c.BigDecimalColumn? && c.n.Exact? && DecimalValue(c.n.decimal) == cell.getByte as real
    case ReadSmallInt => c.BigDecimalColumn? && c.n.Exact? && DecimalValue(c.n.decimal) == cell.getShort as real
    case ReadInteger => c.BigDecimalColumn? && c.n.Exact? && DecimalValue(c.n.decimal) == cell.getInt as real
    case ReadFloat => c.BigDecimalColumn? && c.n == FromFloat(cell.getFloat)
    case ReadDouble => c.BigDecimalColumn? && c.n == FromDouble(cell.getDouble)
    case ReadBigInt => c.BigDecimalColumn? && c.n.Exact? && DecimalValue(c.n.decimal) == cell.getLong as real
    case ReadDecimal => c.BigDecimalColumn? && c.n == Exact(cell.getBigDecimal)
    case ReadText(isClob) =>
      c.StringColumn? &&
      (if isClob then cell.getObject.HanaClob? && c.s == JoinLines(cell.getObject.lines)
       else c.s == cell.getString)
    case ReadDate => c.SqlDateColumn? && c.date == cell.getDate
    case ReadTime => c.TimeColumn? && c.time == cell.getTime
    case ReadTimestamp(p) => c.TimestampColumn? && c.timestamp == cell.getTimestamp && p.Some? && c.precision == p.value
    case ReadBinary => c.BytesColumn? && c.bytes == cell.getBytes
  }

  /** A reader's getters applied to one column of the result set. */
  function ReadCell(k: ReaderKind, cell: ResultSetCell): (r: Result<ColumnValue, ReadError>)
    ensures r.Failure? <==> CastFailsFirst(k) || (k == ReadText(true) && !cell.getObject.HanaClob?)
    ensures r.Failure? ==> (r.error.NullPointer? <==> k == ReadText(true) && cell.getObject.NullObject?)
    ensures r.Failure? && !r.error.NullPointer? ==> r.error.ClassCast?
    ensures r.Success? ==> CarriesGetterValue(k, cell, r.value)
  {
    match k
    case ReadBoolean => Success(BooleanColumn(cell.getBoolean))
    case ReadTinyInt => Success(BigDecimalColumn(Exact(DecimalOfInt(cell.getByte as int))))
    case ReadSmallInt => Success(BigDecimalColumn(Exact(DecimalOfInt(cell.getShort as int))))
    case ReadInteger => Success(BigDecimalColumn(Exact(DecimalOfInt(cell.getInt as int))))
    case ReadFloat => Success(BigDecimalColumn(FromFloat(cell.getFloat)))
    case ReadDouble => Success(BigDecimalColumn(FromDouble(cell.getDouble)))
    case ReadBigInt => Success(BigDecimalColumn(Exact(DecimalOfInt(cell.getLong as int))))
    case ReadDecimal => Success(BigDecimalColumn(Exact(cell.getBigDecimal)))
    case ReadText(isClob) =>
      if isClob then
        match cell.getObject
        case HanaClob(lines) => Success(StringColumn(JoinLines(lines)))
        case OtherObject => Failure(ClassCast("HanaClob"))
        case NullObject => Failure(NullPointer)
      else Success(StringColumn(cell.getString))
    case ReadDate => Success(SqlDateColumn(cell.getDate))
    case ReadTime => Success(TimeColumn(cell.getTime))
    case ReadTimestamp(p) =>
      if p.None? then Failure(ClassCast("TimestampType"))
      else Success(TimestampColumn(cell.getTimestamp, p.value))
    case ReadBinary => Success(BytesColumn(cell.getBytes))
  }

  /** A reader applied as the closure is written: its getters are called with the JDBC column
      number `column`, counted from 1. A failing timestamp cast comes first; otherwise a column
      number the result set lacks fails before any cast. */
  function ReadColumn(k: ReaderKind, rs: ResultSet, column: int): (r: Result<ColumnValue, ReadError>)
    ensures CastFailsFirst(k) ==> r == Failure(ClassCast("TimestampType"))
    ensures !CastFailsFirst(k) && !(1 <= column <= |rs|) ==> r == Failure(InvalidColumnIndex(column))
    ensures 1 <= column <= |rs| ==> r == ReadCell(k, rs[column - 1])
  {
    if CastFailsFirst(k) then Failure(ClassCast("TimestampType"))
    else if !(1 <= column <= |rs|) then Failure(InvalidColumnIndex(column))
    else ReadCell(k, rs[column - 1])
  }

  /** The reader of field `index` (counted from 0, as the row type counts) reads JDBC column
      `index + 1`, the column that holds that field. */
  function ReadField(k: ReaderKind, rs: ResultSet, index: int): (r: Result<ColumnValue, ReadError>)
    ensures 0 <= index < |rs| ==> r == ReadCell(k, rs[index])
    ensures !(0 <= index < |rs|) && !CastFailsFirst(k) ==> r == Failure(InvalidColumnIndex(index + 1))
    ensures r.Failure? && 0 <= index < |rs| ==> r.error.ClassCast? || r.error.NullPointer?
  {
    ReadColumn(k, rs, index + 1)
  }

  /** As the closures are written, field `index` calls the getters with column `index` itself:
      field 0 names no column at all, and every later field reads the column of the field
      before it. */
  lemma FieldIndexUsedAsColumn(k: ReaderKind, rs: ResultSet, i: int)
    ensures !CastFailsFirst(k) ==> ReadColumn(k, rs, 0) == Failure(InvalidColumnIndex(0))
    ensures 1 <= i <= |rs| ==> ReadColumn(k, rs, i) == ReadField(k, rs, i - 1)
    ensures |rs| >= 1 ==>
      ReadColumn(ReadBoolean, rs, 0).Failure? &&
      ReadField(ReadBoolean, rs, 0) == Success(BooleanColumn(rs[0].getBoolean))
  {
  }

  /** The column variant each root produces. */
  predicate ProducesVariant(root: TypeRoot, c: ColumnValue) {
    match root
    case Boolean => c.BooleanColumn?
    case TinyInt | SmallInt | Integer | BigInt | Float | Double | Decimal => c.BigDecimalColumn?
    case Char | VarChar => c.StringColumn?
    case Date => c.SqlDateColumn?
    case TimeWithoutTimeZone => c.TimeColumn?
    case TimestampWithTimeZone | TimestampWithoutTimeZone => c.TimestampColumn?
    case Binary | VarBinary => c.BytesColumn?
    case _ => false
  }

  /** The type root selects the produced column variant. */
  lemma ReaderProducesRootVariant(t: LogicalType, rs: ResultSet, index: int)
    requires CreateInternalConverter(t).Success?
    ensures var r := ReadField(CreateInternalConverter(t).value, rs, index);
      r.Success? ==> ProducesVariant(t.root, r.value)
  {
  }

  /** Integral reads are exact: the decimal the column holds equals what the getter returned. */
  lemma IntegralReadsAreExact(t: LogicalType, rs: ResultSet, index: int)
    requires t.root in {TinyInt, SmallInt, Integer, BigInt}
    requires 0 <= index < |rs|
    ensures var r := ReadField(CreateInternalConverter(t).value, rs, index);
      r.Success? && r.value.BigDecimalColumn? && r.value.n.Exact? &&
      DecimalValue(r.value.n.decimal) ==
        (match t.root
         case TinyInt => rs[index].getByte as real
         case SmallInt => rs[index].getShort as real
         case Integer => rs[index].getInt as real
         case _ => rs[index].getLong as real)
  {
  }

  /** A timestamp column carries exactly the declared precision of the field's type, with or
      without time zone, and every type Flink builds for these roots declares one; a
      timestamp-rooted type of neither class fails the cast on every row. */
  lemma TimestampCarriesDeclaredPrecision(t: LogicalType, rs: ResultSet, index: int)
    requires t.root in {TimestampWithTimeZone, TimestampWithoutTimeZone}
    ensures WellFormed(t) ==> DeclaredTimestampPrecision(t).Some?
    ensures var r := ReadField(CreateInternalConverter(t).value, rs, index);
      (DeclaredTimestampPrecision(t).Some? && 0 <= index < |rs| ==>
        r == Success(TimestampColumn(rs[index].getTimestamp, t.timestampClass.precision)))
      && (DeclaredTimestampPrecision(t).None? ==> r == Failure(ClassCast("TimestampType")))
  {
  }

  /** The correction touches only the zoned root: for a well-formed TIMESTAMP_WITHOUT_TIME_ZONE
      the corrected dispatch builds the very reader the as-written `(TimestampType)` cast builds,
      with the type's own precision. */
  lemma PlainTimestampReaderUnchanged(t: LogicalType)
    requires WellFormed(t) && t.root == TimestampWithoutTimeZone
    ensures CreateInternalConverter(t) == Success(ReadTimestamp(CastToTimestampType(t)))
    ensures CastToTimestampType(t) == Some(t.timestampClass.precision)
  {
  }

  /** As written, TIMESTAMP_WITH_TIME_ZONE shares the branch that casts the type to
      `TimestampType`. A well-formed zoned type is a `ZonedTimestampType`, so that cast fails
      and the reader so built fails on every row, whatever the result set holds. */
  lemma ZonedTimestampCastFails(t: LogicalType, rs: ResultSet, index: int)
    requires WellFormed(t) && t.root == TimestampWithTimeZone
    ensures CastToTimestampType(t).None?
    ensures ReadField(ReadTimestamp(CastToTimestampType(t)), rs, index) == Failure(ClassCast("TimestampType"))
    ensures DeclaredTimestampPrecision(t).Some?
  {
  }

  /** A CLOB-typed text field materialises the whole stream, lines joined by "\n" with none
      after the last; splitting the result at "\n" gives the lines back. */
  lemma ClobReadJoinsLines(t: LogicalType, rs: ResultSet, index: int)
    requires t.root in {Char, VarChar} && t.isClob
    requires 0 <= index < |rs| && rs[index].getObject.HanaClob?
    requires |rs[index].getObject.lines| >= 1
    requires forall k :: 0 <= k < |rs[index].getObject.lines| ==> NoNewline(rs[index].getObject.lines[k])
    ensures var r := ReadField(CreateInternalConverter(t).value, rs, index);
      r.Success? && r.value.StringColumn? &&
      SplitLines(r.value.s) == rs[index].getObject.lines &&
      CountNewlines(r.value.s) == |rs[index].getObject.lines| - 1
  {
    SplitJoinLines(rs[index].getObject.lines);
    JoinLinesSeparators(rs[index].getObject.lines);
  }

  // ---------------------------------------------------------------- writer side

  /** What each accessor of the column row answers at one position: `getByte` / `getShort` of
      the row, and the `as*` views of the column at that position, any of which may fail with a
      CastException. */
  datatype RowField = RowField(
    getByte: Result<int8, CastException>,
    getShort: Result<int16, CastException>,
    asBoolean: Result<bool, CastException>,
    asInt: Result<int32, CastException>,
    asFloat: Result<Float32, CastException>,
    asDouble: Result<Float64, CastException>,
    asLong: Result<int64, CastException>,
    asBigDecimal: Result<BigDecimal, CastException>,
    asString: Result<string, CastException>,
    asSqlDate: Result<SqlDate, CastException>,
    asTime: Result<SqlTime, CastException>,
    asTimestamp: Result<SqlTimestamp, CastException>,
    asBytes: Result<seq<byte>, CastException>)

  /** A typed setter of the prepared statement with the value it binds. */
  datatype Setter =
    | SetBoolean(b: bool)
    | SetShort(s: int16)
    | SetInt(i: int32)
    | SetFloat(f: Float32)
    | SetDouble(d: Float64)
    | SetLong(l: int64)
    | SetBigDecimal(dec: BigDecimal)
    | SetString(str: string)
    | SetDate(date: SqlDate)
    | SetTime(time: SqlTime)
    | SetTimestamp(timestamp: SqlTimestamp)
    | SetBytes(bytes: seq<byte>)

  /** One entry of the statement's call log: `setX(index, value)`. */
  datatype SetterCall = SetterCall(index: int, setter: Setter)

  /** Row-time failures of a writer: a cast failure of the column (passed on as it is), or a
      position the row does not have. */
  datatype WriteError = Cast(cause: CastException) | FieldIndexOutOfBounds(index: int)

  datatype WriterKind =
    | WriteBoolean | WriteTinyInt | WriteSmallInt | WriteInteger | WriteFloat | WriteDouble
    | WriteBigInt | WriteDecimal | WriteText | WriteDate | WriteTime | WriteTimestamp | WriteBinary

  /** The roots the writer side handles: those of the reader side except
      TIMESTAMP_WITH_TIME_ZONE. */
  predicate WriterSupports(root: TypeRoot) {
    root in {Boolean, TinyInt, SmallInt, Integer, Float, Double, BigInt, Decimal,
             Char, VarChar, Date, TimeWithoutTimeZone, TimestampWithoutTimeZone, Binary, VarBinary}
  }

  /** `createExternalConverter`: a writer for exactly the writer-supported roots. */
  function CreateExternalConverter(t: LogicalType): (r: Result<WriterKind, Unsupported>)
    ensures r.Success? <==> WriterSupports(t.root)
    ensures r.Failure? ==> r.error == UnsupportedType(t)
  {
    match t.root
    case Boolean => Success(WriteBoolean)
    case TinyInt => Success(WriteTinyInt)
    case SmallInt => Success(WriteSmallInt)
    case Integer => Success(WriteInteger)
    case Float => Success(WriteFloat)
    case Double => Success(WriteDouble)
    case BigInt => Success(WriteBigInt)
    case Decimal => Success(WriteDecimal)
    case Char => Success(WriteText)
    case VarChar => Success(WriteText)
    case Date => Success(WriteDate)
    case TimeWithoutTimeZone => Success(WriteTime)
    case TimestampWithoutTimeZone => Success(WriteTimestamp)
    case Binary => Success(WriteBinary)
    case VarBinary => Success(WriteBinary)
    case _ => Failure(UnsupportedType(t))
  }

  /** The writer side supports a strict subset of the reader side: TIMESTAMP_WITH_TIME_ZONE can
      be read but not written. */
  lemma WriterLacksZonedTimestamp(root: TypeRoot)
    ensures WriterSupports(root) <==> ReaderSupports(root) && root != TimestampWithTimeZone
    ensures ReaderSupports(TimestampWithTimeZone) && !WriterSupports(TimestampWithTimeZone)
  {
  }

  /** `(short) (b & 0xff)`: the byte, promoted to int, masked to its low eight bits and
      narrowed to a short. The result is the byte's unsigned value: always within [0, 255],
      a non-negative byte unchanged and a negative one shifted by 256. */
  function MaskedByte(b: int8): (m: int16)
    ensures 0 <= m <= 255
    ensures b >= 0 ==> m as int == b as int
    ensures b < 0 ==> m as int == b as int + 256
  {
    ByteMask(b);
    NarrowToShort(IntAnd(b as int as int32, 0xff))
  }

  /** Bind the value from `source` with the setter `setter`, or pass the source's failure on. */
  function Bind<T>(index: int, source: Result<T, CastException>, setter: T -> Setter): (r: Result<SetterCall, WriteError>)
    ensures source.Success? ==> r == Success(SetterCall(index, setter(source.value)))
    ensures source.Failure? ==> r == Failure(Cast(source.error))
  {
    match source
    case Success(v) => Success(SetterCall(index, setter(v)))
    case Failure(e) => Failure(Cast(e))
  }

  /** The cast failure of an accessor, if it fails. */
  function FailureOf<T>(source: Result<T, CastException>): (e: Option<CastException>)
    ensures e.Some? <==> source.Failure?
    ensures e.Some? ==> e.value == source.error
  {
    if source.Failure? then Some(source.error) else None
  }

  /** The failure of the accessor each writer reads its value with: `getByte` for TINYINT,
      `getShort` for SMALLINT, and the column's `as*` view for every other root. */
  function AccessorFailure(k: WriterKind, f: RowField): Option<CastException> {
    match k
    case WriteBoolean => FailureOf(f.asBoolean)
    case WriteTinyInt => FailureOf(f.getByte)
    case WriteSmallInt => FailureOf(f.getShort)
    case WriteInteger => FailureOf(f.asInt)
    case WriteFloat => FailureOf(f.asFloat)
    case WriteDouble => FailureOf(f.asDouble)
    case WriteBigInt => FailureOf(f.asLong)
    case WriteDecimal => FailureOf(f.asBigDecimal)
    case WriteText => FailureOf(f.asString)
    case WriteDate => FailureOf(f.asSqlDate)
    case WriteTime => FailureOf(f.asTime)
    case WriteTimestamp => FailureOf(f.asTimestamp)
    case WriteBinary => FailureOf(f.asBytes)
  }

  /** The argument each writer passes its setter: the accessor's value itself, except that
      TINYINT passes the masked byte. */
  predicate CarriesAccessorValue(k: WriterKind, f: RowField, s: Setter) {
    match k
    case WriteBoolean => f.asBoolean.Success? && s == SetBoolean(f.asBoolean.value)
    case WriteTinyInt => f.getByte.Success? && s == SetShort(MaskedByte(f.getByte.value))
    case WriteSmallInt => f.getShort.Success? && s == SetShort(f.getShort.value)
    case WriteInteger => f.asInt.Success? && s == SetInt(f.asInt.value)
    case WriteFloat => f.asFloat.Success? && s == SetFloat(f.asFloat.value)
    case WriteDouble => f.asDouble.Success? && s == SetDouble(f.asDouble.value)
    case WriteBigInt => f.asLong.Success? && s == SetLong(f.asLong.value)
    case WriteDecimal => f.asBigDecimal.Success? && s == SetBigDecimal(f.asBigDecimal.value)
    case WriteText => f.asString.Success? && s == SetString(f.asString.value)
    case WriteDate => f.asSqlDate.Success? && s == SetDate(f.asSqlDate.value)
    case WriteTime => f.asTime.Success? && s == SetTime(f.asTime.value)
    case WriteTimestamp => f.asTimestamp.Success? && s == SetTimestamp(f.asTimestamp.value)
    case WriteBinary => f.asBytes.Success? && s == SetBytes(f.asBytes.value)
  }

  /** Applying a writer: exactly one setter call, at the position the value is read from. */
  function WriteField(k: WriterKind, row: seq<RowField>, index: int): (r: Result<SetterCall, WriteError>)
    ensures r.Success? ==> r.value.index == index
    ensures !(0 <= index < |row|) ==> r == Failure(FieldIndexOutOfBounds(index))
    ensures 0 <= index < |row| ==> (r.Failure? <==> AccessorFailure(k, row[index]).Some?)
    ensures 0 <= index < |row| && r.Failure? ==> r.error == Cast(AccessorFailure(k, row[index]).value)
    ensures r.Success? ==> 0 <= index < |row| && CarriesAccessorValue(k, row[index], r.value.setter)
  {
    if !(0 <= index < |row|) then Failure(FieldIndexOutOfBounds(index))
    else
      var f := row[index];
      match k
      case WriteBoolean => Bind(index, f.asBoolean, b => SetBoolean(b))
      case WriteTinyInt => Bind(index, f.getByte, b => SetShort(MaskedByte(b)))
      case WriteSmallInt => Bind(index, f.getShort, s => SetShort(s))
      case WriteInteger => Bind(index, f.asInt, i => SetInt(i))
      case WriteFloat => Bind(index, f.asFloat, x => SetFloat(x))
      case WriteDouble => Bind(index, f.asDouble, x => SetDouble(x))
      case WriteBigInt => Bind(index, f.asLong, l => SetLong(l))
      case WriteDecimal => Bind(index, f.asBigDecimal, d => SetBigDecimal(d))
      case WriteText => Bind(index, f.asString, s => SetString(s))
      case WriteDate => Bind(index, f.asSqlDate, d => SetDate(d))
      case WriteTime => Bind(index, f.asTime, t => SetTime(t))
      case WriteTimestamp => Bind(index, f.asTimestamp, t => SetTimestamp(t))
      case WriteBinary => Bind(index, f.asBytes, b => SetBytes(b))
  }

  /** The setter each root uses. */
  predicate SetterMatchesRoot(root: TypeRoot, s: Setter) {
    match root
    case Boolean => s.SetBoolean?
    case TinyInt | SmallInt => s.SetShort?
    case Integer => s.SetInt?
    case Float => s.SetFloat?
    case Double => s.SetDouble?
    case BigInt => s.SetLong?
    case Decimal => s.SetBigDecimal?
    case Char | VarChar => s.SetString?
    case Date => s.SetDate?
    case TimeWithoutTimeZone => s.SetTime?
    case TimestampWithoutTimeZone => s.SetTimestamp?
    case Binary | VarBinary => s.SetBytes?
    case _ => false
  }

  /** Each writer issues one call of the setter its root selects, at position `index`. */
  lemma WriterUsesRootSetter(t: LogicalType, row: seq<RowField>, index: int)
    requires CreateExternalConverter(t).Success?
    ensures var r := WriteField(CreateExternalConverter(t).value, row, index);
      r.Success? ==> r.value.index == index && SetterMatchesRoot(t.root, r.value.setter)
  {
  }

  /** A TINYINT is written with setShort of its unsigned value. */
  lemma TinyIntWriteWidens(t: LogicalType, row: seq<RowField>, index: int)
    requires t.root == TinyInt
    requires 0 <= index < |row| && row[index].getByte.Success?
    ensures var r := WriteField(CreateExternalConverter(t).value, row, index);
      var b := row[index].getByte.value;
      r.Success? && r.value.setter.SetShort? &&
      0 <= r.value.setter.s <= 255 &&
      r.value.setter.s as int == (if b < 0 then b as int + 256 else b as int)
  {
  }

  /** A failing column view fails the write with the same CastException, unwrapped. */
  lemma WriteFailurePassesCastException(t: LogicalType, row: seq<RowField>, index: int)
    requires t.root == Integer && 0 <= index < |row| && row[index].asInt.Failure?
    ensures WriteField(CreateExternalConverter(t).value, row, index) == Failure(Cast(row[index].asInt.error))
  {
  }

  // ---------------------------------------------------------------- bind time

  /** The dispatch table built once for a row type: one reader and one writer per field. */
  datatype Converter = Converter(readers: seq<ReaderKind>, writers: seq<WriterKind>)

  /** Both dispatchers asked for every field, in field order; any unsupported root fails the
      whole construction, so no table is produced for the other fields. */
  function BuildConverter(rowType: seq<LogicalType>): (r: Result<Converter, Unsupported>)
    ensures r.Success? <==> forall i :: 0 <= i < |rowType| ==> WriterSupports(rowType[i].root)
    ensures r.Success? ==>
      |r.value.readers| == |rowType| && |r.value.writers| == |rowType| &&
      forall i :: 0 <= i < |rowType| ==>
        CreateInternalConverter(rowType[i]) == Success(r.value.readers[i]) &&
        CreateExternalConverter(rowType[i]) == Success(r.value.writers[i])
    ensures r.Failure? ==> exists i :: 0 <= i < |rowType| && r.error == UnsupportedType(rowType[i])
    decreases |rowType|
  {
    if |rowType| == 0 then Success(Converter([], []))
    else
      match CreateInternalConverter(rowType[0])
      case Failure(e) => Failure(e)
      case Success(reader) =>
        match CreateExternalConverter(rowType[0])
        case Failure(e) => Failure(e)
        case Success(writer) =>
          match BuildConverter(rowType[1..])
          case Failure(e) => Failure(e)
          case Success(rest) => Success(Converter([reader] + rest.readers, [writer] + rest.writers))
  }

  /** A row type with a TIMESTAMP_WITH_TIME_ZONE field has no converter, although its reader
      alone exists. */
  lemma ZonedTimestampBlocksConverter(rowType: seq<LogicalType>, i: nat)
    requires i < |rowType| && rowType[i].root == TimestampWithTimeZone
    ensures BuildConverter(rowType).Failure?
    ensures CreateInternalConverter(rowType[i]).Success?
  {
    assert !WriterSupports(rowType[i].root);
  }

  /** Reading one row: the readers applied position by position; the first failure stops it. */
  function DeserializeRow(readers: seq<ReaderKind>, rs: ResultSet): (r: Result<seq<ColumnValue>, ReadError>)
    ensures r.Success? ==> (|r.value| == |readers| &&
      forall i :: 0 <= i < |readers| ==> ReadField(readers[i], rs, i) == Success(r.value[i]))
    ensures r.Failure? ==> exists i :: 0 <= i < |readers| && ReadField(readers[i], rs, i) == Failure(r.error)
    decreases |readers|
  {
    if |readers| == 0 then Success([])
    else
      var n := |readers| - 1;
      match DeserializeRow(readers[..n], rs)
      case Failure(e) => Failure(e)
      case Success(init) =>
        match ReadField(readers[n], rs, n)
        case Failure(e) => Failure(e)
        case Success(c) => Success(init + [c])
  }

  /** Writing one row: the writers applied position by position, giving the statement's call
      log; the first failure stops it. */
  function SerializeRow(writers: seq<WriterKind>, row: seq<RowField>): (r: Result<seq<SetterCall>, WriteError>)
    ensures r.Success? ==> (|r.value| == |writers| &&
      forall i :: 0 <= i < |writers| ==> WriteField(writers[i], row, i) == Success(r.value[i]))
    ensures r.Failure? ==> exists i :: 0 <= i < |writers| && WriteField(writers[i], row, i) == Failure(r.error)
    decreases |writers|
  {
    if |writers| == 0 then Success([])
    else
      var n := |writers| - 1;
      match SerializeRow(writers[..n], row)
      case Failure(e) => Failure(e)
      case Success(init) =>
        match WriteField(writers[n], row, n)
        case Failure(e) => Failure(e)
        case Success(c) => Success(init + [c])
  }

  /** A row read through a converter has one column per field, each of its root's variant. */
  lemma ReadRowMatchesSchema(rowType: seq<LogicalType>, rs: ResultSet)
    requires BuildConverter(rowType).Success?
    ensures var r := DeserializeRow(BuildConverter(rowType).value.readers, rs);
      r.Success? ==> (|r.value| == |rowType| &&
        forall i :: 0 <= i < |rowType| ==> ProducesVariant(rowType[i].root, r.value[i]))
  {
    var c := BuildConverter(rowType).value;
    var r := DeserializeRow(c.readers, rs);
    if r.Success? {
      forall i | 0 <= i < |rowType| ensures ProducesVariant(rowType[i].root, r.value[i]) {
        ReaderProducesRootVariant(rowType[i], rs, i);
      }
    }
  }

  /** Writing a row of N fields issues exactly N calls, the i-th at position i with the setter
      of the i-th field's root. */
  lemma WriteRowCallLog(rowType: seq<LogicalType>, row: seq<RowField>)
    requires BuildConverter(rowType).Success?
    ensures var r := SerializeRow(BuildConverter(rowType).value.writers, row);
      r.Success? ==> (|r.value| == |rowType| &&
        forall i :: 0 <= i < |rowType| ==>
          r.value[i].index == i && SetterMatchesRoot(rowType[i].root, r.value[i].setter))
  {
    var c := BuildConverter(rowType).value;
    var r := SerializeRow(c.writers, row);
    if r.Success? {
      forall i | 0 <= i < |rowType|
        ensures r.value[i].index == i && SetterMatchesRoot(rowType[i].root, r.value[i].setter)
      {
        WriterUsesRootSetter(rowType[i], row, i);
      }
    }
  }

  /** A row as wide as its schema is written in full when no column view fails. */
  lemma WriteRowSucceeds(rowType: seq<LogicalType>, row: seq<RowField>)
    requires BuildConverter(rowType).Success?
    requires |row| == |rowType|
    requires forall i :: 0 <= i < |row| ==> WriteField(BuildConverter(rowType).value.writers[i], row, i).Success?
    ensures SerializeRow(BuildConverter(rowType).value.writers, row).Success?
  {
    var c := BuildConverter(rowType).value;
    assert forall i :: 0 <= i < |c.writers| ==> WriteField(c.writers[i], row, i).Success?;
  }
}
