# chunjun core: SAP HANA column converter, IntColumn, JDBC builder check, Doris sink and factory

This project models, in Dafny, five pieces of the chunjun (flinkx) data-integration framework:

- **`SaphanaColumnConverter`.** It turns a JDBC result-set row into chunjun column values and writes a column row back through the typed setters of a prepared statement.
  - For each field, one dispatch on the Flink logical type root picks a reader and a writer. An unsupported root fails when the converter is created, never per row.
  - A CLOB-typed text field is read by joining the lines of the `HanaClob` character stream with `"\n"`.
  - A TINYINT is written as `(short) (b & 0xff)`.
- **`IntColumn`.** A column holding a Java `int`.
  - Its two constructors record different size hints.
  - Its byte-array view always fails with a cast exception ("float" to "byte[]").
  - Its decimal view is exact.
- **`JdbcOutputFormatBuilder`.** A builder with setters for the JDBC conf, the dialect and the row converter. `checkFormat` fails, with one message line per missing setting, when the user name or the JDBC url is blank.
- **`DorisDynamicTableSink`.** It chooses the HTTP (stream load) builder when no url is configured, and the JDBC builder otherwise.
  - The JDBC builder lists every schema field in the conf.
  - Its write mode follows the unique key: INSERT without one, UPDATE with one.
  - The sink accepts any changelog mode and copies itself over the same schema and conf.
- **`DorisDynamicTableFactory`.** It requires a url or a list of FE nodes, copies the options into a `DorisConf`, and declares its options: none required, sixteen Doris options plus the inherited ones optional.

## How the model is built

- Java exceptions are `Result` / `Outcome` values.
- Java `byte`, `short`, `int` and `long` are newtypes of their exact ranges (`JavaLang` module).
- A Java `String` that may be null is an `Option<string>`. Commons-lang `isEmpty` and `isBlank` are modelled as `JavaLang.IsEmpty` and `JavaLang.IsBlank`; `isBlank` uses Java's whitespace test.
- The converter's closures are represented by the case that built them (`ReaderKind`, `WriterKind`).
  - A result set is a sequence of columns. JDBC numbers them from 1, so column c is element c - 1.
  - Applying a reader to a result set is `ReadField`.
  - Applying a writer to a column row is `WriteField`, which yields the setter call it makes.
- The CLOB loop is an imperative method with loop invariants, proved equal to the function `JoinLines`. `ClobText.SplitLines` is its inverse.
- `b & 0xff` is modelled on the 32-bit two's-complement pattern of the promoted int (`JavaLang.IntAnd`). It is proved to give the byte's unsigned value.
- The objects whose fields the source updates in place are Dafny classes.
  - `JdbcConf` and `JdbcOutputFormatBuilder` have methods for the setters the source calls; each says which fields it changes and that the others keep their values.
  - `JdbcOutputFormat`, `DorisConf` and `DorisHttpOutputFormatBuilder` have only a constructor, and their callers assign the fields directly.
  - `DorisDynamicTableSink` holds the source's final fields as `const` fields.
- Some members are modelled without a contract.
  - `DorisFactory.FactoryIdentifier` is "doris-x" (DorisDynamicTableFactory.java:58, 135-138).
  - `DorisFactory.GetDialect` is the MySQL dialect (DorisDynamicTableFactory.java:140-143).
  - `DorisSink.DorisDynamicTableSink.AsSummaryString` is "doris sink" (DorisDynamicTableSink.java:126-129).
  - `DorisFactory.GetLoadConf` is the load settings taken from the options (DorisDynamicTableFactory.java:120-133).
- Two quirks of the code:
  - The factory checks the url with `isEmpty`, not `isBlank`. A whitespace-only url therefore passes the factory check, yet the sink treats it as absent and chooses the HTTP builder (`DorisFactory.WhitespaceUrlPassesCheckButSelectsHttp`).
  - `getConfByOptions` sets the FE nodes twice, with the same value.

## Model

| member | source | states |
|---|---|---|
| SaphanaConverter.CreateInternalConverter | flinkx-connectors/flinkx-connector-saphana/src/main/java/com/dtstack/flinkx/connector/saphana/converter/SaphanaColumnConverter.java:52-112 | a reader exists exactly for BOOLEAN, TINYINT, SMALLINT, INTEGER, FLOAT, DOUBLE, BIGINT, DECIMAL, CHAR, VARCHAR, DATE, TIME, both TIMESTAMP roots, BINARY and VARBINARY; every other root fails at creation with "Unsupported type:" followed by the type; CLOB-ness is carried into the reader, and so is the declared precision of a timestamp with or without time zone (the corrected form of the second finding) |
| LogicalTypes.CastToTimestampType | flinkx-connectors/flinkx-connector-saphana/src/main/java/com/dtstack/flinkx/connector/saphana/converter/SaphanaColumnConverter.java:103 | the `(TimestampType) type` cast yields a precision exactly when the type object is a TimestampType, and that precision is the type's own `getPrecision()` |
| LogicalTypes.DeclaredTimestampPrecision | flinkx-connectors/flinkx-connector-saphana/src/main/java/com/dtstack/flinkx/connector/saphana/converter/SaphanaColumnConverter.java:100-104 | a timestamp's declared precision exists exactly for a TimestampType or a ZonedTimestampType, and it is that type's precision |
| SaphanaConverter.ReadCell | flinkx-connectors/flinkx-connector-saphana/src/main/java/com/dtstack/flinkx/connector/saphana/converter/SaphanaColumnConverter.java:57-108 | the getters of one column. A read fails only in three cases, and exactly in them: the HanaClob cast of a CLOB field whose object is neither a HanaClob nor null; the null dereference of a NULL CLOB; the timestamp cast of a type with no timestamp precision. A successful read carries the getter's own value: the boolean, an exact decimal equal to the integral getter's value, the float or double bits, the BigDecimal, the string or the CLOB's joined lines, the date, the time, the timestamp with the declared precision, or the bytes |
| SaphanaConverter.ReadColumn | flinkx-connectors/flinkx-connector-saphana/src/main/java/com/dtstack/flinkx/connector/saphana/converter/SaphanaColumnConverter.java:55-108 | the closure as written, with its getters called on JDBC column `column`, counted from 1: a failing timestamp cast comes first, then a column number outside 1..n fails, otherwise that column's cell is read |
| SaphanaConverter.ReadField | flinkx-connectors/flinkx-connector-saphana/src/main/java/com/dtstack/flinkx/connector/saphana/converter/SaphanaColumnConverter.java:55-108 | corrected form of the first finding: the reader of field `index`, counted from 0, reads JDBC column `index + 1`; within range that is exactly the read of the field's own cell, and then the only failures are class casts and a NULL CLOB's null dereference; out of range the read fails with an invalid column number, unless a failing timestamp cast comes first |
| SaphanaConverter.FieldIndexUsedAsColumn | flinkx-connectors/flinkx-connector-saphana/src/main/java/com/dtstack/flinkx/connector/saphana/converter/SaphanaColumnConverter.java:55-108 | as written, field `index` reads JDBC column `index`: field 0 fails with invalid column 0 for every result set, where the corrected reader reads the first column; field i ≥ 1 reads what field i - 1's corrected reader reads |
| SaphanaConverter.ReaderProducesRootVariant | flinkx-connectors/flinkx-connector-saphana/src/main/java/com/dtstack/flinkx/connector/saphana/converter/SaphanaColumnConverter.java:56-108 | a successful read yields the column variant of the field's root: boolean, big-decimal for the numeric roots, string for text, date, time, timestamp or bytes |
| SaphanaConverter.IntegralReadsAreExact | flinkx-connectors/flinkx-connector-saphana/src/main/java/com/dtstack/flinkx/connector/saphana/converter/SaphanaColumnConverter.java:59-64 | TINYINT, SMALLINT, INTEGER and BIGINT reads succeed and hold an exact decimal equal to the getter's value |
| SaphanaConverter.PlainTimestampReaderUnchanged | flinkx-connectors/flinkx-connector-saphana/src/main/java/com/dtstack/flinkx/connector/saphana/converter/SaphanaColumnConverter.java:100-104 | the correction changes nothing for TIMESTAMP_WITHOUT_TIME_ZONE: for every well-formed type of that root the corrected dispatch builds exactly the reader the as-written cast builds, carrying the type's own precision |
| SaphanaConverter.TimestampCarriesDeclaredPrecision | flinkx-connectors/flinkx-connector-saphana/src/main/java/com/dtstack/flinkx/connector/saphana/converter/SaphanaColumnConverter.java:100-105 | corrected form of the second finding: a timestamp column, with or without time zone, carries the timestamp read and exactly the type's declared precision; every well-formed type of these roots declares one; a timestamp-rooted type of neither class fails the cast on every row |
| SaphanaConverter.ZonedTimestampCastFails | flinkx-connectors/flinkx-connector-saphana/src/main/java/com/dtstack/flinkx/connector/saphana/converter/SaphanaColumnConverter.java:100-104 | as written, a well-formed TIMESTAMP_WITH_TIME_ZONE type fails the `(TimestampType)` cast, so its reader fails with a class cast on every row, although the type declares a precision |
| SaphanaConverter.ClobReadJoinsLines | flinkx-connectors/flinkx-connector-saphana/src/main/java/com/dtstack/flinkx/connector/saphana/converter/SaphanaColumnConverter.java:77-91 | a CLOB text field reads as one string that splits at "\n" back into the stream's lines and holds exactly one "\n" fewer than there are lines |
| ClobText.MaterializeClob | flinkx-connectors/flinkx-connector-saphana/src/main/java/com/dtstack/flinkx/connector/saphana/converter/SaphanaColumnConverter.java:79-91 | the read-line / append loop builds exactly the lines joined by "\n", with no separator after the last line |
| ClobText.ReadLine | flinkx-connectors/flinkx-connector-saphana/src/main/java/com/dtstack/flinkx/connector/saphana/converter/SaphanaColumnConverter.java:83 | `readLine` gives the next line while lines remain and null at the end of the stream |
| ClobText.SplitJoinLines | flinkx-connectors/flinkx-connector-saphana/src/main/java/com/dtstack/flinkx/connector/saphana/converter/SaphanaColumnConverter.java:84-88 | splitting the joined text at "\n" recovers the original lines, for any non-empty list of lines without newlines |
| ClobText.JoinLinesSeparators | flinkx-connectors/flinkx-connector-saphana/src/main/java/com/dtstack/flinkx/connector/saphana/converter/SaphanaColumnConverter.java:84-88 | the joined text of n lines holds exactly n - 1 newlines |
| ClobText.NoTrailingNewline | flinkx-connectors/flinkx-connector-saphana/src/main/java/com/dtstack/flinkx/connector/saphana/converter/SaphanaColumnConverter.java:84-88 | the joined text ends with the last line itself; no separator is appended after it |
| ClobText.EmptyClob | flinkx-connectors/flinkx-connector-saphana/src/main/java/com/dtstack/flinkx/connector/saphana/converter/SaphanaColumnConverter.java:81-90 | an empty stream and a stream of one empty line both read as the empty string |
| ClobText.ThreeLineClob | flinkx-connectors/flinkx-connector-saphana/src/main/java/com/dtstack/flinkx/connector/saphana/converter/SaphanaColumnConverter.java:84-88 | three lines read as line, "\n", line, "\n", line, with two separators |
| SaphanaConverter.CreateExternalConverter | flinkx-connectors/flinkx-connector-saphana/src/main/java/com/dtstack/flinkx/connector/saphana/converter/SaphanaColumnConverter.java:114-168 | a writer exists exactly for the reader's roots without TIMESTAMP_WITH_TIME_ZONE; every other root fails at creation with "Unsupported type:" followed by the type |
| SaphanaConverter.WriterLacksZonedTimestamp | flinkx-connectors/flinkx-connector-saphana/src/main/java/com/dtstack/flinkx/connector/saphana/converter/SaphanaColumnConverter.java:100-101 | the writer supports a root if and only if the reader does and the root is not TIMESTAMP_WITH_TIME_ZONE, which the reader supports and the writer does not |
| SaphanaConverter.WriteField | flinkx-connectors/flinkx-connector-saphana/src/main/java/com/dtstack/flinkx/connector/saphana/converter/SaphanaColumnConverter.java:119-164 | a write makes one setter call at the position it reads from. A position the row lacks fails with an out-of-bounds error. Within range, the write fails if and only if the accessor its root uses fails (getByte for TINYINT, getShort for SMALLINT, the column's `as*` view otherwise), and then with that same cast exception. A successful write passes the setter the accessor's value itself, or the masked byte for TINYINT |
| SaphanaConverter.Bind | flinkx-connectors/flinkx-connector-saphana/src/main/java/com/dtstack/flinkx/connector/saphana/converter/SaphanaColumnConverter.java:119-164 | a setter is called with the accessor's value when the accessor succeeds; otherwise its CastException is passed on unchanged |
| SaphanaConverter.WriterUsesRootSetter | flinkx-connectors/flinkx-connector-saphana/src/main/java/com/dtstack/flinkx/connector/saphana/converter/SaphanaColumnConverter.java:116-164 | a successful write calls the setter of the field's root (setShort for TINYINT and SMALLINT, setInt, setFloat, setDouble, setLong, setBigDecimal, setString, setDate, setTime, setTimestamp, setBytes) at the field's position |
| SaphanaConverter.MaskedByte | flinkx-connectors/flinkx-connector-saphana/src/main/java/com/dtstack/flinkx/connector/saphana/converter/SaphanaColumnConverter.java:125 | `(short) (b & 0xff)`, computed on the 32-bit pattern, lies in [0, 255]; it equals b for a non-negative byte and b + 256 for a negative one |
| SaphanaConverter.TinyIntWriteWidens | flinkx-connectors/flinkx-connector-saphana/src/main/java/com/dtstack/flinkx/connector/saphana/converter/SaphanaColumnConverter.java:123-125 | a TINYINT field is written with setShort of the byte's unsigned value |
| SaphanaConverter.WriteFailurePassesCastException | flinkx-connectors/flinkx-connector-saphana/src/main/java/com/dtstack/flinkx/connector/saphana/converter/SaphanaColumnConverter.java:128-130 | when an INTEGER field's `asInt` fails, the write fails with that same cast exception |
| SaphanaConverter.BuildConverter | flinkx-connectors/flinkx-connector-saphana/src/main/java/com/dtstack/flinkx/connector/saphana/converter/SaphanaColumnConverter.java:48-50 | the converter is built if and only if every field's root is writable; it then holds, for each field position, the reader and the writer the two dispatches give for that field; a failure names an unsupported field type |
| SaphanaConverter.ZonedTimestampBlocksConverter | flinkx-connectors/flinkx-connector-saphana/src/main/java/com/dtstack/flinkx/connector/saphana/converter/SaphanaColumnConverter.java:100-101 | a row type with a TIMESTAMP_WITH_TIME_ZONE field gets no converter, although a reader for that field alone exists |
| SaphanaConverter.DeserializeRow | flinkx-connectors/flinkx-connector-saphana/src/main/java/com/dtstack/flinkx/connector/saphana/converter/SaphanaColumnConverter.java:52-108 | a successful read of a row holds, at each position, what that position's reader gives; a failure is some position's read failure |
| SaphanaConverter.SerializeRow | flinkx-connectors/flinkx-connector-saphana/src/main/java/com/dtstack/flinkx/connector/saphana/converter/SaphanaColumnConverter.java:114-164 | a successful write of a row logs, at each position, the call that position's writer makes; a failure is some position's write failure |
| SaphanaConverter.ReadRowMatchesSchema | flinkx-connectors/flinkx-connector-saphana/src/main/java/com/dtstack/flinkx/connector/saphana/converter/SaphanaColumnConverter.java:52-108 | a row read through the converter has one column per field, each of the variant of that field's root |
| SaphanaConverter.WriteRowCallLog | flinkx-connectors/flinkx-connector-saphana/src/main/java/com/dtstack/flinkx/connector/saphana/converter/SaphanaColumnConverter.java:114-164 | writing a row of N fields makes exactly N setter calls, the i-th at position i with the setter of the i-th field's root |
| SaphanaConverter.WriteRowSucceeds | flinkx-connectors/flinkx-connector-saphana/src/main/java/com/dtstack/flinkx/connector/saphana/converter/SaphanaColumnConverter.java:114-164 | a row as wide as the schema is written in full when no field's write fails |
| IntColumns.NewIntColumn | chunjun-core/src/main/java/com/dtstack/chunjun/element/column/IntColumn.java:28-30 | the one-argument constructor holds the value with size hint 4 |
| IntColumns.From | chunjun-core/src/main/java/com/dtstack/chunjun/element/column/IntColumn.java:36-38 | `from` gives a new column holding the value with size hint 0 |
| IntColumns.SizeHintByConstructor | chunjun-core/src/main/java/com/dtstack/chunjun/element/column/IntColumn.java:28-38 | the two construction paths give different size hints; `from` depends on nothing of its receiver, and both paths give the same decimal view |
| IntColumns.AsStringInternal | chunjun-core/src/main/java/com/dtstack/chunjun/element/column/IntColumn.java:40-43 | the string form of the column parses back to its value |
| IntColumns.AsBytesInternal | chunjun-core/src/main/java/com/dtstack/chunjun/element/column/IntColumn.java:40-43 | the byte view always fails with a cast exception from "float" to "byte[]" whose value is the column's string form |
| IntColumns.BytesViewNeverSucceeds | chunjun-core/src/main/java/com/dtstack/chunjun/element/column/IntColumn.java:40-43 | the byte view fails for every column; two columns fail with the same exception if and only if they hold the same value |
| IntColumns.BytesViewOf42 | chunjun-core/src/main/java/com/dtstack/chunjun/element/column/IntColumn.java:40-43 | the byte view of an int column holding 42 fails with ("float", "byte[]", "42") |
| IntColumns.AsBigDecimalInternal | chunjun-core/src/main/java/com/dtstack/chunjun/element/column/IntColumn.java:45-48 | the decimal view is exact: its value equals the int held |
| JdbcSink.JdbcOutputFormatBuilder.constructor | flinkx-connectors/flinkx-connector-jdbc-base/src/main/java/com/dtstack/flinkx/connector/jdbc/sink/JdbcOutputFormatBuilder.java:32-34 | the builder holds the given format as its own and as the base builder's format, with no config yet |
| JdbcSink.JdbcOutputFormat.constructor | flinkx-connectors/flinkx-connector-doris/src/main/java/com/dtstack/flinkx/connector/doris/sink/DorisDynamicTableSink.java:96-97 | a new JDBC output format has no conf, dialect or row converter yet |
| JdbcSink.JdbcOutputFormatBuilder.SetJdbcConf | flinkx-connectors/flinkx-connector-jdbc-base/src/main/java/com/dtstack/flinkx/connector/jdbc/sink/JdbcOutputFormatBuilder.java:36-39 | the conf becomes both the builder's config and the format's conf; the dialect and row converter are unchanged |
| JdbcSink.JdbcOutputFormatBuilder.SetJdbcDialect | flinkx-connectors/flinkx-connector-jdbc-base/src/main/java/com/dtstack/flinkx/connector/jdbc/sink/JdbcOutputFormatBuilder.java:41-43 | the format's dialect is set; its conf and row converter are unchanged |
| JdbcSink.JdbcOutputFormatBuilder.SetRowConverter | flinkx-connectors/flinkx-connector-jdbc-base/src/main/java/com/dtstack/flinkx/connector/jdbc/sink/JdbcOutputFormatBuilder.java:45-48 | the format's row converter is set; its conf and dialect are unchanged |
| JdbcSink.JdbcOutputFormatBuilder.SetConfig | flinkx-connectors/flinkx-connector-jdbc-base/src/main/java/com/dtstack/flinkx/connector/jdbc/sink/JdbcOutputFormatBuilder.java:37 | the base builder's config is replaced; the format is untouched |
| JdbcSink.JdbcOutputFormatBuilder.CheckFormat | flinkx-connectors/flinkx-connector-jdbc-base/src/main/java/com/dtstack/flinkx/connector/jdbc/sink/JdbcOutputFormatBuilder.java:50-64 | with no conf the check fails with a null dereference; otherwise it fails if and only if the user name or the url is blank, with an IllegalArgumentException whose message is the missing-settings text |
| JdbcSink.MissingSettingsMessage | flinkx-connectors/flinkx-connector-jdbc-base/src/main/java/com/dtstack/flinkx/connector/jdbc/sink/JdbcOutputFormatBuilder.java:53-60 | the accumulated message holds one line per blank setting: "No username supplied;\n" at its start when the user name is blank, "No jdbc url supplied;\n" at its end when the url is blank, and nothing else |
| JdbcSink.MessageNamesUsernameIffBlank | flinkx-connectors/flinkx-connector-jdbc-base/src/main/java/com/dtstack/flinkx/connector/jdbc/sink/JdbcOutputFormatBuilder.java:54-56 | the message contains "No username supplied;\n" if and only if the user name is blank |
| JdbcSink.MessageNamesUrlIffBlank | flinkx-connectors/flinkx-connector-jdbc-base/src/main/java/com/dtstack/flinkx/connector/jdbc/sink/JdbcOutputFormatBuilder.java:58-60 | the message contains "No jdbc url supplied;\n" if and only if the url is blank |
| JdbcSink.MessageEmptyIffBothPresent | flinkx-connectors/flinkx-connector-jdbc-base/src/main/java/com/dtstack/flinkx/connector/jdbc/sink/JdbcOutputFormatBuilder.java:52-63 | the message is empty if and only if neither setting is blank; when both are blank it names the user name first and then the url |
| JdbcSink.JdbcConf.SetColumn | flinkx-connectors/flinkx-connector-doris/src/main/java/com/dtstack/flinkx/connector/doris/sink/DorisDynamicTableSink.java:108 | the conf's column list is replaced and no other setting changes |
| JdbcSink.JdbcConf.SetMode | flinkx-connectors/flinkx-connector-doris/src/main/java/com/dtstack/flinkx/connector/doris/sink/DorisDynamicTableSink.java:109-112 | the conf's write mode is set and no other setting changes |
| DorisSink.BuilderFor | flinkx-connectors/flinkx-connector-doris/src/main/java/com/dtstack/flinkx/connector/doris/sink/DorisDynamicTableSink.java:77-80 | the HTTP builder is chosen if and only if the url is blank |
| DorisSink.WriteModeFor | flinkx-connectors/flinkx-connector-doris/src/main/java/com/dtstack/flinkx/connector/doris/sink/DorisDynamicTableSink.java:109-112 | the mode is INSERT if and only if there is no unique key or it is empty, and UPDATE if and only if a non-empty unique key is set |
| DorisSink.BuildColumnList | flinkx-connectors/flinkx-connector-doris/src/main/java/com/dtstack/flinkx/connector/doris/sink/DorisDynamicTableSink.java:99-107 | for a row type covering every field name, the loop lists one entry per field name, in order, each with the name, the summary string of the row type's type at the same position, and the position |
| DorisSink.ColumnListAligned | flinkx-connectors/flinkx-connector-doris/src/main/java/com/dtstack/flinkx/connector/doris/sink/DorisDynamicTableSink.java:99-107 | a column list built this way names the fields in order, and the position recorded in each entry finds that entry again |
| DorisSink.DorisDynamicTableSink.constructor | flinkx-connectors/flinkx-connector-doris/src/main/java/com/dtstack/flinkx/connector/doris/sink/DorisDynamicTableSink.java:57-65 | the sink holds the physical schema, the Doris conf and its JDBC conf; the base sink's schema is the physical schema and its dialect is MySQL |
| DorisSink.DorisDynamicTableSink.GetChangelogMode | flinkx-connectors/flinkx-connector-doris/src/main/java/com/dtstack/flinkx/connector/doris/sink/DorisDynamicTableSink.java:67-70 | the sink accepts exactly the changelog mode it is asked for |
| DorisSink.DorisDynamicTableSink.GetSinkRuntimeProvider | flinkx-connectors/flinkx-connector-doris/src/main/java/com/dtstack/flinkx/connector/doris/sink/DorisDynamicTableSink.java:72-84 | an HTTP builder exactly when the Doris url is blank, leaving the JDBC conf untouched, with the schema's field names, the Doris conf and the HTTP row converter; otherwise a JDBC builder with the dialect, the JDBC row converter and the JDBC conf, which now lists every field and has the write mode of its unique key, all its other settings unchanged |
| DorisSink.DorisDynamicTableSink.HttpBuilder | flinkx-connectors/flinkx-connector-doris/src/main/java/com/dtstack/flinkx/connector/doris/sink/DorisDynamicTableSink.java:86-93 | a fresh HTTP builder with the schema's field names as columns, the Doris conf as config and load options, and a Doris HTTP row converter for the row type |
| DorisSink.DorisHttpOutputFormatBuilder.constructor | flinkx-connectors/flinkx-connector-doris/src/main/java/com/dtstack/flinkx/connector/doris/sink/DorisDynamicTableSink.java:87 | a new HTTP builder has no columns, config, options or row converter yet |
| DorisSink.DorisDynamicTableSink.JdbcBuilder | flinkx-connectors/flinkx-connector-doris/src/main/java/com/dtstack/flinkx/connector/doris/sink/DorisDynamicTableSink.java:95-119 | the JDBC conf lists every field of the base schema, named from the schema and typed from the row type, with positions, and gets the write mode of its unique key; its user name, password, url and unique key are unchanged; a fresh builder holds that conf as config and on its format, with the sink's dialect and a Doris JDBC row converter |
| DorisSink.DorisDynamicTableSink.Copy | flinkx-connectors/flinkx-connector-doris/src/main/java/com/dtstack/flinkx/connector/doris/sink/DorisDynamicTableSink.java:121-124 | a new sink over the same physical schema and the same Doris conf |
| DorisConfs.DorisConf.constructor | flinkx-connectors/flinkx-connector-doris/src/main/java/com/dtstack/flinkx/connector/doris/table/DorisDynamicTableFactory.java:87 | a new Doris conf has no settings: null references, zero counters, empty load properties |
| DorisFactory.CheckUrlOrFeNodes | flinkx-connectors/flinkx-connector-doris/src/main/java/com/dtstack/flinkx/connector/doris/table/DorisDynamicTableFactory.java:73-76 | a failure is the IllegalArgumentException "Choose one of 'url' and 'feNodes', them can not be empty at same time." |
| DorisFactory.UrlOrFeNodesSuffices | flinkx-connectors/flinkx-connector-doris/src/main/java/com/dtstack/flinkx/connector/doris/table/DorisDynamicTableFactory.java:73-76 | a non-empty url alone or a non-empty FE node list alone passes the check; it fails when the url is empty and there are no FE nodes |
| DorisFactory.WhitespaceUrlPassesCheckButSelectsHttp | flinkx-connectors/flinkx-connector-doris/src/main/java/com/dtstack/flinkx/connector/doris/table/DorisDynamicTableFactory.java:73 | a whitespace-only url with no FE nodes passes the factory check although the sink then chooses the HTTP builder |
| DorisFactory.JdbcPathImpliesCheckPasses | flinkx-connectors/flinkx-connector-doris/src/main/java/com/dtstack/flinkx/connector/doris/table/DorisDynamicTableFactory.java:73-76 | whenever the sink would choose the JDBC builder, the factory check passes |
| DorisFactory.GetConfByOptions | flinkx-connectors/flinkx-connector-doris/src/main/java/com/dtstack/flinkx/connector/doris/table/DorisDynamicTableFactory.java:86-118 | a fresh conf holds the FE nodes, url, database (SCHEMA) and table as given, the user name and password only when set, the load settings, empty load properties, and the retries, write mode and batch size as given |
| DorisFactory.CreateDynamicTableSink | flinkx-connectors/flinkx-connector-doris/src/main/java/com/dtstack/flinkx/connector/doris/table/DorisDynamicTableFactory.java:60-84 | fails if and only if the url is empty and there are no FE nodes, with the check's message and no conf built; otherwise a fresh sink over the physical schema whose fresh conf is built from the options exactly as `getConfByOptions` builds it |
| DorisFactory.RequiredOptions | flinkx-connectors/flinkx-connector-doris/src/main/java/com/dtstack/flinkx/connector/doris/table/DorisDynamicTableFactory.java:145-148 | the factory requires no option |
| DorisFactory.OptionalOptions | flinkx-connectors/flinkx-connector-doris/src/main/java/com/dtstack/flinkx/connector/doris/table/DorisDynamicTableFactory.java:150-178 | an option is optional if and only if the base factory lists it as optional or required, or it is one of the sixteen Doris options |
| DorisFactory.DorisOptionsDistinct | flinkx-connectors/flinkx-connector-doris/src/main/java/com/dtstack/flinkx/connector/doris/table/DorisDynamicTableFactory.java:155-173 | the sixteen Doris options are pairwise distinct, so the set they are collected into has exactly sixteen members |

## Left out

- `HBaseAllTableFunction` is not part of this model.
- The base class `JdbcColumnConverter` is not part of this model. This includes its per-field loop, its null handling, the numbers it passes to `createInternalConverter`, and how `FieldNamedPreparedStatement` numbers its parameters. `SaphanaConverter.BuildConverter`, `SaphanaConverter.DeserializeRow` and `SaphanaConverter.SerializeRow` assume the loop visits every field in order, stops at the first failure, and passes field position i to both closures.
- SaphanaConverter.BuildConverter: a failure is only said to name some unsupported field, not the first one. The order of the base-class loop is not part of this model.
- The JDBC `ResultSet`, `PreparedStatement`, `HanaClob` and `BufferedReader` APIs are represented by their answers.
  - Each position of a result set holds what every getter would return.
  - A CLOB's character stream is given already split into lines, as `readLine` returns them.
  - I/O errors of the stream are not modelled.
- FLOAT and DOUBLE values are opaque bit patterns. They are passed through unchanged, and no floating-point arithmetic is modelled.
- Flink's three timestamp classes (`TimestampType`, `ZonedTimestampType`, `LocalZonedTimestampType`) are recorded in each type as `LogicalTypes.TimestampClass`. `LogicalTypes.WellFormed` states the pairing of roots and classes that Flink builds, but types that break the pairing are still admitted. For such a type with root TIMESTAMP_WITHOUT_TIME_ZONE or TIMESTAMP_WITH_TIME_ZONE, the two roots the reader accepts, only the class decides the outcome:
  - the as-written cast succeeds exactly when the class is `TimestampType`;
  - the corrected reader succeeds exactly when the class is `TimestampType` or `ZonedTimestampType`.
- SaphanaConverter.IntegralReadsAreExact: it assumes that `BigDecimalColumn` has constructors taking a byte, a short, an int and a long, and that each holds the value exactly. `BigDecimalColumn` is not part of this model.
- `IntColumns.AsStringInternal` is inherited and not shown in `IntColumn.java`. It is modelled as `Integer.toString`, the decimal rendering.
- The `as*` views of columns other than `IntColumn` are inputs of the writer (`SaphanaConverter.RowField`), not computed from column values. A read-then-write round trip is therefore not stated.
- `DorisConf.setToJdbcConf` is not part of this model. The constructor and `Copy` take the JDBC conf it would return as a parameter.
- `BaseRichOutputFormatBuilder.setConfig` is modelled as storing the config.
- `DorisJdbcOutputFormatBuilder` is modelled as `JdbcOutputFormatBuilder`, since its own source is not part of this model. `DorisJdbcOutputFormat` is modelled as a `JdbcOutputFormat`.
- `builder.finish()`, the `SinkFunctionProvider` wrapping, the parallelism setting and the HTTP output format's load behaviour are left out. `GetSinkRuntimeProvider` returns the prepared builder.
- Flink's `FactoryUtil` helper, option validation and the physical-schema extraction are left out. `CreateDynamicTableSink` takes the option values and the physical schema directly.
- `ConfigOption` identity is abstract: the Doris options are named constructors, and the base JDBC factory's options are an opaque `JdbcOption(key)`.
- DorisFactory.DorisOptionsDistinct: the options are distinct as constructors of the model. Flink compares `ConfigOption`s by key and default value, and neither `DorisOptions`' keys nor the JDBC factory's options are part of this model. So the lemma does not show that the keys differ, or that the Doris options are disjoint from the inherited ones.
- DorisSink.DorisDynamicTableSink.JdbcBuilder: it requires a row type at least as wide as the base schema, because the loop asks the row type for a type at every field position. Its one caller passes the physical schema's own row type.
- `getLoadConf`'s builder chain is collapsed into the `LoadConf` value the options hold. The builder's own defaults and `build()` are not modelled.
- The setters of `JdbcConf`, `DorisConf`, `JdbcOutputFormat` and `DorisHttpOutputFormatBuilder` are not part of this model. Each is assumed to store its argument in the field of the same name and do nothing else. So the frames of `JdbcSink.JdbcConf.SetColumn` and `JdbcSink.JdbcConf.SetMode` (no other setting changes) are an assumption, and the other three classes' callers assign the fields directly.
- SQL NULL is modelled only for the object of a CLOB-typed field. There `(HanaClob) val` gives null and `clob.getCharacterStream()` throws a NullPointerException (`SaphanaConverter.ReadError.NullPointer`). Every other getter is assumed to return a non-null value. So the model does not show `getString`, `getBigDecimal`, `getDate`, `getTime`, `getTimestamp` or `getBytes` returning null into a column constructor (for instance `new StringColumn(null)`), nor the 0 or false that the primitive getters return for NULL.
- The initial values of a new `DorisConf` are taken to be null (`None`) and zero, because `DorisConf`'s declaration is not part of this model.

## Findings

| source | as written | input that shows it | evidently intended | confidence | as-written member | corrected member |
|---|---|---|---|---|---|---|
| flinkx-connectors/flinkx-connector-saphana/src/main/java/com/dtstack/flinkx/connector/saphana/converter/SaphanaColumnConverter.java:55-108 | the reader for field `index` takes the field's type from `rowType.getTypeAt(index)`, counted from 0, and calls the JDBC getters with the same `index`, which JDBC counts from 1 | field 0 of any row type: `getX(0)` names no column; field i ≥ 1 reads the column of field i - 1 | field `index` reads JDBC column `index + 1` | medium, not executed (the numbers the base class passes are not part of this model) | SaphanaConverter.FieldIndexUsedAsColumn | SaphanaConverter.ReadField |
| flinkx-connectors/flinkx-connector-saphana/src/main/java/com/dtstack/flinkx/connector/saphana/converter/SaphanaColumnConverter.java:100-104 | TIMESTAMP_WITH_TIME_ZONE shares the branch that casts the type to `TimestampType` | any TIMESTAMP WITH TIME ZONE field: its type object is a `ZonedTimestampType`, so the cast throws ClassCastException on every row | the reader carries the zoned type's declared precision | high, not executed | SaphanaConverter.ZonedTimestampCastFails | SaphanaConverter.TimestampCarriesDeclaredPrecision |
