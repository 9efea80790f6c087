/**
 * `DorisDynamicTableSink`: writes through the Doris HTTP (stream load) builder when no JDBC url
 * is configured, and otherwise through a JDBC builder whose conf lists every field of the
 * schema and whose write mode follows the unique key.
 */
module DorisSink {
  import opened Wrappers
  import opened JavaLang
  import opened LogicalTypes
  import opened JdbcSink
  import opened DorisConfs

  datatype TableColumn = TableColumn(name: string, dataType: LogicalType)

  /** A Flink `TableSchema`: its field names and row type come from the same columns. */
  datatype TableSchema = TableSchema(columns: seq<TableColumn>)

  function FieldNames(schema: TableSchema): (names: seq<string>)
    ensures |names| == |schema.columns|
    ensures forall i :: 0 <= i < |names| ==> names[i] == schema.columns[i].name
  {
    seq(|schema.columns|, i requires 0 <= i < |schema.columns| => schema.columns[i].name)
  }

  function RowTypeOf(schema: TableSchema): (rowType: seq<LogicalType>)
    ensures |rowType| == |schema.columns|
    ensures forall i :: 0 <= i < |rowType| ==> rowType[i] == schema.columns[i].dataType
  {
    seq(|schema.columns|, i requires 0 <= i < |schema.columns| => schema.columns[i].dataType)
  }

  datatype RowKind = Insert | UpdateBefore | UpdateAfter | Delete
  datatype ChangelogMode = ChangelogMode(kinds: set<RowKind>)

  datatype BuilderKind = HttpBuilderKind | JdbcBuilderKind

  /** The builder choice of `getSinkRuntimeProvider`: HTTP for a blank url, JDBC otherwise. */
  function BuilderFor(url: JString): (k: BuilderKind)
    ensures k == HttpBuilderKind <==> IsBlank(url)
  {
    if IsBlank(url) then HttpBuilderKind else JdbcBuilderKind
  }

  /** `EWriteMode.INSERT.name()` or `EWriteMode.UPDATE.name()`. */
  const InsertMode: string := "INSERT"
  const UpdateMode: string := "UPDATE"

  /** The write mode of the JDBC path: INSERT without a unique key, UPDATE with one. */
  function WriteModeFor(uniqueKey: Option<seq<string>>): (mode: string)
    ensures mode == InsertMode <==> uniqueKey.None? || |uniqueKey.value| == 0
    ensures mode == UpdateMode <==> uniqueKey.Some? && |uniqueKey.value| > 0
  {
    if uniqueKey.None? || |uniqueKey.value| == 0 then InsertMode else UpdateMode
  }

  /** A column list lists the given fields: one entry per field name, in order, carrying the
      name, the summary string of the type at the same position of the row type, and the
      position itself. */
  predicate ListsFields(columnList: seq<FieldConf>, fieldNames: seq<string>, rowType: seq<LogicalType>) {
    |columnList| == |fieldNames| && |fieldNames| <= |rowType| &&
    forall i :: 0 <= i < |columnList| ==> columnList[i] == FieldConf(fieldNames[i], rowType[i].summary, i)
  }

  /** The `jdbcBuilder` loop: a FieldConf per field name, appended in order, typed by the row
      type at the same position. The row type must cover every field name, since the loop asks
      it for the type at each of their positions. */
  method BuildColumnList(fieldNames: seq<string>, rowType: seq<LogicalType>) returns (columnList: seq<FieldConf>)
    requires |fieldNames| <= |rowType|
    ensures ListsFields(columnList, fieldNames, rowType)
  {
    columnList := [];
    for i := 0 to |fieldNames|
      invariant |columnList| == i
      invariant forall k :: 0 <= k < i ==> columnList[k] == FieldConf(fieldNames[k], rowType[k].summary, k)
    {
      var field := FieldConf(fieldNames[i], rowType[i].summary, i);
      columnList := columnList + [field];
    }
  }

  /** The names listed by a column list, in order. */
  function ColumnNames(columns: seq<FieldConf>): (names: seq<string>)
    ensures |names| == |columns|
    ensures forall i :: 0 <= i < |columns| ==> names[i] == columns[i].name
  {
    seq(|columns|, i requires 0 <= i < |columns| => columns[i].name)
  }

  /** The column list is index-aligned with the schema: it names the schema's fields in order,
      and the position recorded in each entry finds that entry again. */
  lemma {:induction false} ColumnListAligned(columnList: seq<FieldConf>, fieldNames: seq<string>, rowType: seq<LogicalType>)
    requires ListsFields(columnList, fieldNames, rowType)
    ensures ColumnNames(columnList) == fieldNames
    ensures forall c :: c in columnList ==> 0 <= c.index < |columnList| && columnList[c.index] == c
  {
    forall c | c in columnList ensures 0 <= c.index < |columnList| && columnList[c.index] == c {
      var i :| 0 <= i < |columnList| && columnList[i] == c;
    }
  }

  /** `DorisHttpOutputFormatBuilder`, reduced to what `httpBuilder` sets on it. */
  class DorisHttpOutputFormatBuilder {
    var columns: seq<string>
    var config: object?
    var dorisOptions: DorisConf?
    var rowConverter: Option<RowConverter>

    constructor ()
      ensures columns == [] && config == null && dorisOptions == null && rowConverter == None
    {
      columns := [];
      config := null;
      dorisOptions := null;
      rowConverter := None;
    }
  }

  datatype SinkBuilder = HttpSink(http: DorisHttpOutputFormatBuilder) | JdbcSinkBuilder(jdbc: JdbcOutputFormatBuilder)

  class DorisDynamicTableSink {
    const physicalSchema: TableSchema
    const dorisConf: DorisConf
    /** The fields of the JDBC base sink: `dorisConf.setToJdbcConf()`, the MySQL dialect, and the
        schema passed up by the constructor. */
    const jdbcConf: JdbcConf
    const jdbcDialect: JdbcDialect
    const tableSchema: TableSchema

    /** The base sink's schema is the physical schema itself. */
    predicate Valid() {
      tableSchema == physicalSchema && jdbcDialect == MysqlDialect
    }

    /** `jdbcConf` stands for what `dorisConf.setToJdbcConf()` returns; that conversion is not
        part of this model. */
    constructor (physicalSchema: TableSchema, dorisConf: DorisConf, jdbcConf: JdbcConf)
      ensures Valid()
      ensures this.physicalSchema == physicalSchema && this.dorisConf == dorisConf && this.jdbcConf == jdbcConf
    {
      this.physicalSchema := physicalSchema;
      this.dorisConf := dorisConf;
      this.jdbcConf := jdbcConf;
      jdbcDialect := MysqlDialect;
      tableSchema := physicalSchema;
    }

    /** `getChangelogMode`: accepts whatever mode is requested. */
    function GetChangelogMode(requestedMode: ChangelogMode): (mode: ChangelogMode)
      ensures mode == requestedMode
    {
      requestedMode
    }

    /** `getSinkRuntimeProvider`, up to `builder.finish()`: for a blank url, the HTTP builder,
        leaving the JDBC conf untouched; otherwise the JDBC builder, after the column list and
        the write mode are installed on the JDBC conf. Both are built for the physical schema's
        row type. */
    method GetSinkRuntimeProvider() returns (builder: SinkBuilder)
      requires Valid()
      modifies jdbcConf
      ensures builder.HttpSink? <==> BuilderFor(old(dorisConf.url)) == HttpBuilderKind
      ensures builder.HttpSink? ==> fresh(builder.http) && unchanged(jdbcConf)
      ensures builder.HttpSink? ==> HttpBuilt(builder.http, RowTypeOf(physicalSchema))
      ensures builder.JdbcSinkBuilder? ==> fresh(builder.jdbc) && fresh(builder.jdbc.format)
      ensures builder.JdbcSinkBuilder? ==>
        JdbcConfPrepared(RowTypeOf(physicalSchema), old(jdbcConf.uniqueKey), old(jdbcConf.username),
          old(jdbcConf.password), old(jdbcConf.jdbcUrl))
      ensures builder.JdbcSinkBuilder? ==> JdbcBuilt(builder.jdbc, RowTypeOf(physicalSchema))
    {
      var rowType := RowTypeOf(physicalSchema);
      var url := dorisConf.url;
      if IsBlank(url) {
        var http := HttpBuilder(rowType);
        builder := HttpSink(http);
      } else {
        var jdbc := JdbcBuilder(rowType);
        builder := JdbcSinkBuilder(jdbc);
      }
    }

    /** What `httpBuilder` sets on its builder. */
    ghost predicate HttpBuilt(builder: DorisHttpOutputFormatBuilder, rowType: seq<LogicalType>)
      reads this, builder
    {
      builder.columns == FieldNames(physicalSchema) &&
      builder.config == dorisConf && builder.dorisOptions == dorisConf &&
      builder.rowConverter == Some(RowConverter("DorisHttpRowConverter", rowType))
    }

    /** The JDBC conf after `jdbcBuilder`: it lists the base schema's fields typed by `rowType`,
        its write mode follows the unique key, and its other settings are as they were. */
    ghost predicate JdbcConfPrepared(rowType: seq<LogicalType>, uniqueKey: Option<seq<string>>,
                                     username: JString, password: JString, jdbcUrl: JString)
      reads this, jdbcConf
    {
      ListsFields(jdbcConf.column, FieldNames(tableSchema), rowType) &&
      jdbcConf.mode == Some(WriteModeFor(uniqueKey)) && jdbcConf.uniqueKey == uniqueKey &&
      jdbcConf.username == username && jdbcConf.password == password && jdbcConf.jdbcUrl == jdbcUrl
    }

    /** What `jdbcBuilder` sets on its builder: the JDBC conf as config and on the format, the
        sink's dialect and a DorisJdbcRowConverter. */
    ghost predicate JdbcBuilt(builder: JdbcOutputFormatBuilder, rowType: seq<LogicalType>)
      reads this, builder, builder.format
    {
      builder.Valid() &&
      builder.config == jdbcConf && builder.format.jdbcConf == jdbcConf &&
      builder.format.dialect == Some(jdbcDialect) &&
      builder.format.rowConverter == Some(RowConverter("DorisJdbcRowConverter", rowType))
    }

    /** `httpBuilder`: the schema's field names as columns, the Doris conf as config and load
        options, and a DorisHttpRowConverter. */
    method HttpBuilder(rowType: seq<LogicalType>) returns (builder: DorisHttpOutputFormatBuilder)
      ensures fresh(builder)
      ensures HttpBuilt(builder, rowType)
    {
      builder := new DorisHttpOutputFormatBuilder();
      builder.columns := FieldNames(physicalSchema);
      builder.config := dorisConf;
      builder.dorisOptions := dorisConf;
      builder.rowConverter := Some(RowConverter("DorisHttpRowConverter", rowType));
    }

    /** `jdbcBuilder`: installs the column list and the write mode on the JDBC conf, then gives a
        fresh builder that conf (as config and on its format), the dialect and a
        DorisJdbcRowConverter. The Doris conf set first as config is replaced by the JDBC conf.
        The field names come from the base schema, the field types from `rowType`. */
    method JdbcBuilder(rowType: seq<LogicalType>) returns (builder: JdbcOutputFormatBuilder)
      requires Valid()
      requires |FieldNames(tableSchema)| <= |rowType|
      modifies jdbcConf
      ensures fresh(builder) && fresh(builder.format)
      ensures JdbcConfPrepared(rowType, old(jdbcConf.uniqueKey), old(jdbcConf.username),
        old(jdbcConf.password), old(jdbcConf.jdbcUrl))
      ensures JdbcBuilt(builder, rowType)
    {
      var format := new JdbcOutputFormat();
      builder := new JdbcOutputFormatBuilder(format);
      var columnList := BuildColumnList(FieldNames(tableSchema), rowType);
      jdbcConf.SetColumn(columnList);
      jdbcConf.SetMode(WriteModeFor(jdbcConf.uniqueKey));
      builder.SetConfig(dorisConf);
      builder.SetJdbcDialect(jdbcDialect);
      builder.SetJdbcConf(jdbcConf);
      builder.SetRowConverter(RowConverter("DorisJdbcRowConverter", rowType));
    }

    /** `copy`: a new sink over the same physical schema and the same Doris conf;
        `jdbcConfOfCopy` is what `setToJdbcConf` returns for the copy. */
    method Copy(jdbcConfOfCopy: JdbcConf) returns (sink: DorisDynamicTableSink)
      ensures fresh(sink) && sink.Valid()
      ensures sink.physicalSchema == physicalSchema && sink.dorisConf == dorisConf
    {
      sink := new DorisDynamicTableSink(physicalSchema, dorisConf, jdbcConfOfCopy);
    }

    function AsSummaryString(): string {
      "doris sink"
    }
  }
}
