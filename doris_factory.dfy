/**
 * `DorisDynamicTableFactory`: validates that a url or a list of FE nodes is configured, copies
 * the options into a `DorisConf` and builds the sink; declares its options.
 */
module DorisFactory {
  import opened Wrappers
  import opened JavaLang
  import opened JdbcSink
  import opened DorisConfs
  import opened DorisSink

  const Identifier: string := "doris-x"

  /** `factoryIdentifier`. */
  function FactoryIdentifier(): string {
    Identifier
  }

  /** `getDialect`. */
  function GetDialect(): JdbcDialect {
    MysqlDialect
  }

  /** The message of the IllegalArgumentException raised when neither url nor feNodes is set. */
  const UrlOrFeNodesMessage: string :=
    "Choose one of 'url' and 'feNodes', them can not be empty at same time."

  datatype FactoryError = IllegalOption(message: string)

  /** `null == feNodes || feNodes.isEmpty()`. */
  predicate NoFeNodes(feNodes: Option<seq<string>>) {
    feNodes.None? || |feNodes.value| == 0
  }

  /** The url / feNodes check of `createDynamicTableSink`. The url is tested for emptiness, not
      for blankness. */
  function CheckUrlOrFeNodes(url: JString, feNodes: Option<seq<string>>): (r: Outcome<FactoryError>)
    ensures r.Fail? ==> r.error == IllegalOption(UrlOrFeNodesMessage)
  {
    if IsEmpty(url) && NoFeNodes(feNodes) then Fail(IllegalOption(UrlOrFeNodesMessage)) else Pass
  }

  /** Either setting alone is enough; the check fails only when both are missing. */
  lemma UrlOrFeNodesSuffices(url: JString, feNodes: Option<seq<string>>)
    ensures url.Some? && |url.value| > 0 ==> CheckUrlOrFeNodes(url, feNodes) == Pass
    ensures feNodes.Some? && |feNodes.value| > 0 ==> CheckUrlOrFeNodes(url, feNodes) == Pass
    ensures IsEmpty(url) && NoFeNodes(feNodes) ==> CheckUrlOrFeNodes(url, feNodes).Fail?
  {
  }

  /** A whitespace-only url with no FE nodes passes the factory's emptiness check, yet the sink
      treats it as absent and chooses the HTTP builder, which then has no FE node to load to. */
  lemma WhitespaceUrlPassesCheckButSelectsHttp(url: string)
    requires |url| > 0 && forall i :: 0 <= i < |url| ==> IsWhitespace(url[i])
    ensures CheckUrlOrFeNodes(Some(url), None) == Pass
    ensures BuilderFor(Some(url)) == HttpBuilderKind
  {
  }

  /** The JDBC path is taken only when the check passed on the url alone. */
  lemma JdbcPathImpliesCheckPasses(url: JString, feNodes: Option<seq<string>>)
    ensures BuilderFor(url) == JdbcBuilderKind ==> CheckUrlOrFeNodes(url, feNodes) == Pass
  {
    EmptyIsBlank(url);
  }

  /** `getLoadConf`: the load options, one setter each. */
  function GetLoadConf(config: DorisOptionValues): LoadConf {
    config.load
  }

  /** A Doris conf as `getConfByOptions` fills it from the options: database and table from
      SCHEMA and TABLE_NAME, url and feNodes as given, user name and password only when set,
      then the load settings, empty load properties, retries, write mode and batch size. */
  ghost predicate ConfBuiltFrom(conf: DorisConf, config: DorisOptionValues)
    reads conf
  {
    conf.feNodes == config.feNodes && conf.url == config.url &&
    conf.database == config.schema && conf.table == config.tableName &&
    conf.username == (if config.username.Some? then config.username else None) &&
    conf.password == (if config.password.Some? then config.password else None) &&
    conf.loadConf == Some(GetLoadConf(config)) && conf.loadProperties == map[] &&
    conf.maxRetries == config.maxRetries && conf.writeMode == config.writeMode &&
    conf.batchSize == config.batchSize
  }

  /** `getConfByOptions`: a fresh DorisConf built from the options. */
  method GetConfByOptions(config: DorisOptionValues) returns (conf: DorisConf)
    ensures fresh(conf)
    ensures ConfBuiltFrom(conf, config)
  {
    conf := new DorisConf();
    conf.feNodes := config.feNodes;
    conf.database := config.schema;
    conf.table := config.tableName;
    conf.url := config.url;
    conf.feNodes := config.feNodes;
    if config.username.Some? {
      conf.username := config.username;
    }
    if config.password.Some? {
      conf.password := config.password;
    }
    conf.loadConf := Some(GetLoadConf(config));
    conf.loadProperties := map[];
    conf.maxRetries := config.maxRetries;
    conf.writeMode := config.writeMode;
    conf.batchSize := config.batchSize;
  }

  /** `createDynamicTableSink`: the check runs first, so no DorisConf and no sink exist on
      failure; otherwise the sink holds the physical schema and a conf built from the options.
      `jdbcConf` stands for what `setToJdbcConf` returns for that conf. */
  method CreateDynamicTableSink(config: DorisOptionValues, physicalSchema: TableSchema, jdbcConf: JdbcConf)
    returns (r: Result<DorisDynamicTableSink, FactoryError>)
    ensures r.Failure? <==> IsEmpty(config.url) && NoFeNodes(config.feNodes)
    ensures r.Failure? ==> r.error == IllegalOption(UrlOrFeNodesMessage)
    ensures r.Success? ==> fresh(r.value) && fresh(r.value.dorisConf) && r.value.Valid()
    ensures r.Success? ==> r.value.physicalSchema == physicalSchema && r.value.jdbcConf == jdbcConf
    ensures r.Success? ==> ConfBuiltFrom(r.value.dorisConf, config)
  {
    var check := CheckUrlOrFeNodes(config.url, config.feNodes);
    if check.Fail? {
      return Failure(check.error);
    }
    var conf := GetConfByOptions(config);
    var sink := new DorisDynamicTableSink(physicalSchema, conf, jdbcConf);
    return Success(sink);
  }

  /** The option keys a table definition may use. Keys of the base JDBC factory are kept
      abstract. */
  datatype ConfigOption =
    | Username | Password | RequestTabletSize | RequestConnectTimeoutMs | RequestReadTimeoutMs
    | RequestQueryTimeoutSec | RequestRetries | RequestBatchSize | ExecMemLimit
    | DeserializeQueueSize | DeserializeArrowAsync | FieldDelimiter | LineDelimiter
    | MaxRetries | WriteMode | BatchSize
    | JdbcOption(key: string)

  /** The sixteen Doris options listed by `optionalOptions`. */
  const DorisOptionList: seq<ConfigOption> := [
    Username, Password, RequestTabletSize, RequestConnectTimeoutMs, RequestReadTimeoutMs,
    RequestQueryTimeoutSec, RequestRetries, RequestBatchSize, ExecMemLimit,
    DeserializeQueueSize, DeserializeArrowAsync, FieldDelimiter, LineDelimiter,
    MaxRetries, WriteMode, BatchSize]

  /** `requiredOptions`: nothing is required. */
  function RequiredOptions(): (options: set<ConfigOption>)
    ensures |options| == 0
  {
    {}
  }

  /** `optionalOptions`: the parent's optional set, grown in place by the Doris options and then
      by the parent's required options. */
  method OptionalOptions(parentOptional: set<ConfigOption>, parentRequired: set<ConfigOption>)
    returns (options: set<ConfigOption>)
    ensures forall o :: o in options <==> o in parentOptional || o in parentRequired || o in DorisOptionList
  {
    options := parentOptional;
    var optionalOptions := set o | o in DorisOptionList;
    options := options + optionalOptions;
    options := options + parentRequired;
  }

  /** A list without repetitions collects into a set of the same size. */
  lemma {:induction false} DistinctListCardinality(xs: seq<ConfigOption>)
    requires forall i, j :: 0 <= i < j < |xs| ==> xs[i] != xs[j]
    ensures |set o | o in xs| == |xs|
  {
    if |xs| > 0 {
      var rest := xs[1..];
      DistinctListCardinality(rest);
      assert (set o | o in xs) == {xs[0]} + (set o | o in rest);
      assert xs[0] !in (set o | o in rest);
    }
  }

  /** The sixteen Doris options are pairwise distinct, so the set `optionalOptions` collects them
      into has exactly sixteen members. */
  lemma DorisOptionsDistinct()
    ensures |DorisOptionList| == 16
    ensures forall i, j :: 0 <= i < j < |DorisOptionList| ==> DorisOptionList[i] != DorisOptionList[j]
    ensures |set o | o in DorisOptionList| == 16
  {
    DistinctListCardinality(DorisOptionList);
  }
}
