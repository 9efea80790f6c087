/**
 * The Doris connector's option values and the `DorisConf` they are copied into.
 */
module DorisConfs {
  import opened Wrappers
  import opened JavaLang

  /** The load settings `getLoadConf` reads, one per option. */
  datatype LoadConf = LoadConf(
    requestTabletSize: int,
    requestConnectTimeoutMs: int,
    requestReadTimeoutMs: int,
    requestQueryTimeoutSec: int,
    requestRetries: int,
    requestBatchSize: int,
    execMemLimit: int,
    deserializeQueueSize: int,
    deserializeArrowAsync: bool)

  /** What `config.get(option)` answers for each Doris option (after Flink applied defaults). */
  datatype DorisOptionValues = DorisOptionValues(
    url: JString,
    feNodes: Option<seq<string>>,
    schema: JString,
    tableName: JString,
    username: JString,
    password: JString,
    load: LoadConf,
    maxRetries: int,
    writeMode: JString,
    batchSize: int)

  /** The parts of `DorisConf` the factory fills and the sink reads. */
  class DorisConf {
    var feNodes: Option<seq<string>>
    var database: JString
    var table: JString
    var url: JString
    var username: JString
    var password: JString
    var loadConf: Option<LoadConf>
    var loadProperties: map<string, string>
    var maxRetries: int
    var writeMode: JString
    var batchSize: int

    /** `new DorisConf()`: DorisConf's own initial values are not part of this model; every
        reference field starts as null and every number as 0. */
    constructor ()
      ensures feNodes == None && database == None && table == None && url == None
      ensures username == None && password == None && loadConf == None
      ensures loadProperties == map[] && maxRetries == 0 && writeMode == None && batchSize == 0
    {
      feNodes := None;
      database := None;
      table := None;
      url := None;
      username := None;
      password := None;
      loadConf := None;
      loadProperties := map[];
      maxRetries := 0;
      writeMode := None;
      batchSize := 0;
    }
  }
}
