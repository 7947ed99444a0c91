// internal/config: the checks of Validate, addresses and the names of acks and compression apart.
module Config {
  import opened Wrappers

  datatype Config = Config(
    maxQueue: int, dropIfQueueFull: bool, sampleRatio: real,
    writerWorkers: int, maxMessages: int, flushIntervalMs: int, maxBytes: int,
    topics: map<string, string>, partitionMode: string, schemaMode: string, schemaFormat: string,
    initialBackoff: int, maxBackoff: int, maxAttempts: int, jitter: bool,
    monitoring: bool, healthPort: int, metricsPort: int, pprof: bool, pprofPort: int)

  datatype ConfigError =
    | BadMaxQueue | BadSampleRatio | BadWriterWorkers | BadMaxMessages | BadFlushInterval | BadMaxBytes
    | NoTopics | BadPartitionMode | BadSchemaMode | BadSchemaFormat
    | BadInitialBackoff | BadMaxBackoff | BackoffOrder
    | BadHealthPort | BadMetricsPort | PortClash | BadPprofPort | PprofPortClash

  const PARTITION_MODES := {"deduplication", "fields_concat", "hash", "random"}
  const SCHEMA_MODES := {"stable_json", "raw_string_fallback"}
  const SCHEMA_FORMATS := {"json", "protobuf"}

  predicate IsPort(p: int) { 1 <= p <= 65535 }

  /** The checks in the order of the source; the first one that fails is reported. */
  function Validate(c: Config): (r: Result<(), ConfigError>)
    ensures r.Ok? <==> InRange(c)
    ensures r.Ok? <==>
      && 1 <= c.maxQueue <= 1_000_000 && 0.0 <= c.sampleRatio <= 1.0
      && 1 <= c.writerWorkers <= 1_000 && 1 <= c.maxMessages <= 100_000
      && 1 <= c.flushIntervalMs <= 60_000 && 1 <= c.maxBytes <= 104_857_600
      && |c.topics| > 0 && c.partitionMode in {"deduplication", "fields_concat", "hash", "random"}
      && c.schemaMode in {"stable_json", "raw_string_fallback"} && c.schemaFormat in {"", "json", "protobuf"}
      && 1 <= c.initialBackoff <= c.maxBackoff <= 3600
      && (c.monitoring ==>
            && 1 <= c.healthPort <= 65535 && 1 <= c.metricsPort <= 65535 && c.healthPort != c.metricsPort
            && (c.pprof ==> 1 <= c.pprofPort <= 65535 && c.pprofPort != c.healthPort && c.pprofPort != c.metricsPort))
  {
    if c.maxQueue <= 0 || c.maxQueue > 1000000 then Err(BadMaxQueue)
    else if c.sampleRatio < 0.0 || c.sampleRatio > 1.0 then Err(BadSampleRatio)
    else if c.writerWorkers <= 0 || c.writerWorkers > 1000 then Err(BadWriterWorkers)
    else if c.maxMessages <= 0 || c.maxMessages > 100000 then Err(BadMaxMessages)
    else if c.flushIntervalMs <= 0 || c.flushIntervalMs > 60000 then Err(BadFlushInterval)
    else if c.maxBytes <= 0 || c.maxBytes > 100 * 1024 * 1024 then Err(BadMaxBytes)
    else if |c.topics| == 0 then Err(NoTopics)
    else if c.partitionMode !in PARTITION_MODES then Err(BadPartitionMode)
    else if c.schemaMode !in SCHEMA_MODES then Err(BadSchemaMode)
    else if c.schemaFormat != "" && c.schemaFormat !in SCHEMA_FORMATS then Err(BadSchemaFormat)
    else if c.initialBackoff <= 0 || c.initialBackoff > 3600 then Err(BadInitialBackoff)
    else if c.maxBackoff <= 0 || c.maxBackoff > 3600 then Err(BadMaxBackoff)
    else if c.maxBackoff < c.initialBackoff then Err(BackoffOrder)
    else if c.monitoring then
      if !IsPort(c.healthPort) then Err(BadHealthPort)
      else if !IsPort(c.metricsPort) then Err(BadMetricsPort)
      else if c.healthPort == c.metricsPort then Err(PortClash)
      else if c.pprof && !IsPort(c.pprofPort) then Err(BadPprofPort)
      else if c.pprof && (c.pprofPort == c.healthPort || c.pprofPort == c.metricsPort) then Err(PprofPortClash)
      else Ok(())
    else Ok(())
  }

  /** What an accepted configuration guarantees to the rest of the program. */
  predicate InRange(c: Config) {
    && 1 <= c.maxQueue <= 1000000
    && 0.0 <= c.sampleRatio <= 1.0
    && 1 <= c.writerWorkers <= 1000
    && 1 <= c.maxMessages <= 100000
    && 1 <= c.flushIntervalMs <= 60000
    && 1 <= c.maxBytes <= 104857600
    && c.topics != map[] && c.partitionMode in PARTITION_MODES
    && c.schemaMode in SCHEMA_MODES && c.schemaFormat in SCHEMA_FORMATS + {""}
    && BackoffInRange(c.initialBackoff, c.maxBackoff)
    && (c.monitoring ==>
          && IsPort(c.healthPort) && IsPort(c.metricsPort) && c.healthPort != c.metricsPort
          && (c.pprof ==> IsPort(c.pprofPort) && c.pprofPort !in {c.healthPort, c.metricsPort}))
  }

  /** What an error says about the configuration. */
  predicate Fails(c: Config, e: ConfigError) {
    match e
    case BadMaxQueue => !(1 <= c.maxQueue <= 1_000_000)
    case BadSampleRatio => !(0.0 <= c.sampleRatio <= 1.0)
    case BadWriterWorkers => !(1 <= c.writerWorkers <= 1_000)
    case BadMaxMessages => !(1 <= c.maxMessages <= 100_000)
    case BadFlushInterval => !(1 <= c.flushIntervalMs <= 60_000)
    case BadMaxBytes => !(1 <= c.maxBytes <= 104_857_600)
    case NoTopics => c.topics == map[]
    case BadPartitionMode => c.partitionMode !in PARTITION_MODES
    case BadSchemaMode => c.schemaMode !in SCHEMA_MODES
    case BadSchemaFormat => c.schemaFormat !in SCHEMA_FORMATS + {""}
    case BadInitialBackoff => !(1 <= c.initialBackoff <= 3600)
    case BadMaxBackoff => !(1 <= c.maxBackoff <= 3600)
    case BackoffOrder => c.maxBackoff < c.initialBackoff
    case BadHealthPort => c.monitoring && !(1 <= c.healthPort <= 65535)
    case BadMetricsPort => c.monitoring && !(1 <= c.metricsPort <= 65535)
    case PortClash => c.monitoring && c.healthPort == c.metricsPort
    case BadPprofPort => c.monitoring && c.pprof && !(1 <= c.pprofPort <= 65535)
    case PprofPortClash => c.monitoring && c.pprof && c.pprofPort in {c.healthPort, c.metricsPort}
  }

  /** The order of the checks. */
  function Position(e: ConfigError): nat {
    match e
    case BadMaxQueue => 0
    case BadSampleRatio => 1
    case BadWriterWorkers => 2
    case BadMaxMessages => 3
    case BadFlushInterval => 4
    case BadMaxBytes => 5
    case NoTopics => 6
    case BadPartitionMode => 7
    case BadSchemaMode => 8
    case BadSchemaFormat => 9
    case BadInitialBackoff => 10
    case BadMaxBackoff => 11
    case BackoffOrder => 12
    case BadHealthPort => 13
    case BadMetricsPort => 14
    case PortClash => 15
    case BadPprofPort => 16
    case PprofPortClash => 17
  }

  /** The error reported is that of the first check that fails. */
  lemma ReportsFirstFailure(c: Config)
    ensures Validate(c).Err? ==>
              var e := Validate(c).error;
              Fails(c, e) && forall earlier | Position(earlier) < Position(e) :: !Fails(c, earlier)
  {
  }

  predicate BackoffInRange(initial: int, max: int) {
    1 <= initial <= max <= 3600
  }
}
