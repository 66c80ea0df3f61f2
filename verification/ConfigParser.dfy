/** The configuration, its parser and its validation. Every field keeps its default unless the text
    holds a usable value for it. */
module ConfigParsers {
  import opened Words
  import opened ConfigText

  datatype PortConfig = PortConfig(portId: u16, nbRxQueues: u16, nbTxQueues: u16, nbRxDesc: u16, nbTxDesc: u16)

  datatype CoreMapping = CoreMapping(coreId: u32, portId: u16, queueId: u16, enableRx: bool)

  datatype GrpcConfig = GrpcConfig(listenAddress: string, port: u16)

  datatype AppConfig = AppConfig(hugepagePath: string, numCores: u32, ports: seq<PortConfig>,
                                 coreMappings: seq<CoreMapping>, grpc: GrpcConfig, mbufsPerSocket: u32,
                                 mbufCacheSize: u32, txBurstSize: u16, rxBurstSize: u16)

  const DEFAULT_CONFIG := AppConfig("/mnt/huge", 2, [PortConfig(0, 1, 1, 1024, 1024)], [CoreMapping(1, 0, 0, false)],
                                    GrpcConfig("0.0.0.0", 50051), 8192, 512, 32, 32)

  // ---------------------------------------------------------------- values

  function LeadingDigits(s: string): (d: string)
    ensures forall i :: 0 <= i < |d| ==> IsDigit(d[i])
  {
    if s != [] && IsDigit(s[0]) then [s[0]] + LeadingDigits(s[1..]) else []
  }

  function DigitValue(c: char): (n: nat)
    requires IsDigit(c)
    ensures n < 10
  {
    c as int - '0' as int
  }

  function DecimalValue(d: string): nat
    requires forall i :: 0 <= i < |d| ==> IsDigit(d[i])
  {
    if d == [] then 0 else 10 * DecimalValue(d[..|d| - 1]) + DigitValue(d[|d| - 1])
  }

  /** `strtoull` in base 10: leading space and a sign are taken, an overflow saturates, a minus negates
      modulo 2^64. */
  function StrToULL(s: string): Option<u64> {
    var t := SkipSpace(s);
    var signed := t != [] && t[0] in {'+', '-'};
    var d := LeadingDigits(if signed then t[1..] else t);
    if d == [] then None
    else if DecimalValue(d) >= TWO_64 then Some(TWO_64 - 1)
    else if signed && t[0] == '-' then Some((TWO_64 - DecimalValue(d)) % TWO_64)
    else Some(DecimalValue(d))
  }

  function StringAt(json: string, key: string): Option<string> {
    var raw := RawValue(json, key);
    if raw == [] || raw[0] != '"' || |raw| < 2 then None else Some(raw[1..|raw| - 1])
  }

  function UintAt(json: string, key: string): Option<u64> {
    StrToULL(RawValue(json, key))
  }

  function BoolAt(json: string, key: string): Option<bool> {
    var raw := RawValue(json, key);
    if Seek(raw, "true") != [] then Some(true) else if Seek(raw, "false") != [] then Some(false) else None
  }

  function Or<T>(value: Option<T>, was: T): T {
    if value.Some? then value.value else was
  }

  /** A number of the text, narrowed to the field's width. */
  function U16Or(json: string, key: string, was: u16): u16 {
    var v := UintAt(json, key);
    if v.Some? then v.value % TWO_16 else was
  }

  function U32Or(json: string, key: string, was: u32): u32 {
    var v := UintAt(json, key);
    if v.Some? then v.value % TWO_32 else was
  }

  /** The text of an array value. */
  function ArrayAt(json: string, key: string): Option<string> {
    var raw := RawValue(json, key);
    if raw == [] || raw[0] != '[' then None else Some(raw)
  }

  function PortOf(obj: string): PortConfig {
    PortConfig(U16Or(obj, "port_id", 0), U16Or(obj, "nb_rx_queues", 0), U16Or(obj, "nb_tx_queues", 0),
               U16Or(obj, "nb_rx_desc", 0), U16Or(obj, "nb_tx_desc", 0))
  }

  function MappingOf(obj: string): CoreMapping {
    CoreMapping(U32Or(obj, "core_id", 0), U16Or(obj, "port_id", 0), U16Or(obj, "queue_id", 0),
                Or(BoolAt(obj, "enable_rx"), false))
  }

  function PortsOf(objs: seq<string>): (ps: seq<PortConfig>)
    ensures |ps| == |objs| && forall i :: 0 <= i < |objs| ==> ps[i] == PortOf(objs[i])
  {
    seq(|objs|, i requires 0 <= i < |objs| => PortOf(objs[i]))
  }

  function MappingsOf(objs: seq<string>): (ms: seq<CoreMapping>)
    ensures |ms| == |objs| && forall i :: 0 <= i < |objs| ==> ms[i] == MappingOf(objs[i])
  {
    seq(|objs|, i requires 0 <= i < |objs| => MappingOf(objs[i]))
  }

  function PortsAt(json: string): seq<PortConfig> {
    var text := ArrayAt(json, "ports");
    if text.Some? then PortsOf(Objects(text.value)) else DEFAULT_CONFIG.ports
  }

  function MappingsAt(json: string): seq<CoreMapping> {
    var text := ArrayAt(json, "core_mappings");
    if text.Some? then MappingsOf(Objects(text.value)) else DEFAULT_CONFIG.coreMappings
  }

  function GrpcAt(json: string): GrpcConfig {
    var obj := RawValue(json, "grpc_config");
    if obj != [] && obj[0] == '{' then
      GrpcConfig(Or(StringAt(obj, "listen_address"), DEFAULT_CONFIG.grpc.listenAddress),
                 U16Or(obj, "port", DEFAULT_CONFIG.grpc.port))
    else DEFAULT_CONFIG.grpc
  }

  /** The configuration a text stands for. */
  function ParseConfig(json: string): AppConfig {
    AppConfig(Or(StringAt(json, "hugepage_path"), DEFAULT_CONFIG.hugepagePath),
              U32Or(json, "num_cores", DEFAULT_CONFIG.numCores),
              PortsAt(json), MappingsAt(json), GrpcAt(json),
              U32Or(json, "mbufs_per_socket", DEFAULT_CONFIG.mbufsPerSocket),
              U32Or(json, "mbuf_cache_size", DEFAULT_CONFIG.mbufCacheSize),
              U16Or(json, "tx_burst_size", DEFAULT_CONFIG.txBurstSize),
              U16Or(json, "rx_burst_size", DEFAULT_CONFIG.rxBurstSize))
  }

  // ---------------------------------------------------------------- the parser

  method ParseString(json: string, key: string, was: string) returns (ok: bool, out: string)
    ensures ok <==> StringAt(json, key).Some?
    ensures out == Or(StringAt(json, key), was)
  {
    var raw := FindRawValue(json, key);
    if raw == [] || raw[0] != '"' || |raw| < 2 {
      return false, was;
    }
    return true, raw[1..|raw| - 1];
  }

  method ParseU16(json: string, key: string, was: u16) returns (ok: bool, out: u16)
    ensures ok <==> UintAt(json, key).Some?
    ensures out == U16Or(json, key, was)
  {
    var raw := FindRawValue(json, key);
    var v := StrToULL(raw);
    if v.None? {
      return false, was;
    }
    return true, v.value % TWO_16;
  }

  method ParseU32(json: string, key: string, was: u32) returns (ok: bool, out: u32)
    ensures ok <==> UintAt(json, key).Some?
    ensures out == U32Or(json, key, was)
  {
    var raw := FindRawValue(json, key);
    var v := StrToULL(raw);
    if v.None? {
      return false, was;
    }
    return true, v.value % TWO_32;
  }

  method ParseBool(json: string, key: string, was: bool) returns (ok: bool, out: bool)
    ensures ok <==> BoolAt(json, key).Some?
    ensures out == Or(BoolAt(json, key), was)
  {
    var raw := FindRawValue(json, key);
    assert raw[0..] == raw;
    var yes := Find(raw, "true", 0);
    if yes.Some? {
      return true, true;
    }
    var no := Find(raw, "false", 0);
    if no.Some? {
      return true, false;
    }
    return false, was;
  }

  method ParsePort(obj: string) returns (p: PortConfig)
    ensures p == PortOf(obj)
  {
    p := PortConfig(0, 0, 0, 0, 0);
    var _, portId := ParseU16(obj, "port_id", p.portId);
    var _, nbRxQueues := ParseU16(obj, "nb_rx_queues", p.nbRxQueues);
    var _, nbTxQueues := ParseU16(obj, "nb_tx_queues", p.nbTxQueues);
    var _, nbRxDesc := ParseU16(obj, "nb_rx_desc", p.nbRxDesc);
    var _, nbTxDesc := ParseU16(obj, "nb_tx_desc", p.nbTxDesc);
    p := PortConfig(portId, nbRxQueues, nbTxQueues, nbRxDesc, nbTxDesc);
  }

  method ParseMapping(obj: string) returns (m: CoreMapping)
    ensures m == MappingOf(obj)
  {
    m := CoreMapping(0, 0, 0, false);
    var _, coreId := ParseU32(obj, "core_id", m.coreId);
    var _, portId := ParseU16(obj, "port_id", m.portId);
    var _, queueId := ParseU16(obj, "queue_id", m.queueId);
    var _, enableRx := ParseBool(obj, "enable_rx", m.enableRx);
    m := CoreMapping(coreId, portId, queueId, enableRx);
  }

  method ParsePorts(objs: seq<string>) returns (ports: seq<PortConfig>)
    ensures ports == PortsOf(objs)
  {
    ports := [];
    var i := 0;
    while i < |objs|
      invariant 0 <= i <= |objs| && |ports| == i
      invariant forall k :: 0 <= k < i ==> ports[k] == PortOf(objs[k])
    {
      var p := ParsePort(objs[i]);
      ports := ports + [p];
      i := i + 1;
    }
  }

  method ParseMappings(objs: seq<string>) returns (mappings: seq<CoreMapping>)
    ensures mappings == MappingsOf(objs)
  {
    mappings := [];
    var i := 0;
    while i < |objs|
      invariant 0 <= i <= |objs| && |mappings| == i
      invariant forall k :: 0 <= k < i ==> mappings[k] == MappingOf(objs[k])
    {
      var m := ParseMapping(objs[i]);
      mappings := mappings + [m];
      i := i + 1;
    }
  }

  method ParseFromString(json: string) returns (ok: bool, cfg: AppConfig)
    ensures ok && cfg == ParseConfig(json)
  {
    cfg := DEFAULT_CONFIG;
    var _, hugepagePath := ParseString(json, "hugepage_path", cfg.hugepagePath);
    var _, numCores := ParseU32(json, "num_cores", cfg.numCores);
    var _, mbufsPerSocket := ParseU32(json, "mbufs_per_socket", cfg.mbufsPerSocket);
    var _, mbufCacheSize := ParseU32(json, "mbuf_cache_size", cfg.mbufCacheSize);
    var _, txBurstSize := ParseU16(json, "tx_burst_size", cfg.txBurstSize);
    var _, rxBurstSize := ParseU16(json, "rx_burst_size", cfg.rxBurstSize);
    cfg := cfg.(hugepagePath := hugepagePath, numCores := numCores, mbufsPerSocket := mbufsPerSocket,
                mbufCacheSize := mbufCacheSize, txBurstSize := txBurstSize, rxBurstSize := rxBurstSize);
    cfg := ParseLists(json, cfg);
    var obj := FindRawValue(json, "grpc_config");
    if obj != [] && obj[0] == '{' {
      var _, listenAddress := ParseString(obj, "listen_address", cfg.grpc.listenAddress);
      var _, port := ParseU16(obj, "port", cfg.grpc.port);
      cfg := cfg.(grpc := GrpcConfig(listenAddress, port));
    }
    ok := true;
  }

  /** The two arrays: an array in the text replaces the default list, even by an empty one. */
  method ParseLists(json: string, was: AppConfig) returns (cfg: AppConfig)
    requires was.ports == DEFAULT_CONFIG.ports && was.coreMappings == DEFAULT_CONFIG.coreMappings
    ensures cfg == was.(ports := PortsAt(json), coreMappings := MappingsAt(json))
  {
    cfg := was;
    var text := FindRawValue(json, "ports");
    if text != [] && text[0] == '[' {
      var objs := SplitObjects(text);
      var ports := ParsePorts(objs);
      cfg := cfg.(ports := ports);
    }
    text := FindRawValue(json, "core_mappings");
    if text != [] && text[0] == '[' {
      var objs := SplitObjects(text);
      var mappings := ParseMappings(objs);
      cfg := cfg.(coreMappings := mappings);
    }
  }

  // ---------------------------------------------------------------- validation

  ghost predicate Valid(c: AppConfig) {
    && c.numCores != 0 && c.ports != [] && c.coreMappings != []
    && (forall p :: p in c.ports ==> (p.nbRxQueues != 0 || p.nbTxQueues != 0) && p.nbRxDesc != 0 && p.nbTxDesc != 0)
    && forall m :: m in c.coreMappings ==> exists p :: p in c.ports && p.portId == m.portId
  }

  method ValidateConfig(c: AppConfig) returns (ok: bool)
    ensures ok <==> Valid(c)
  {
    if c.numCores == 0 || c.ports == [] || c.coreMappings == [] {
      return false;
    }
    for i := 0 to |c.ports|
      invariant forall k :: 0 <= k < i ==>
        (c.ports[k].nbRxQueues != 0 || c.ports[k].nbTxQueues != 0) && c.ports[k].nbRxDesc != 0
        && c.ports[k].nbTxDesc != 0
    {
      var p := c.ports[i];
      if p.nbRxQueues == 0 && p.nbTxQueues == 0 {
        return false;
      }
      if p.nbRxDesc == 0 || p.nbTxDesc == 0 {
        return false;
      }
    }
    for i := 0 to |c.coreMappings|
      invariant forall k :: 0 <= k < i ==> exists p :: p in c.ports && p.portId == c.coreMappings[k].portId
    {
      var found := PortExists(c.ports, c.coreMappings[i].portId);
      if !found {
        return false;
      }
    }
    ok := true;
  }

  method PortExists(ports: seq<PortConfig>, portId: u16) returns (found: bool)
    ensures found <==> exists p :: p in ports && p.portId == portId
  {
    found := false;
    var j := 0;
    while j < |ports|
      invariant 0 <= j <= |ports|
      invariant forall k :: 0 <= k < j ==> ports[k].portId != portId
    {
      if ports[j].portId == portId {
        return true;
      }
      j := j + 1;
    }
  }
}
