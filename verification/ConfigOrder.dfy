/** The order of the top-level fields does not matter: with ordinary strings the text parses back whatever
    order its fields come in. */
module ConfigOrders {
  import opened Words
  import opened ConfigText
  import opened ConfigParsers
  import opened ConfigRoundTrips
  import opened ConfigExactness

  /** The fields of the configuration, and no others, in any order. */
  ghost predicate InSomeOrder(fs: seq<Field>, c: AppConfig) {
    forall f :: f in fs <==> f in TopFields(c)
  }

  function RenderIn(fs: seq<Field>): string {
    "{\n  " + FieldsText(fs, "\n  ") + "\n}"
  }

  ghost predicate OrdinaryStrings(c: AppConfig) {
    Ordinary(c.hugepagePath) && Ordinary(c.grpc.listenAddress)
  }

  lemma PermutationIsSomeOrder(fs: seq<Field>, c: AppConfig)
    requires multiset(fs) == multiset(TopFields(c))
    ensures InSomeOrder(fs, c)
  {
    forall f ensures f in fs <==> f in TopFields(c) {
      assert f in multiset(fs) <==> f in multiset(TopFields(c));
    }
  }

  lemma {:induction false} FirstAt(fs: seq<Field>, f: Field) returns (i: nat)
    requires f in fs
    ensures i < |fs| && fs[i] == f && forall j :: 0 <= j < i ==> fs[j] != f
  {
    if fs[0] == f {
      i := 0;
    } else {
      var j := FirstAt(fs[1..], f);
      i := j + 1;
      forall k | 0 <= k < i ensures fs[k] != f {
        if k > 0 { assert fs[k] == fs[1..][k - 1]; }
      }
    }
  }

  // ---------------------------------------------------------------- no field hides another's key

  lemma TopKeysDiffer(i: nat, k: nat)
    requires i < 9 && k < 9 && i != k
    ensures TOP[i] != TOP[k]
  {
    TopNames(i);
    TopNames(k);
  }

  lemma PortsHideNothing(ps: seq<PortConfig>, k: nat)
    requires k < 9
    ensures Transparent(ListText(PortTexts(ps)), TOP[k])
  {
    TopNames(k);
    forall i | 0 <= i < |ps| ensures Transparent(PortTexts(ps)[i], TOP[k]) {
      var fs := PortFields(ps[i]);
      PortNames(ps[i]);
      forall j | 0 <= j < |fs| ensures fs[j].key != TOP[k] && Transparent(fs[j].value, TOP[k]) {
        PlainTransparent(fs[j].value, TOP[k]);
        PortKeyIsInner(ps[i], j, k);
      }
      ObjectTransparent(fs, TOP[k], "\n      ", "\n    ");
    }
    ListTransparent(PortTexts(ps), TOP[k]);
  }

  lemma PortKeyIsInner(p: PortConfig, j: nat, k: nat)
    requires j < 5 && k < 9
    ensures PortFields(p)[j].key != TOP[k]
  {
    assert PortFields(p)[0].key == "port_id" && TOP[6][4] == 's' && TOP[1][1] == 'u';
    assert j > 0 ==> PortFields(p)[j].key[0] == 'n' && PortFields(p)[j].key[1] == 'b';
    TopInitials(k);
  }

  lemma TopInitials(k: nat)
    requires k < 9
    ensures TOP[k][0] == ['h', 'n', 'm', 'm', 't', 'r', 'p', 'c', 'g'][k]
  {
  }

  lemma MappingsHideNothing(ms: seq<CoreMapping>, k: nat)
    requires k < 9
    ensures Transparent(ListText(MappingTexts(ms)), TOP[k])
  {
    TopNames(k);
    forall i | 0 <= i < |ms| ensures Transparent(MappingTexts(ms)[i], TOP[k]) {
      var fs := MappingFields(ms[i]);
      MappingNames(ms[i]);
      forall j | 0 <= j < |fs| ensures fs[j].key != TOP[k] && Transparent(fs[j].value, TOP[k]) {
        PlainTransparent(fs[j].value, TOP[k]);
        MappingKeyIsInner(ms[i], j, k);
      }
      ObjectTransparent(fs, TOP[k], "\n      ", "\n    ");
    }
    ListTransparent(MappingTexts(ms), TOP[k]);
  }

  lemma MappingKeyIsInner(m: CoreMapping, j: nat, k: nat)
    requires j < 4 && k < 9
    ensures MappingFields(m)[j].key != TOP[k]
  {
    assert MappingFields(m)[0].key == "core_id" && MappingFields(m)[1].key == "port_id";
    assert MappingFields(m)[2].key[0] == 'q' && MappingFields(m)[3].key[0] == 'e';
    assert TOP[7][5] == 'm' && TOP[6][4] == 's';
    TopInitials(k);
  }

  lemma GrpcHidesNothing(g: GrpcConfig, k: nat)
    requires k < 9 && Ordinary(g.listenAddress)
    ensures Transparent(ObjectText(GrpcFields(g), "\n    ", "\n  "), TOP[k])
  {
    var fs := GrpcFields(g);
    TopNames(k);
    TopInitials(k);
    GrpcNames(g);
    assert TOP[k] in TOP && '"' !in g.listenAddress;
    assert |TOP[6]| == 5;
    forall j | 0 <= j < |fs| ensures fs[j].key != TOP[k] && Transparent(fs[j].value, TOP[k]) {
      if j == 0 {
        QuotedTransparent(g.listenAddress, TOP[k]);
      } else {
        DecimalPlain(g.port);
        PlainTransparent(fs[j].value, TOP[k]);
      }
    }
    ObjectTransparent(fs, TOP[k], "\n    ", "\n  ");
  }

  lemma HidesNothing(c: AppConfig, i: nat, k: nat)
    requires i < 9 && k < 9 && OrdinaryStrings(c)
    ensures Transparent(TopFields(c)[i].value, TOP[k])
  {
    TopNames(k);
    if i == 0 {
      assert TOP[k] in TOP && '"' !in c.hugepagePath;
      QuotedTransparent(c.hugepagePath, TOP[k]);
    } else if i < 6 {
      TopNumbers(c, i);
      PlainTransparent(TopFields(c)[i].value, TOP[k]);
    } else if i == 6 {
      PortsHideNothing(c.ports, k);
    } else if i == 7 {
      MappingsHideNothing(c.coreMappings, k);
    } else {
      GrpcHidesNothing(c.grpc, k);
    }
  }

  // ---------------------------------------------------------------- reading the fields

  /** A field's first position, with nothing before it that its key's search would stop at. */
  lemma ReachableIn(c: AppConfig, fs: seq<Field>, k: nat) returns (i: nat)
    requires k < 9 && OrdinaryStrings(c) && InSomeOrder(fs, c)
    ensures Reachable(fs, i) && fs[i] == TopFields(c)[k] && fs[i].key == TOP[k]
  {
    TopKeys(c);
    assert TopFields(c)[k] in fs;
    i := FirstAt(fs, TopFields(c)[k]);
    forall j | 0 <= j < |fs| ensures Name(fs[j].key) {
      var m := PlaceOf(c, fs, j);
      TopNames(m);
    }
    forall j | 0 <= j < i ensures fs[j].key != TOP[k] && Transparent(fs[j].value, TOP[k]) {
      var m := PlaceOf(c, fs, j);
      TopKeysDiffer(m, k);
      HidesNothing(c, m, k);
    }
  }

  lemma PlaceOf(c: AppConfig, fs: seq<Field>, j: nat) returns (m: nat)
    requires InSomeOrder(fs, c) && j < |fs|
    ensures m < 9 && fs[j] == TopFields(c)[m] && fs[j].key == TOP[m]
  {
    TopKeys(c);
    assert fs[j] in fs;
    m :| 0 <= m < |TopFields(c)| && TopFields(c)[m] == fs[j];
  }

  lemma RawIn(c: AppConfig, fs: seq<Field>, k: nat) returns (after: string)
    requires k < 9 && OrdinaryStrings(c) && InSomeOrder(fs, c)
    ensures Follows(after) && RawValue(RenderIn(fs), TOP[k]) == ValueText(TopFields(c)[k].value + after)
  {
    var i := ReachableIn(c, fs, k);
    TopValueStarts(c, k);
    after := FieldRaw("{\n  ", fs, i, "\n  ", "\n}");
  }

  lemma PathReads(c: AppConfig, fs: seq<Field>)
    requires OrdinaryStrings(c) && InSomeOrder(fs, c)
    ensures Or(StringAt(RenderIn(fs), "hugepage_path"), DEFAULT_CONFIG.hugepagePath) == c.hugepagePath
  {
    var after := RawIn(c, fs, 0);
    assert TopFields(c)[0].value == Quoted(c.hugepagePath) && TOP[0] == "hugepage_path" && '"' !in c.hugepagePath;
    OrdinaryQuotable(c.hugepagePath);
    QuotedReadsIff(c.hugepagePath, after);
  }

  lemma NumberReadsIn(c: AppConfig, fs: seq<Field>, k: nat)
    requires 1 <= k < 6 && OrdinaryStrings(c) && InSomeOrder(fs, c)
    ensures UintAt(RenderIn(fs), TOP[k]) == Some(TopNumber(c, k))
  {
    var after := RawIn(c, fs, k);
    TopNumbers(c, k);
    NumberValue(TopNumber(c, k), after);
  }

  lemma NumberFieldReads(c: AppConfig, fs: seq<Field>, s: string, k: nat, key: string, was: u32, n: u32)
    requires 1 <= k < 6 && OrdinaryStrings(c) && InSomeOrder(fs, c) && s == RenderIn(fs) && key == TOP[k]
    requires n == TopNumber(c, k)
    ensures U32Or(s, key, was) == n && (was < TWO_16 ==> U16Or(s, key, was) == n % TWO_16)
  {
    NumberReadsIn(c, fs, k);
    NumberOr(s, key, n, was);
  }

  lemma CoresReadIn(c: AppConfig, fs: seq<Field>, s: string)
    requires OrdinaryStrings(c) && InSomeOrder(fs, c) && s == RenderIn(fs)
    ensures U32Or(s, "num_cores", DEFAULT_CONFIG.numCores) == c.numCores
  {
    NumberFieldReads(c, fs, s, 1, "num_cores", DEFAULT_CONFIG.numCores, c.numCores);
  }

  lemma MbufsReadIn(c: AppConfig, fs: seq<Field>, s: string)
    requires OrdinaryStrings(c) && InSomeOrder(fs, c) && s == RenderIn(fs)
    ensures U32Or(s, "mbufs_per_socket", DEFAULT_CONFIG.mbufsPerSocket) == c.mbufsPerSocket
  {
    NumberFieldReads(c, fs, s, 2, "mbufs_per_socket", DEFAULT_CONFIG.mbufsPerSocket, c.mbufsPerSocket);
  }

  lemma CacheReadsIn(c: AppConfig, fs: seq<Field>, s: string)
    requires OrdinaryStrings(c) && InSomeOrder(fs, c) && s == RenderIn(fs)
    ensures U32Or(s, "mbuf_cache_size", DEFAULT_CONFIG.mbufCacheSize) == c.mbufCacheSize
  {
    NumberFieldReads(c, fs, s, 3, "mbuf_cache_size", DEFAULT_CONFIG.mbufCacheSize, c.mbufCacheSize);
  }

  lemma TxBurstReadsIn(c: AppConfig, fs: seq<Field>, s: string)
    requires OrdinaryStrings(c) && InSomeOrder(fs, c) && s == RenderIn(fs)
    ensures U16Or(s, "tx_burst_size", DEFAULT_CONFIG.txBurstSize) == c.txBurstSize
  {
    NumberFieldReads(c, fs, s, 4, "tx_burst_size", DEFAULT_CONFIG.txBurstSize, c.txBurstSize);
  }

  lemma RxBurstReadsIn(c: AppConfig, fs: seq<Field>, s: string)
    requires OrdinaryStrings(c) && InSomeOrder(fs, c) && s == RenderIn(fs)
    ensures U16Or(s, "rx_burst_size", DEFAULT_CONFIG.rxBurstSize) == c.rxBurstSize
  {
    NumberFieldReads(c, fs, s, 5, "rx_burst_size", DEFAULT_CONFIG.rxBurstSize, c.rxBurstSize);
  }

  lemma PortsReadIn(c: AppConfig, fs: seq<Field>)
    requires OrdinaryStrings(c) && InSomeOrder(fs, c)
    ensures PortsAt(RenderIn(fs)) == c.ports
  {
    assert TOP[6] == "ports" && TopFields(c)[6].value == ListText(PortTexts(c.ports));
    var after := RawIn(c, fs, 6);
    PortsRead(c.ports, after);
  }

  lemma MappingsReadIn(c: AppConfig, fs: seq<Field>)
    requires OrdinaryStrings(c) && InSomeOrder(fs, c)
    ensures MappingsAt(RenderIn(fs)) == c.coreMappings
  {
    assert TOP[7] == "core_mappings" && TopFields(c)[7].value == ListText(MappingTexts(c.coreMappings));
    var after := RawIn(c, fs, 7);
    MappingsRead(c.coreMappings, after);
  }

  lemma GrpcReads(c: AppConfig, fs: seq<Field>)
    requires OrdinaryStrings(c) && InSomeOrder(fs, c)
    ensures GrpcAt(RenderIn(fs)) == c.grpc
  {
    assert TOP[8] == "grpc_config";
    var after := RawIn(c, fs, 8);
    assert TopFields(c)[8].value == "{" + GrpcBody(c.grpc) + "}";
    GrpcWhole(c.grpc, after);
    GrpcTexts(c.grpc);
    OrdinaryQuotable(c.grpc.listenAddress);
    GrpcIntact(c.grpc, RenderIn(fs), "\n  }");
  }

  lemma GrpcWhole(g: GrpcConfig, after: string)
    requires Ordinary(g.listenAddress)
    ensures ValueText("{" + GrpcBody(g) + "}" + after) == "{" + GrpcBody(g) + "}" && '"' !in g.listenAddress
  {
    FreeIsBalanced(g.listenAddress, '{', '}', 1);
    BodyWalk(g);
    BracketValue(GrpcBody(g), after, '{', '}');
  }

  /** The order of the top-level fields does not matter, nor does repeating one: with ordinary strings, lists of
      any length and all numbers, every such text parses back to its configuration. */
  lemma RoundTripInAnyOrder(c: AppConfig, fs: seq<Field>, s: string)
    requires OrdinaryStrings(c) && InSomeOrder(fs, c) && s == RenderIn(fs)
    ensures ParseConfig(s) == c
  {
    PathReads(c, fs);
    CoresReadIn(c, fs, s);
    MbufsReadIn(c, fs, s);
    CacheReadsIn(c, fs, s);
    TxBurstReadsIn(c, fs, s);
    RxBurstReadsIn(c, fs, s);
    PortsReadIn(c, fs);
    MappingsReadIn(c, fs);
    GrpcReads(c, fs);
    ParsedFields(s, c);
  }

  /** In particular for every permutation of the fields. */
  lemma RoundTripOfPermutation(c: AppConfig, fs: seq<Field>, s: string)
    requires OrdinaryStrings(c) && multiset(fs) == multiset(TopFields(c)) && s == RenderIn(fs)
    ensures ParseConfig(s) == c
  {
    PermutationIsSomeOrder(fs, c);
    RoundTripInAnyOrder(c, fs, s);
  }
}
