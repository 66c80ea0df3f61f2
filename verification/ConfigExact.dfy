/** Exactly when the canonical text of a configuration parses back to it, for strings without quotes. */
module ConfigExactness {
  import opened Words
  import opened ConfigText
  import opened ConfigParsers
  import opened ConfigRoundTrips

  // ---------------------------------------------------------------- strings

  lemma {:induction false} QuoteEndBeyond(s: string, i: nat, j: nat)
    requires 1 <= i <= j && (QuoteEnd(s, i).Some? ==> QuoteEnd(s, i).value != j)
    requires forall k :: i <= k < j && k < |s| ==> s[k] != '"'
    ensures QuoteEnd(s, i).Some? ==> QuoteEnd(s, i).value > j
    decreases |s| - i
  {
    if i < j && i < |s| {
      QuoteEndBeyond(s, i + 1, j);
    }
  }

  /** A quoted value without quotes inside reads back exactly when it does not end in a backslash. */
  lemma QuotedReadsIff(w: string, after: string)
    requires '"' !in w
    ensures var v := ValueText(Quoted(w) + after);
            (v != [] && v[1..|v| - 1] == w) <==> Quotable(w)
    ensures var v := ValueText(Quoted(w) + after);
            v == [] || (|v| >= 2 && v[0] == '"')
  {
    var s, v := Quoted(w) + after, ValueText(Quoted(w) + after);
    assert s[0] == '"';
    if Quotable(w) {
      QuotedValue(w, after);
      assert v[1..|v| - 1] == w;
    } else {
      forall k | 1 <= k < |w| + 1 ensures s[k] != '"' {
        assert s[k] == w[k - 1] && w[k - 1] in w;
      }
      assert s[|w|] == w[|w| - 1] == '\\';
      NotEndingAt(s, 1, |w| + 1);
      QuoteEndBeyond(s, 1, |w| + 1);
    }
  }

  lemma {:induction false} NotEndingAt(s: string, i: nat, j: nat)
    requires 1 <= i <= j < |s| && s[j - 1] == '\\'
    ensures QuoteEnd(s, i).Some? ==> QuoteEnd(s, i).value != j
    decreases |s| - i
  {
    if i < j {
      NotEndingAt(s, i + 1, j);
    }
  }

  // ---------------------------------------------------------------- a value that looks like a key

  /** When the first value is the name of a later key, that key's search stops at the value, and reads the
      value of the field that comes next. */
  lemma FirstValueIsKey(pre: string, fs: seq<Field>, key: string, sep: string, rest: string) returns (after: string)
    requires |fs| >= 2 && AllNamed(fs) && Separator(sep) && ':' !in sep && Follows(rest) && '"' !in pre
    requires Name(key) && fs[0].key != key && fs[0].value == Quoted(key)
    requires fs[1].value != [] && !IsSpace(fs[1].value[0])
    ensures Follows(after) && RawValue(pre + FieldsText(fs, sep) + rest, key) == ValueText(fs[1].value + after)
  {
    after := MoreFields(fs[2..], sep) + rest;
    MoreFollows(fs[2..], sep, rest);
    SeekFirstValue(pre, fs, key, sep, rest);
    ColonOfNext(fs, key, sep, rest);
  }

  lemma SeekFirstValue(pre: string, fs: seq<Field>, key: string, sep: string, rest: string)
    requires fs != [] && '"' !in pre && Name(key) && Name(fs[0].key) && fs[0].key != key && fs[0].value == Quoted(key)
    ensures Seek(pre + FieldsText(fs, sep) + rest, KeyPattern(key)) == Quoted(key) + (MoreFields(fs[1..], sep) + rest)
  {
    var tail := MoreFields(fs[1..], sep) + rest;
    FieldsFrom(fs, 0, sep, rest);
    assert fs[0..] == fs && pre + FieldsText(fs, sep) + rest == pre + (FieldsText(fs, sep) + rest);
    SeekSkips(pre, KeyPattern(key), FieldsText(fs, sep) + rest);
    KeySkipped(fs[0].key, key, ": " + (Quoted(key) + tail));
    SeekSkips(": ", KeyPattern(key), Quoted(key) + tail);
    assert (Quoted(key) + tail)[..|key| + 2] == KeyPattern(key);
  }

  lemma ColonOfNext(fs: seq<Field>, key: string, sep: string, rest: string)
    requires |fs| >= 2 && Name(key) && Name(fs[1].key) && ':' !in sep && fs[1].value != [] && !IsSpace(fs[1].value[0])
    ensures var c := Seek(Quoted(key) + (MoreFields(fs[1..], sep) + rest), ":");
            c != [] && SkipSpace(c[1..]) == fs[1].value + (MoreFields(fs[2..], sep) + rest)
  {
    var value := fs[1].value + (MoreFields(fs[2..], sep) + rest);
    MoreFrom(fs[1..], sep, rest);
    FieldsFrom(fs, 1, sep, rest);
    assert value[0] == fs[1].value[0];
    NextColon(key, fs[1].key, sep, value);
  }

  lemma NextColon(key: string, next: string, sep: string, value: string)
    requires Name(key) && Name(next) && ':' !in sep && value != [] && !IsSpace(value[0])
    ensures var c := Seek(Quoted(key) + (("," + sep) + (Quoted(next) + (": " + value))), ":");
            c != [] && SkipSpace(c[1..]) == value
  {
    NoColon(key);
    NoColon(next);
    SeekSkips(Quoted(key), ":", ("," + sep) + (Quoted(next) + (": " + value)));
    SeekSkips("," + sep, ":", Quoted(next) + (": " + value));
    SeekSkips(Quoted(next), ":", ": " + value);
    var c := ": " + value;
    assert ":" <= c && c[1..] == " " + value && (" " + value)[1..] == value;
  }

  lemma NoColon(key: string)
    requires Name(key)
    ensures ':' !in Quoted(key)
  {
    forall c | c in Quoted(key) ensures c != ':' {
      var i :| 0 <= i < |Quoted(key)| && Quoted(key)[i] == c;
      if 0 < i <= |key| { assert NameChar(key[i - 1]); }
    }
  }

  // ---------------------------------------------------------------- the top level

  const TOP: seq<string> := ["hugepage_path", "num_cores", "mbufs_per_socket", "mbuf_cache_size", "tx_burst_size",
                             "rx_burst_size", "ports", "core_mappings", "grpc_config"]

  lemma TopNames(k: nat)
    requires k < 9
    ensures Name(TOP[k]) && forall i :: 0 <= i < k ==> TOP[i] != TOP[k]
  {
    assert TOP[0][0] == 'h' && TOP[1][0] == 'n' && TOP[2][0] == 'm' && TOP[3][0] == 'm' && TOP[4][0] == 't';
    assert TOP[5][0] == 'r' && TOP[6][0] == 'p' && TOP[7][0] == 'c' && TOP[8][0] == 'g';
    assert TOP[2][4] == 's' && TOP[3][4] == '_';
  }

  lemma TopKeys(c: AppConfig)
    ensures |TopFields(c)| == 9 && forall k :: 0 <= k < 9 ==> TopFields(c)[k].key == TOP[k]
  {
  }

  lemma TopText(c: AppConfig)
    ensures Render(c) == "{\n  " + FieldsText(TopFields(c), "\n  ") + "\n}"
  {
  }

  ghost predicate QuoteFree(c: AppConfig) {
    '"' !in c.hugepagePath && '"' !in c.grpc.listenAddress
  }

  // ---------------------------------------------------------------- transparency of the lists

  lemma PortsTransparent(ps: seq<PortConfig>, key: string)
    requires key == "core_mappings" || key == "grpc_config"
    ensures Transparent(ListText(PortTexts(ps)), key)
  {
    TopNames(7);
    TopNames(8);
    forall i | 0 <= i < |ps| ensures Transparent(PortTexts(ps)[i], key) {
      var fs := PortFields(ps[i]);
      PortNames(ps[i]);
      forall j | 0 <= j < |fs| ensures fs[j].key != key && Transparent(fs[j].value, key) {
        PlainTransparent(fs[j].value, key);
        assert fs[j].key[0] == 'p' || fs[j].key[0] == 'n';
      }
      ObjectTransparent(fs, key, "\n      ", "\n    ");
    }
    ListTransparent(PortTexts(ps), key);
  }

  lemma MappingsTransparent(ms: seq<CoreMapping>)
    ensures Transparent(ListText(MappingTexts(ms)), "grpc_config")
  {
    TopNames(8);
    forall i | 0 <= i < |ms| ensures Transparent(MappingTexts(ms)[i], "grpc_config") {
      var fs := MappingFields(ms[i]);
      MappingNames(ms[i]);
      forall j | 0 <= j < |fs| ensures fs[j].key != "grpc_config" && Transparent(fs[j].value, "grpc_config") {
        PlainTransparent(fs[j].value, "grpc_config");
        assert fs[j].key[0] == 'p' || fs[j].key[0] == 'c' || fs[j].key[0] == 'q' || fs[j].key[0] == 'e';
      }
      ObjectTransparent(fs, "grpc_config", "\n      ", "\n    ");
    }
    ListTransparent(MappingTexts(ms), "grpc_config");
  }

  /** Nothing hides a top-level key but a path that reads like it. */
  lemma TopReachable(c: AppConfig, k: nat)
    requires k < 9 && '"' !in c.hugepagePath && (k == 0 || c.hugepagePath != TOP[k])
    ensures Reachable(TopFields(c), k)
  {
    var fs := TopFields(c);
    TopKeys(c);
    forall j | 0 <= j < 9 ensures Name(fs[j].key) {
      TopNames(j);
    }
    TopNames(k);
    forall i | 0 <= i < k ensures fs[i].key != fs[k].key && Transparent(fs[i].value, fs[k].key) {
      TopTransparent(c, i, k);
    }
  }

  lemma TopTransparent(c: AppConfig, i: nat, k: nat)
    requires i < k < 9 && '"' !in c.hugepagePath && c.hugepagePath != TOP[k]
    ensures Transparent(TopFields(c)[i].value, TOP[k])
  {
    TopNames(k);
    if i == 0 {
      QuotedTransparent(c.hugepagePath, TOP[k]);
    } else if i < 6 {
      TopNumbers(c, i);
      PlainTransparent(TopFields(c)[i].value, TOP[k]);
    } else if i == 6 {
      PortsTransparent(c.ports, TOP[k]);
    } else {
      MappingsTransparent(c.coreMappings);
    }
  }

  /** The numeric top-level fields. */
  function TopNumber(c: AppConfig, k: nat): u32
    requires 1 <= k < 6
  {
    if k == 1 then c.numCores else if k == 2 then c.mbufsPerSocket else if k == 3 then c.mbufCacheSize
    else if k == 4 then c.txBurstSize else c.rxBurstSize
  }

  lemma TopNumbers(c: AppConfig, k: nat)
    requires 1 <= k < 6
    ensures TopFields(c)[k].value == Decimal(TopNumber(c, k)) && '"' !in TopFields(c)[k].value
  {
    DecimalPlain(TopNumber(c, k));
  }

  lemma TopValueStarts(c: AppConfig, k: nat)
    requires k < 9
    ensures TopFields(c)[k].value != [] && !IsSpace(TopFields(c)[k].value[0])
  {
    if 1 <= k < 6 {
      TopNumbers(c, k);
      assert IsDigit(Decimal(TopNumber(c, k))[0]);
    } else {
      assert TopFields(c)[k].value[0] in {'"', '[', '{'};
    }
  }

  lemma TopRaw(c: AppConfig, k: nat) returns (after: string)
    requires k < 9 && '"' !in c.hugepagePath && (k == 0 || c.hugepagePath != TOP[k])
    ensures after == MoreFields(TopFields(c)[k + 1..], "\n  ") + "\n}" && Follows(after)
    ensures RawValue(Render(c), TOP[k]) == ValueText(TopFields(c)[k].value + after)
  {
    TopText(c);
    TopKeys(c);
    TopReachable(c, k);
    TopValueStarts(c, k);
    after := FieldRaw("{\n  ", TopFields(c), k, "\n  ", "\n}");
  }

  /** A path that reads like a later key makes that key read the core count. */
  lemma MisreadRaw(c: AppConfig, k: nat) returns (after: string)
    requires 1 <= k < 9 && c.hugepagePath == TOP[k]
    ensures Follows(after) && RawValue(Render(c), TOP[k]) == ValueText(Decimal(c.numCores) + after)
  {
    var fs := TopFields(c);
    TopText(c);
    TopKeys(c);
    forall j | 0 <= j < 9 ensures Name(fs[j].key) {
      TopNames(j);
    }
    TopNames(k);
    TopValueStarts(c, 1);
    after := FirstValueIsKey("{\n  ", fs, TOP[k], "\n  ", "\n}");
  }

  /** What a numeric top-level key reads as. */
  lemma TopNumberReads(c: AppConfig, k: nat)
    requires 1 <= k < 6 && '"' !in c.hugepagePath
    ensures UintAt(Render(c), TOP[k]) == Some(if c.hugepagePath == TOP[k] then c.numCores else TopNumber(c, k))
  {
    if c.hugepagePath == TOP[k] {
      var after := MisreadRaw(c, k);
      NumberValue(c.numCores, after);
    } else {
      var after := TopRaw(c, k);
      TopNumbers(c, k);
      NumberValue(TopNumber(c, k), after);
    }
  }

  /** The path reads back exactly when it does not end in a backslash. */
  lemma PathReadsIff(c: AppConfig)
    requires '"' !in c.hugepagePath
    ensures Or(StringAt(Render(c), "hugepage_path"), DEFAULT_CONFIG.hugepagePath) == c.hugepagePath
            <==> Quotable(c.hugepagePath)
  {
    var w := c.hugepagePath;
    var after := TopRaw(c, 0);
    assert TopFields(c)[0].value == Quoted(w) && TOP[0] == "hugepage_path";
    QuotedReadsIff(w, after);
    assert DEFAULT_CONFIG.hugepagePath[|DEFAULT_CONFIG.hugepagePath| - 1] == 'e';
  }

  lemma BareStarts(n: u32, after: string)
    requires Follows(after)
    ensures var v := ValueText(Decimal(n) + after); v != [] && IsDigit(v[0])
  {
    BareValue(Decimal(n), after);
  }

  lemma PortsReadAs(c: AppConfig)
    requires '"' !in c.hugepagePath
    ensures PortsAt(Render(c)) == if c.hugepagePath == "ports" then DEFAULT_CONFIG.ports else c.ports
  {
    assert TOP[6] == "ports";
    if c.hugepagePath == "ports" {
      var after := MisreadRaw(c, 6);
      BareStarts(c.numCores, after);
    } else {
      var after := TopRaw(c, 6);
      PortsRead(c.ports, after);
    }
  }

  lemma MappingsReadAs(c: AppConfig)
    requires '"' !in c.hugepagePath
    ensures MappingsAt(Render(c))
            == if c.hugepagePath == "core_mappings" then DEFAULT_CONFIG.coreMappings else c.coreMappings
  {
    assert TOP[7] == "core_mappings";
    if c.hugepagePath == "core_mappings" {
      var after := MisreadRaw(c, 7);
      BareStarts(c.numCores, after);
    } else {
      var after := TopRaw(c, 7);
      MappingsRead(c.coreMappings, after);
    }
  }

  // ---------------------------------------------------------------- the gRPC object

  /** The address reads back from an object text that starts like the rendered one exactly when it does not
      end in a backslash; the port always does. */
  lemma GrpcFieldsRead(g: GrpcConfig, rest: string, obj: string)
    requires '"' !in g.listenAddress && Follows(rest)
    requires obj == "{\n    " + FieldsText(GrpcFields(g), "\n    ") + rest
    ensures Or(StringAt(obj, "listen_address"), DEFAULT_CONFIG.grpc.listenAddress) == g.listenAddress
            <==> Quotable(g.listenAddress)
    ensures UintAt(obj, "port") == Some(g.port)
  {
    AddressReadsIff(g, rest, obj);
    PortReadsAlways(g, rest, obj);
  }

  lemma GrpcNames(g: GrpcConfig)
    ensures AllNamed(GrpcFields(g)) && GrpcFields(g)[0].key != GrpcFields(g)[1].key
  {
    assert GrpcFields(g)[0].key[0] == 'l' && GrpcFields(g)[1].key[0] == 'p';
  }

  lemma AddressReadsIff(g: GrpcConfig, rest: string, obj: string)
    requires '"' !in g.listenAddress && Follows(rest)
    requires obj == "{\n    " + FieldsText(GrpcFields(g), "\n    ") + rest
    ensures Or(StringAt(obj, "listen_address"), DEFAULT_CONFIG.grpc.listenAddress) == g.listenAddress
            <==> Quotable(g.listenAddress)
  {
    var fs, w := GrpcFields(g), g.listenAddress;
    GrpcNames(g);
    var after := FieldRaw("{\n    ", fs, 0, "\n    ", rest);
    QuotedReadsIff(w, after);
    assert DEFAULT_CONFIG.grpc.listenAddress[|DEFAULT_CONFIG.grpc.listenAddress| - 1] == '0';
  }

  lemma PortReadsAlways(g: GrpcConfig, rest: string, obj: string)
    requires '"' !in g.listenAddress && Follows(rest)
    requires obj == "{\n    " + FieldsText(GrpcFields(g), "\n    ") + rest
    ensures UintAt(obj, "port") == Some(g.port)
  {
    var fs, w := GrpcFields(g), g.listenAddress;
    GrpcNames(g);
    assert IsDigit(Decimal(g.port)[0]);
    if w == "port" {
      var after := FirstValueIsKey("{\n    ", fs, "port", "\n    ", rest);
      NumberValue(g.port, after);
    } else {
      QuotedTransparent(w, "port");
      var after := FieldRaw("{\n    ", fs, 1, "\n    ", rest);
      NumberValue(g.port, after);
    }
  }

  /** Around the address the object's text has no braces. */
  function BeforeAddress(): string {
    "\n    " + Quoted("listen_address") + ": " + "\""
  }

  function AfterAddress(g: GrpcConfig): string {
    "\"" + MoreFields(GrpcFields(g)[1..], "\n    ") + "\n  "
  }

  function GrpcBody(g: GrpcConfig): string {
    "\n    " + FieldsText(GrpcFields(g), "\n    ") + "\n  "
  }

  lemma GrpcBodyParts(g: GrpcConfig)
    ensures GrpcBody(g) == BeforeAddress() + g.listenAddress + AfterAddress(g)
  {
    var more := MoreFields(GrpcFields(g)[1..], "\n    ");
    assert FieldsText(GrpcFields(g), "\n    ")
           == Quoted("listen_address") + ": " + ("\"" + g.listenAddress + "\"") + more;
  }

  lemma AfterAddressFree(g: GrpcConfig)
    ensures '{' !in AfterAddress(g) && '}' !in AfterAddress(g)
  {
    var fs := GrpcFields(g)[1..];
    GrpcNames(g);
    DecimalPlain(g.port);
    FieldsFree(fs, "\n    ", '{');
    FieldsFree(fs, "\n    ", '}');
  }

  lemma BodyWalk(g: GrpcConfig)
    ensures Walk(GrpcBody(g), '{', '}', 1) == Walk(g.listenAddress, '{', '}', 1)
  {
    var la := g.listenAddress;
    GrpcBodyParts(g);
    AfterAddressFree(g);
    FreeIsBalanced(BeforeAddress(), '{', '}', 1);
    WalkAppend(BeforeAddress() + la, AfterAddress(g), '{', '}', 1);
    WalkAppend(BeforeAddress(), la, '{', '}', 1);
    if Walk(la, '{', '}', 1).Some? {
      FreeIsBalanced(AfterAddress(g), '{', '}', Walk(la, '{', '}', 1).value);
    }
  }

  lemma {:induction false} WalkPositive(s: string, open: char, close: char, depth: nat)
    requires depth >= 1
    ensures Walk(s, open, close, depth).Some? ==> Walk(s, open, close, depth).value >= 1
    decreases |s|
  {
    if s != [] {
      WalkPositive(s[1..], open, close,
                   if s[0] == open then depth + 1 else if s[0] == close && depth > 1 then depth - 1 else depth);
    }
  }

  /** A walk that closes the bracket around it does so at some closing bracket, with nothing left open. */
  lemma {:induction false} WalkCloses(s: string, open: char, close: char, depth: nat) returns (k: nat)
    requires depth >= 1 && open != close && Walk(s, open, close, depth).None?
    ensures k < |s| && s[k] == close && Walk(s[..k], open, close, depth) == Some(1)
    decreases |s|
  {
    if s[0] == close && depth <= 1 {
      k := 0;
    } else {
      var next := if s[0] == open then depth + 1 else if s[0] == close then depth - 1 else depth;
      var j := WalkCloses(s[1..], open, close, next);
      k := j + 1;
      assert s[..k][1..] == s[1..][..j];
    }
  }

  /** The raw text of the gRPC object for each outcome of the walk through its address. */
  lemma GrpcRaw(g: GrpcConfig)
    ensures var raw, w := ValueText("{" + GrpcBody(g) + "}" + "\n}"), Walk(g.listenAddress, '{', '}', 1);
            && (w == Some(1) ==> raw == "{" + GrpcBody(g) + "}")
            && (w == Some(2) ==> raw == "{" + GrpcBody(g) + "}\n}")
            && (w.Some? && w.value > 2 ==> raw == [])
  {
    var body, w := GrpcBody(g), Walk(g.listenAddress, '{', '}', 1);
    BodyWalk(g);
    if w == Some(1) {
      BracketValue(body, "\n}", '{', '}');
    } else if w == Some(2) {
      var more := body + "}\n";
      WalkAppend(body, "}\n", '{', '}', 1);
      WalkTail(2);
      BracketValue(more, "", '{', '}');
      assert "{" + body + "}" + "\n}" == ['{'] + more + ['}'] + "";
      assert ['{'] + more + ['}'] == "{" + body + "}\n}";
    } else if w.Some? && w.value > 2 {
      WalkPositive(g.listenAddress, '{', '}', 1);
      TooDeep(body, w.value);
    }
  }

  lemma WalkTail(d: nat)
    requires d >= 2
    ensures Walk("}\n", '{', '}', d) == Some(d - 1)
  {
    var s := "}\n";
    assert s[1..] == "\n" && s[1..][1..] == [];
    assert Walk("\n", '{', '}', d - 1) == Walk([], '{', '}', d - 1);
  }

  lemma TooDeep(body: string, d: nat)
    requires d >= 3 && Walk(body, '{', '}', 1) == Some(d)
    ensures ValueText("{" + body + "}" + "\n}") == []
  {
    var all := body + ("}\n" + "}");
    WalkTail(d);
    WalkAppend("}\n", "}", '{', '}', d);
    WalkAppend(body, "}\n" + "}", '{', '}', 1);
    assert Walk("}", '{', '}', d - 1) == Walk([], '{', '}', d - 2) by { assert "}"[1..] == []; }
    WalkThrough("{", all, "", '{', '}', 1, d - 2);
    assert "{" + all + "" == "{" + body + "}" + "\n}";
  }

  /** An address that closes the object early leaves its own string unterminated. */
  lemma CutShort(g: GrpcConfig)
    requires '"' !in g.listenAddress && Walk(g.listenAddress, '{', '}', 1).None?
    ensures var raw := ValueText("{" + GrpcBody(g) + "}" + "\n}");
            raw != [] && raw[0] == '{' && StringAt(raw, "listen_address").None?
    ensures g.listenAddress != DEFAULT_CONFIG.grpc.listenAddress
  {
    var la := g.listenAddress;
    var k := WalkCloses(la, '{', '}', 1);
    CutValue(g, k);
    OpenString(la[..k], "{" + (BeforeAddress() + la[..k]) + "}");
    assert la[k] in la && '}' !in DEFAULT_CONFIG.grpc.listenAddress;
  }

  lemma CutValue(g: GrpcConfig, k: nat)
    requires k < |g.listenAddress| && g.listenAddress[k] == '}' && Walk(g.listenAddress[..k], '{', '}', 1) == Some(1)
    ensures ValueText("{" + GrpcBody(g) + "}" + "\n}") == "{" + (BeforeAddress() + g.listenAddress[..k]) + "}"
  {
    var la := g.listenAddress;
    var front := BeforeAddress() + la[..k];
    FreeIsBalanced(BeforeAddress(), '{', '}', 1);
    WalkAppend(BeforeAddress(), la[..k], '{', '}', 1);
    GrpcBodyParts(g);
    CutText(GrpcBody(g), BeforeAddress(), la, AfterAddress(g), k, front);
    BracketValue(front, la[k + 1..] + AfterAddress(g) + "}\n}", '{', '}');
  }

  lemma CutText(body: string, before: string, la: string, after: string, k: nat, front: string)
    requires k < |la| && la[k] == '}' && body == before + la + after && front == before + la[..k]
    ensures "{" + body + "}" + "\n}" == ['{'] + front + ['}'] + (la[k + 1..] + after + "}\n}")
  {
    assert la == la[..k] + [la[k]] + la[k + 1..];
  }

  lemma OpenString(w: string, obj: string)
    requires '"' !in w && obj == "{" + (BeforeAddress() + w) + "}"
    ensures StringAt(obj, "listen_address").None?
  {
    var key, tail := "listen_address", "\"" + w + "}";
    assert Name(key);
    assert obj == "{\n    " + (Quoted(key) + (": " + tail));
    SeekSkips("{\n    ", KeyPattern(key), Quoted(key) + (": " + tail));
    assert (Quoted(key) + (": " + tail))[..|key| + 2] == KeyPattern(key);
    RawFrom(obj, key, tail);
    NeverEnds(tail, 1);
  }

  lemma {:induction false} NeverEnds(s: string, i: nat)
    requires 1 <= i && forall k :: 1 <= k < |s| ==> s[k] != '"'
    ensures QuoteEnd(s, i).None?
    decreases |s| - i
  {
    if i < |s| {
      NeverEnds(s, i + 1);
    }
  }

  /** One closing brace too few is forgiven: the file's own last brace closes the object. */
  predicate Forgiven(address: string) {
    Walk(address, '{', '}', 1) == Some(1) || Walk(address, '{', '}', 1) == Some(2)
  }

  lemma GrpcReadsIff(c: AppConfig)
    requires QuoteFree(c)
    ensures c.hugepagePath == "grpc_config" ==> GrpcAt(Render(c)) == DEFAULT_CONFIG.grpc
    ensures c.hugepagePath != "grpc_config" ==>
              (GrpcAt(Render(c)) == c.grpc <==> Quotable(c.grpc.listenAddress) && Forgiven(c.grpc.listenAddress))
  {
    assert TOP[8] == "grpc_config";
    if c.hugepagePath == "grpc_config" {
      var after := MisreadRaw(c, 8);
      BareStarts(c.numCores, after);
    } else {
      var after := TopRaw(c, 8);
      assert TopFields(c)[9..] == [] && after == "\n}";
      assert TopFields(c)[8].value == "{" + GrpcBody(c.grpc) + "}";
      GrpcOutcomes(c.grpc, Render(c));
    }
  }

  lemma GrpcIntact(g: GrpcConfig, text: string, tail: string)
    requires '"' !in g.listenAddress && Follows(tail)
    requires RawValue(text, "grpc_config") == "{\n    " + FieldsText(GrpcFields(g), "\n    ") + tail
    ensures GrpcAt(text) == g <==> Quotable(g.listenAddress)
  {
    GrpcFieldsRead(g, tail, RawValue(text, "grpc_config"));
  }

  lemma GrpcTexts(g: GrpcConfig)
    ensures "{" + GrpcBody(g) + "}" == "{\n    " + FieldsText(GrpcFields(g), "\n    ") + "\n  }"
    ensures "{" + GrpcBody(g) + "}\n}" == "{\n    " + FieldsText(GrpcFields(g), "\n    ") + "\n  }\n}"
  {
  }

  lemma AddressLost(g: GrpcConfig, text: string, raw: string)
    requires raw == RawValue(text, "grpc_config") && raw != [] && raw[0] == '{' && StringAt(raw, "listen_address").None?
    requires g.listenAddress != DEFAULT_CONFIG.grpc.listenAddress
    ensures GrpcAt(text) != g
  {
    assert GrpcAt(text).listenAddress == DEFAULT_CONFIG.grpc.listenAddress;
  }

  lemma ObjectLost(g: GrpcConfig, text: string)
    requires RawValue(text, "grpc_config") == [] && Walk(g.listenAddress, '{', '}', 1) != Some(1)
    ensures GrpcAt(text) != g
  {
    assert GrpcAt(text) == DEFAULT_CONFIG.grpc;
    DefaultIsPlain();
  }

  lemma GrpcLost(g: GrpcConfig, text: string)
    requires '"' !in g.listenAddress && RawValue(text, "grpc_config") == ValueText("{" + GrpcBody(g) + "}" + "\n}")
    requires !Forgiven(g.listenAddress)
    ensures GrpcAt(text) != g
  {
    if Walk(g.listenAddress, '{', '}', 1).None? {
      CutShort(g);
      AddressLost(g, text, RawValue(text, "grpc_config"));
    } else {
      WalkPositive(g.listenAddress, '{', '}', 1);
      GrpcRaw(g);
      ObjectLost(g, text);
    }
  }

  lemma GrpcOutcomes(g: GrpcConfig, text: string)
    requires '"' !in g.listenAddress && RawValue(text, "grpc_config") == ValueText("{" + GrpcBody(g) + "}" + "\n}")
    ensures GrpcAt(text) == g <==> Quotable(g.listenAddress) && Forgiven(g.listenAddress)
  {
    if Forgiven(g.listenAddress) {
      GrpcRaw(g);
      GrpcTexts(g);
      GrpcIntact(g, text, if Walk(g.listenAddress, '{', '}', 1) == Some(1) then "\n  }" else "\n  }\n}");
    } else {
      GrpcLost(g, text);
    }
  }

  lemma DefaultIsPlain()
    ensures Walk(DEFAULT_CONFIG.grpc.listenAddress, '{', '}', 1) == Some(1)
  {
    FreeIsBalanced(DEFAULT_CONFIG.grpc.listenAddress, '{', '}', 1);
  }

  // ---------------------------------------------------------------- the whole configuration

  /** What a numeric key reads as, with any default. */
  lemma NumberReadsAs(c: AppConfig, s: string, k: nat, key: string, was: u32)
    requires QuoteFree(c) && s == Render(c) && 1 <= k < 6 && key == TOP[k]
    ensures U32Or(s, key, was) == if c.hugepagePath == key then c.numCores else TopNumber(c, k)
    ensures was < TWO_16 ==>
              U16Or(s, key, was) == (if c.hugepagePath == key then c.numCores else TopNumber(c, k)) % TWO_16
  {
    TopNumberReads(c, k);
    NumberOr(s, key, if c.hugepagePath == key then c.numCores else TopNumber(c, k), was);
  }

  lemma NumberOr(s: string, key: string, n: u32, was: u32)
    requires UintAt(s, key) == Some(n)
    ensures U32Or(s, key, was) == n && (was < TWO_16 ==> U16Or(s, key, was) == n % TWO_16)
  {
  }

  /** The configuration read, field by field. */
  lemma ParsedFields(s: string, c: AppConfig)
    ensures ParseConfig(s) == c
            <==> Or(StringAt(s, "hugepage_path"), DEFAULT_CONFIG.hugepagePath) == c.hugepagePath
                 && U32Or(s, "num_cores", DEFAULT_CONFIG.numCores) == c.numCores
                 && PortsAt(s) == c.ports && MappingsAt(s) == c.coreMappings && GrpcAt(s) == c.grpc
                 && U32Or(s, "mbufs_per_socket", DEFAULT_CONFIG.mbufsPerSocket) == c.mbufsPerSocket
                 && U32Or(s, "mbuf_cache_size", DEFAULT_CONFIG.mbufCacheSize) == c.mbufCacheSize
                 && U16Or(s, "tx_burst_size", DEFAULT_CONFIG.txBurstSize) == c.txBurstSize
                 && U16Or(s, "rx_burst_size", DEFAULT_CONFIG.rxBurstSize) == c.rxBurstSize
  {
  }

  /** Where the path reads like a later key, that key's own value happens to be what is read instead. */
  predicate Coincides(c: AppConfig) {
    && (c.hugepagePath == "mbufs_per_socket" ==> c.mbufsPerSocket == c.numCores)
    && (c.hugepagePath == "mbuf_cache_size" ==> c.mbufCacheSize == c.numCores)
    && (c.hugepagePath == "tx_burst_size" ==> c.txBurstSize == c.numCores % TWO_16)
    && (c.hugepagePath == "rx_burst_size" ==> c.rxBurstSize == c.numCores % TWO_16)
    && (c.hugepagePath == "ports" ==> c.ports == DEFAULT_CONFIG.ports)
    && (c.hugepagePath == "core_mappings" ==> c.coreMappings == DEFAULT_CONFIG.coreMappings)
    && (c.hugepagePath == "grpc_config" ==> c.grpc == DEFAULT_CONFIG.grpc)
  }

  lemma MbufsReadIff(c: AppConfig, s: string)
    requires QuoteFree(c) && s == Render(c)
    ensures U32Or(s, "mbufs_per_socket", DEFAULT_CONFIG.mbufsPerSocket) == c.mbufsPerSocket
            <==> (c.hugepagePath == "mbufs_per_socket" ==> c.mbufsPerSocket == c.numCores)
  {
    NumberReadsAs(c, s, 2, "mbufs_per_socket", DEFAULT_CONFIG.mbufsPerSocket);
  }

  lemma CacheReadsIff(c: AppConfig, s: string)
    requires QuoteFree(c) && s == Render(c)
    ensures U32Or(s, "mbuf_cache_size", DEFAULT_CONFIG.mbufCacheSize) == c.mbufCacheSize
            <==> (c.hugepagePath == "mbuf_cache_size" ==> c.mbufCacheSize == c.numCores)
  {
    NumberReadsAs(c, s, 3, "mbuf_cache_size", DEFAULT_CONFIG.mbufCacheSize);
  }

  lemma TxBurstReadsIff(c: AppConfig, s: string)
    requires QuoteFree(c) && s == Render(c)
    ensures U16Or(s, "tx_burst_size", DEFAULT_CONFIG.txBurstSize) == c.txBurstSize
            <==> (c.hugepagePath == "tx_burst_size" ==> c.txBurstSize == c.numCores % TWO_16)
  {
    NumberReadsAs(c, s, 4, "tx_burst_size", DEFAULT_CONFIG.txBurstSize);
  }

  lemma RxBurstReadsIff(c: AppConfig, s: string)
    requires QuoteFree(c) && s == Render(c)
    ensures U16Or(s, "rx_burst_size", DEFAULT_CONFIG.rxBurstSize) == c.rxBurstSize
            <==> (c.hugepagePath == "rx_burst_size" ==> c.rxBurstSize == c.numCores % TWO_16)
  {
    NumberReadsAs(c, s, 5, "rx_burst_size", DEFAULT_CONFIG.rxBurstSize);
  }

  lemma CoresRead(c: AppConfig, s: string)
    requires QuoteFree(c) && s == Render(c)
    ensures U32Or(s, "num_cores", DEFAULT_CONFIG.numCores) == c.numCores
  {
    NumberReadsAs(c, s, 1, "num_cores", DEFAULT_CONFIG.numCores);
  }

  /** The exact round trip: for every configuration whose strings hold no quote, lists of any length and all
      numbers included, the canonical text parses back to it if and only if neither string ends in a
      backslash, the path does not read like a later key (or that key reads the same by coincidence), and
      the address leaves at most one brace open and closes none. */
  lemma RoundTripIff(c: AppConfig, s: string)
    requires QuoteFree(c) && s == Render(c)
    ensures ParseConfig(s) == c
            <==> Quotable(c.hugepagePath) && Coincides(c)
                 && (c.hugepagePath != "grpc_config" ==>
                     Quotable(c.grpc.listenAddress) && Forgiven(c.grpc.listenAddress))
  {
    ParsedFields(s, c);
    PathReadsIff(c);
    CoresRead(c, s);
    MbufsReadIff(c, s);
    CacheReadsIff(c, s);
    TxBurstReadsIff(c, s);
    RxBurstReadsIff(c, s);
    PortsReadAs(c);
    MappingsReadAs(c);
    GrpcReadsIff(c);
  }

  /** Strings within the layout's intent: no quotes, backslashes or brackets, and not the name of a key. */
  predicate Ordinary(w: string) {
    (forall c :: c in w ==> c !in {'"', '\\', '[', ']', '{', '}'}) && w !in TOP
  }

  /** The round trip on ordinary strings needs no further condition. */
  lemma RoundTrip(c: AppConfig, s: string)
    requires Ordinary(c.hugepagePath) && Ordinary(c.grpc.listenAddress) && s == Render(c)
    ensures ParseConfig(s) == c
  {
    FreeIsBalanced(c.grpc.listenAddress, '{', '}', 1);
    OrdinaryQuotable(c.hugepagePath);
    OrdinaryQuotable(c.grpc.listenAddress);
    PathIsNoKey(c);
    RoundTripIff(c, s);
  }

  lemma OrdinaryQuotable(w: string)
    requires Ordinary(w)
    ensures Quotable(w)
  {
    if w != [] { assert w[|w| - 1] in w; }
  }

  lemma PathIsNoKey(c: AppConfig)
    requires c.hugepagePath !in TOP
    ensures Coincides(c) && c.hugepagePath != "grpc_config"
  {
    assert forall k :: 0 <= k < 9 ==> c.hugepagePath != TOP[k];
    assert TOP[2] == "mbufs_per_socket" && TOP[3] == "mbuf_cache_size" && TOP[4] == "tx_burst_size";
    assert TOP[5] == "rx_burst_size" && TOP[6] == "ports" && TOP[7] == "core_mappings" && TOP[8] == "grpc_config";
  }
}
