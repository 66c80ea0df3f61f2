/** The canonical text of a configuration, in the layout of the README, and the proof that parsing it gives
    the configuration back. */
module ConfigRoundTrips {
  import opened Words
  import opened ConfigText
  import opened ConfigParsers

  // ---------------------------------------------------------------- rendering

  function Decimal(n: nat): (d: string)
    ensures d != [] && forall i :: 0 <= i < |d| ==> IsDigit(d[i])
  {
    var last := [('0' as int + n % 10) as char];
    if n < 10 then last else Decimal(n / 10) + last
  }

  function Quoted(w: string): string {
    "\"" + w + "\""
  }

  datatype Field = Field(key: string, value: string)

  /** Fields in order, a comma and a separator between them. */
  function FieldsText(fs: seq<Field>, sep: string): string
    decreases |fs|, 0
  {
    if fs == [] then []
    else Quoted(fs[0].key) + ": " + fs[0].value + MoreFields(fs[1..], sep)
  }

  function MoreFields(fs: seq<Field>, sep: string): string
    decreases |fs|, 1
  {
    if fs == [] then [] else "," + sep + FieldsText(fs, sep)
  }

  function ObjectText(fs: seq<Field>, sep: string, end: string): string {
    "{" + (sep + FieldsText(fs, sep) + end) + "}"
  }

  function ItemsText(objs: seq<string>): string {
    if objs == [] then []
    else "\n    " + objs[0] + (if |objs| > 1 then "," else "") + ItemsText(objs[1..])
  }

  function ListText(objs: seq<string>): string {
    "[" + (ItemsText(objs) + "\n  ") + "]"
  }

  function PortFields(p: PortConfig): seq<Field> {
    [Field("port_id", Decimal(p.portId)), Field("nb_rx_queues", Decimal(p.nbRxQueues)),
     Field("nb_tx_queues", Decimal(p.nbTxQueues)),
     Field("nb_rx_desc", Decimal(p.nbRxDesc)), Field("nb_tx_desc", Decimal(p.nbTxDesc))]
  }

  function MappingFields(m: CoreMapping): seq<Field> {
    [Field("core_id", Decimal(m.coreId)), Field("port_id", Decimal(m.portId)), Field("queue_id", Decimal(m.queueId)),
     Field("enable_rx", if m.enableRx then "true" else "false")]
  }

  function GrpcFields(g: GrpcConfig): seq<Field> {
    [Field("listen_address", Quoted(g.listenAddress)), Field("port", Decimal(g.port))]
  }

  function ItemText(fs: seq<Field>): string {
    ObjectText(fs, "\n      ", "\n    ")
  }

  function PortTexts(ps: seq<PortConfig>): (ts: seq<string>)
    ensures |ts| == |ps| && forall i :: 0 <= i < |ps| ==> ts[i] == ItemText(PortFields(ps[i]))
  {
    seq(|ps|, i requires 0 <= i < |ps| => ItemText(PortFields(ps[i])))
  }

  function MappingTexts(ms: seq<CoreMapping>): (ts: seq<string>)
    ensures |ts| == |ms| && forall i :: 0 <= i < |ms| ==> ts[i] == ItemText(MappingFields(ms[i]))
  {
    seq(|ms|, i requires 0 <= i < |ms| => ItemText(MappingFields(ms[i])))
  }

  function TopFields(c: AppConfig): seq<Field> {
    [Field("hugepage_path", Quoted(c.hugepagePath)), Field("num_cores", Decimal(c.numCores)),
     Field("mbufs_per_socket", Decimal(c.mbufsPerSocket)), Field("mbuf_cache_size", Decimal(c.mbufCacheSize)),
     Field("tx_burst_size", Decimal(c.txBurstSize)), Field("rx_burst_size", Decimal(c.rxBurstSize)),
     Field("ports", ListText(PortTexts(c.ports))), Field("core_mappings", ListText(MappingTexts(c.coreMappings))),
     Field("grpc_config", ObjectText(GrpcFields(c.grpc), "\n    ", "\n  "))]
  }

  function Render(c: AppConfig): string {
    ObjectText(TopFields(c), "\n  ", "\n")
  }

  // ---------------------------------------------------------------- searching through rendered text

  predicate NameChar(c: char) {
    'a' <= c <= 'z' || c == '_'
  }

  predicate Name(w: string) {
    w != [] && forall i :: 0 <= i < |w| ==> NameChar(w[i])
  }

  /** What follows a value in rendered text. */
  predicate Follows(rest: string) {
    rest != [] && (rest[0] == ',' || rest[0] == '\n')
  }

  lemma {:induction false} SeekSkips(p: string, pattern: string, rest: string)
    requires pattern != [] && pattern[0] !in p
    ensures Seek(p + rest, pattern) == Seek(rest, pattern)
    decreases |p|
  {
    if p == [] {
      assert p + rest == rest;
    } else {
      AppendParts(p, rest);
      SeekSkips(p[1..], pattern, rest);
    }
  }

  /** A quoted word that is not the key is searched through: the pattern's quotes can only be the word's. */
  lemma SeekSkipsQuoted(w: string, key: string, rest: string)
    requires Name(key) && '"' !in w && w != key && Follows(rest)
    ensures Seek(Quoted(w) + rest, KeyPattern(key)) == Seek(rest, KeyPattern(key))
  {
    var p, s := KeyPattern(key), Quoted(w) + rest;
    NotTheKey(w, key, rest);
    assert s[1..] == w + ("\"" + rest);
    SeekSkips(w, p, "\"" + rest);
    assert ("\"" + rest)[1..] == rest;
    Differ(p, "\"" + rest, 1);
  }

  lemma NotTheKey(w: string, key: string, rest: string)
    requires Name(key) && '"' !in w && w != key
    ensures !(KeyPattern(key) <= Quoted(w) + rest)
  {
    var p, s := KeyPattern(key), Quoted(w) + rest;
    if |key| < |w| {
      assert w[|key|] in w;
      Differ(p, s, |key| + 1);
    } else if |w| < |key| {
      assert NameChar(key[|w|]);
      Differ(p, s, |w| + 1);
    } else {
      var i :| 0 <= i < |w| && w[i] != key[i];
      Differ(p, s, i + 1);
    }
  }

  lemma Differ(p: string, s: string, i: nat)
    requires i < |p| && (i < |s| ==> p[i] != s[i])
    ensures !(p <= s)
  {
  }

  /** A value the search for a key runs through, whatever follows. */
  ghost predicate Transparent(v: string, key: string) {
    forall rest :: Follows(rest) ==> Seek(v + rest, KeyPattern(key)) == Seek(rest, KeyPattern(key))
  }

  lemma PlainTransparent(v: string, key: string)
    requires '"' !in v
    ensures Transparent(v, key)
  {
    forall rest | Follows(rest) ensures Seek(v + rest, KeyPattern(key)) == Seek(rest, KeyPattern(key)) {
      SeekSkips(v, KeyPattern(key), rest);
    }
  }

  lemma QuotedTransparent(w: string, key: string)
    requires Name(key) && '"' !in w && w != key
    ensures Transparent(Quoted(w), key)
  {
    forall rest | Follows(rest) ensures Seek(Quoted(w) + rest, KeyPattern(key)) == Seek(rest, KeyPattern(key)) {
      SeekSkipsQuoted(w, key, rest);
    }
  }

  /** A separator starts a new line and is blank. */
  predicate Separator(sep: string) {
    sep != [] && sep[0] == '\n' && '"' !in sep
  }

  ghost predicate AllNamed(fs: seq<Field>) {
    forall i :: 0 <= i < |fs| ==> Name(fs[i].key)
  }

  /** The search for a key runs through a field that is not it. */
  lemma SeekSkipsField(f: Field, key: string, rest: string)
    requires Name(key) && Name(f.key) && f.key != key && Transparent(f.value, key) && Follows(rest)
    ensures Seek(Quoted(f.key) + (": " + (f.value + rest)), KeyPattern(key)) == Seek(rest, KeyPattern(key))
  {
    KeySkipped(f.key, key, ": " + (f.value + rest));
    SeekSkips(": ", KeyPattern(key), f.value + rest);
  }

  lemma KeySkipped(w: string, key: string, tail: string)
    requires Name(key) && Name(w) && w != key && tail != [] && tail[0] == ':'
    ensures Seek(Quoted(w) + tail, KeyPattern(key)) == Seek(tail, KeyPattern(key))
  {
    var p, s := KeyPattern(key), Quoted(w) + tail;
    NotTheKey(w, key, tail);
    assert s[1..] == w + ("\"" + tail);
    SeekSkips(w, p, "\"" + tail);
    assert ("\"" + tail)[1..] == tail;
    Differ(p, "\"" + tail, 1);
  }

  lemma Regroup(a: string, b: string, c: string, d: string, e: string)
    ensures a + b + c + d + e == a + (b + (c + (d + e)))
  {
  }

  lemma FieldsFrom(fs: seq<Field>, k: nat, sep: string, rest: string)
    requires k < |fs|
    ensures FieldsText(fs[k..], sep) + rest
            == Quoted(fs[k].key) + (": " + (fs[k].value + (MoreFields(fs[k + 1..], sep) + rest)))
  {
    var gs := fs[k..];
    assert gs[1..] == fs[k + 1..] && gs[0] == fs[k];
    Regroup(Quoted(gs[0].key), ": ", gs[0].value, MoreFields(gs[1..], sep), rest);
  }

  lemma MoreFrom(fs: seq<Field>, sep: string, rest: string)
    requires fs != []
    ensures MoreFields(fs, sep) + rest == ("," + sep) + (FieldsText(fs, sep) + rest)
  {
  }

  lemma MoreFollows(fs: seq<Field>, sep: string, rest: string)
    requires Follows(rest)
    ensures Follows(MoreFields(fs, sep) + rest)
  {
  }

  /** One field is run through ... */
  lemma SeekPastField(fs: seq<Field>, key: string, sep: string, rest: string)
    requires fs != [] && Name(key) && Name(fs[0].key) && fs[0].key != key && Transparent(fs[0].value, key)
    requires Follows(rest)
    ensures Seek(FieldsText(fs, sep) + rest, KeyPattern(key)) == Seek(MoreFields(fs[1..], sep) + rest, KeyPattern(key))
  {
    MoreFollows(fs[1..], sep, rest);
    FieldsFrom(fs, 0, sep, rest);
    assert fs[0..] == fs;
    SeekSkipsField(fs[0], key, MoreFields(fs[1..], sep) + rest);
  }

  /** ... and the comma and separator after it. */
  lemma SeekPastComma(fs: seq<Field>, key: string, sep: string, rest: string)
    requires Separator(sep)
    ensures Seek(MoreFields(fs, sep) + rest, KeyPattern(key)) == Seek(FieldsText(fs, sep) + rest, KeyPattern(key))
  {
    if fs != [] {
      MoreFrom(fs, sep, rest);
      SeekSkips("," + sep, KeyPattern(key), FieldsText(fs, sep) + rest);
    }
  }

  lemma SeekStops(fs: seq<Field>, sep: string, rest: string)
    requires fs != []
    ensures Seek(FieldsText(fs, sep) + rest, KeyPattern(fs[0].key)) == FieldsText(fs, sep) + rest
  {
    FieldsFrom(fs, 0, sep, rest);
    assert fs[0..] == fs;
    assert (FieldsText(fs, sep) + rest)[..|fs[0].key| + 2] == KeyPattern(fs[0].key);
  }

  /** Fields before the key are run through: the search stops at the key's own field. */
  lemma {:induction false} SeekFindsField(fs: seq<Field>, k: nat, sep: string, rest: string)
    requires k < |fs| && AllNamed(fs) && Separator(sep) && Follows(rest)
    requires forall i :: 0 <= i < k ==> fs[i].key != fs[k].key && Transparent(fs[i].value, fs[k].key)
    ensures Seek(FieldsText(fs, sep) + rest, KeyPattern(fs[k].key)) == FieldsText(fs[k..], sep) + rest
    decreases k
  {
    if k == 0 {
      assert fs[0..] == fs;
      SeekStops(fs, sep, rest);
    } else {
      SeekPastField(fs, fs[k].key, sep, rest);
      SeekPastComma(fs[1..], fs[k].key, sep, rest);
      SeekFindsField(fs[1..], k - 1, sep, rest);
      assert fs[1..][k - 1..] == fs[k..];
    }
  }

  /** A whole run of fields without the key is run through. */
  lemma {:induction false} SeekSkipsFields(fs: seq<Field>, key: string, sep: string, rest: string)
    requires AllNamed(fs) && Name(key) && Separator(sep) && Follows(rest)
    requires forall i :: 0 <= i < |fs| ==> fs[i].key != key && Transparent(fs[i].value, key)
    ensures Seek(FieldsText(fs, sep) + rest, KeyPattern(key)) == Seek(rest, KeyPattern(key))
    decreases |fs|
  {
    if fs == [] {
      assert FieldsText(fs, sep) + rest == rest;
    } else {
      SeekPastField(fs, key, sep, rest);
      SeekPastComma(fs[1..], key, sep, rest);
      SeekSkipsFields(fs[1..], key, sep, rest);
    }
  }

  lemma ObjectTransparent(fs: seq<Field>, key: string, sep: string, end: string)
    requires AllNamed(fs) && Name(key) && Separator(sep) && Separator(end)
    requires forall i :: 0 <= i < |fs| ==> fs[i].key != key && Transparent(fs[i].value, key)
    ensures Transparent(ObjectText(fs, sep, end), key)
  {
    forall rest | Follows(rest)
      ensures Seek(ObjectText(fs, sep, end) + rest, KeyPattern(key)) == Seek(rest, KeyPattern(key))
    {
      var tail := end + "}" + rest;
      assert ObjectText(fs, sep, end) + rest == ("{" + sep) + (FieldsText(fs, sep) + tail);
      SeekSkips("{" + sep, KeyPattern(key), FieldsText(fs, sep) + tail);
      SeekSkipsFields(fs, key, sep, tail);
      assert tail == (end + "}") + rest;
      SeekSkips(end + "}", KeyPattern(key), rest);
    }
  }

  lemma {:induction false} SeekSkipsItems(objs: seq<string>, key: string, rest: string)
    requires Follows(rest) && forall i :: 0 <= i < |objs| ==> Transparent(objs[i], key)
    ensures Seek(ItemsText(objs) + rest, KeyPattern(key)) == Seek(rest, KeyPattern(key))
    decreases |objs|
  {
    if objs == [] {
      assert ItemsText(objs) + rest == rest;
    } else {
      var comma := if |objs| > 1 then "," else "";
      var tail := comma + (ItemsText(objs[1..]) + rest);
      assert ItemsText(objs) + rest == "\n    " + (objs[0] + tail);
      SeekSkips("\n    ", KeyPattern(key), objs[0] + tail);
      assert |objs| == 1 ==> tail == rest by {
        if |objs| == 1 { assert objs[1..] == []; }
      }
      assert Follows(tail);
      SeekSkips(comma, KeyPattern(key), ItemsText(objs[1..]) + rest);
      SeekSkipsItems(objs[1..], key, rest);
    }
  }

  lemma ListTransparent(objs: seq<string>, key: string)
    requires forall i :: 0 <= i < |objs| ==> Transparent(objs[i], key)
    ensures Transparent(ListText(objs), key)
  {
    forall rest | Follows(rest) ensures Seek(ListText(objs) + rest, KeyPattern(key)) == Seek(rest, KeyPattern(key)) {
      var tail := "\n  ]" + rest;
      assert ListText(objs) + rest == "[" + (ItemsText(objs) + tail);
      SeekSkips("[", KeyPattern(key), ItemsText(objs) + tail);
      SeekSkipsItems(objs, key, tail);
      SeekSkips("\n  ]", KeyPattern(key), rest);
    }
  }

  // ---------------------------------------------------------------- reading single values

  lemma {:induction false} QuoteEndSkips(s: string, i: nat, j: nat)
    requires 1 <= i <= j <= |s| && forall k :: i <= k < j ==> s[k] != '"'
    ensures QuoteEnd(s, i) == QuoteEnd(s, j)
    decreases j - i
  {
    if i < j {
      QuoteEndSkips(s, i + 1, j);
    }
  }

  /** A string that can stand between quotes: no quote in it and no backslash before the closing one. */
  predicate Quotable(w: string) {
    '"' !in w && (w != [] ==> w[|w| - 1] != '\\')
  }

  lemma QuotedValue(w: string, rest: string)
    requires Quotable(w)
    ensures ValueText(Quoted(w) + rest) == Quoted(w)
  {
    var s := Quoted(w) + rest;
    forall k | 1 <= k < |w| + 1 ensures s[k] != '"' {
      assert s[k] == w[k - 1] && w[k - 1] in w;
    }
    QuoteEndSkips(s, 1, |w| + 1);
    assert s[|w| + 1] == '"' && s[|w|] == (if w == [] then '"' else w[|w| - 1]);
    assert s[..|w| + 2] == Quoted(w);
  }

  /** What may stand behind a number in its value text. */
  predicate Stops(x: string) {
    x == [] || !IsDigit(x[0])
  }

  lemma {:induction false} ScalarRuns(d: string, rest: string)
    requires forall i :: 0 <= i < |d| ==> d[i] !in {',', '}', ']'}
    ensures Scalar(d + rest) == d + Scalar(rest)
    decreases |d|
  {
    if d == [] {
      assert d + rest == rest;
    } else {
      AppendParts(d, rest);
      ScalarRuns(d[1..], rest);
    }
  }

  lemma {:induction false} DigitsLead(d: string, x: string)
    requires (forall i :: 0 <= i < |d| ==> IsDigit(d[i])) && Stops(x)
    ensures LeadingDigits(d + x) == d
    decreases |d|
  {
    if d == [] {
      assert d + x == x;
    } else {
      AppendParts(d, x);
      DigitsLead(d[1..], x);
    }
  }

  lemma {:induction false} DecimalReads(n: nat)
    ensures DecimalValue(Decimal(n)) == n
    decreases n
  {
    var d := Decimal(n);
    assert d[|d| - 1] == ('0' as int + n % 10) as char;
    if n < 10 {
      assert d[..|d| - 1] == [];
    } else {
      assert d[..|d| - 1] == Decimal(n / 10);
      DecimalReads(n / 10);
    }
  }

  lemma NumberReads(n: u64, x: string)
    requires Stops(x)
    ensures StrToULL(Decimal(n) + x) == Some(n)
  {
    var s := Decimal(n) + x;
    assert s[0] == Decimal(n)[0] && IsDigit(s[0]);
    assert SkipSpace(s) == s;
    DigitsLead(Decimal(n), x);
    DecimalReads(n);
  }

  /** The text of a number or a flag runs to the comma, or over the blanks before the bracket. */
  lemma BareValue(d: string, rest: string)
    requires d != [] && d[0] !in {'"', '{', '['} && Follows(rest)
    requires forall i :: 0 <= i < |d| ==> d[i] !in {',', '}', ']'}
    ensures ValueText(d + rest) == d + Scalar(rest) && Stops(Scalar(rest))
  {
    ScalarRuns(d, rest);
    assert (d + rest)[0] == d[0];
  }

  lemma NumberValue(n: u64, rest: string)
    requires Follows(rest)
    ensures StrToULL(ValueText(Decimal(n) + rest)) == Some(n)
  {
    BareValue(Decimal(n), rest);
    NumberReads(n, Scalar(rest));
  }

  // ---------------------------------------------------------------- reading fields

  /** Nothing before field `k` can be taken for its key. */
  ghost predicate Reachable(fs: seq<Field>, k: nat) {
    k < |fs| && AllNamed(fs) && forall i :: 0 <= i < k ==> fs[i].key != fs[k].key && Transparent(fs[i].value, fs[k].key)
  }

  /** The raw value of a reachable field is the value text of what was rendered for it and what follows. */
  lemma FieldRaw(pre: string, fs: seq<Field>, k: nat, sep: string, rest: string) returns (after: string)
    requires Reachable(fs, k) && Separator(sep) && Follows(rest) && '"' !in pre
    requires fs[k].value != [] && !IsSpace(fs[k].value[0])
    ensures after == MoreFields(fs[k + 1..], sep) + rest && Follows(after)
    ensures RawValue(pre + FieldsText(fs, sep) + rest, fs[k].key) == ValueText(fs[k].value + after)
  {
    var key, v := fs[k].key, fs[k].value;
    after := MoreFields(fs[k + 1..], sep) + rest;
    MoreFollows(fs[k + 1..], sep, rest);
    var s := FieldsText(fs, sep) + rest;
    assert pre + FieldsText(fs, sep) + rest == pre + s;
    SeekSkips(pre, KeyPattern(key), s);
    SeekFindsField(fs, k, sep, rest);
    FieldsFrom(fs, k, sep, rest);
    assert (v + after)[0] == v[0];
    RawFrom(pre + FieldsText(fs, sep) + rest, key, v + after);
  }

  lemma RawFrom(s: string, key: string, tail: string)
    requires Name(key) && tail != [] && !IsSpace(tail[0])
    requires Seek(s, KeyPattern(key)) == Quoted(key) + (": " + tail)
    ensures RawValue(s, key) == ValueText(tail)
  {
    ColonAfterKey(key, tail);
  }

  lemma ColonAfterKey(key: string, tail: string)
    requires Name(key) && tail != [] && !IsSpace(tail[0])
    ensures var c := Seek(Quoted(key) + (": " + tail), ":"); c != [] && SkipSpace(c[1..]) == tail
  {
    assert ':' !in Quoted(key) by {
      forall c | c in Quoted(key) ensures c != ':' {
        var i :| 0 <= i < |Quoted(key)| && Quoted(key)[i] == c;
        if 0 < i <= |key| { assert NameChar(key[i - 1]); }
      }
    }
    SeekSkips(Quoted(key), ":", ": " + tail);
    var c := ": " + tail;
    assert ":" <= c && c[1..] == " " + tail && (" " + tail)[1..] == tail;
  }

  /** A number of an object reads back. */
  lemma NumberField(fs: seq<Field>, k: nat, n: u64, sep: string, end: string)
    requires Reachable(fs, k) && fs[k].value == Decimal(n) && Separator(sep) && Separator(end)
    ensures UintAt(ObjectText(fs, sep, end), fs[k].key) == Some(n)
  {
    assert ObjectText(fs, sep, end) == ("{" + sep) + FieldsText(fs, sep) + (end + "}");
    assert IsDigit(Decimal(n)[0]);
    var after := FieldRaw("{" + sep, fs, k, sep, end + "}");
    NumberValue(n, after);
  }

  function Flag(b: bool): string {
    if b then "true" else "false"
  }

  lemma FlagReads(b: bool, x: string)
    requires 't' !in x
    ensures (Seek(Flag(b) + x, "true") != []) == b && Seek(Flag(b) + x, if b then "true" else "false") != []
  {
    if !b {
      assert "false" + x + "" == "false" + x;
      SeekSkips("false" + x, "true", "");
    }
  }

  lemma FlagValue(b: bool, end: string)
    requires Follows(end) && forall i :: 0 <= i < |end| ==> end[i] !in {',', '}', ']'}
    ensures ValueText(Flag(b) + (end + "}")) == Flag(b) + end
  {
    BareValue(Flag(b), end + "}");
    ScalarRuns(end, "}");
  }

  /** A flag at the end of an object reads back. */
  lemma LastFlag(fs: seq<Field>, k: nat, b: bool, sep: string, end: string)
    requires Reachable(fs, k) && k + 1 == |fs| && fs[k].value == Flag(b) && Separator(sep) && Separator(end)
    requires forall i :: 0 <= i < |end| ==> end[i] !in {',', '}', ']', 't'}
    ensures BoolAt(ObjectText(fs, sep, end), fs[k].key) == Some(b)
  {
    var s, key := ObjectText(fs, sep, end), fs[k].key;
    assert s == ("{" + sep) + FieldsText(fs, sep) + (end + "}");
    var after := FieldRaw("{" + sep, fs, k, sep, end + "}");
    assert after == end + "}";
    FlagValue(b, end);
    assert RawValue(s, key) == Flag(b) + end;
    FlagReads(b, end);
  }

  // ---------------------------------------------------------------- brackets

  /** The bracket depth after a text, if it never closes the bracket around it. */
  function Walk(s: string, open: char, close: char, depth: nat): Option<nat> {
    if s == [] then Some(depth)
    else if s[0] == open then Walk(s[1..], open, close, depth + 1)
    else if s[0] == close then if depth <= 1 then None else Walk(s[1..], open, close, depth - 1)
    else Walk(s[1..], open, close, depth)
  }

  predicate Balanced(s: string, open: char, close: char) {
    Walk(s, open, close, 1) == Some(1)
  }

  lemma {:induction false} WalkAppend(a: string, b: string, open: char, close: char, depth: nat)
    ensures Walk(a + b, open, close, depth)
            == match Walk(a, open, close, depth) case None => None case Some(d) => Walk(b, open, close, d)
    decreases |a|
  {
    if a == [] {
      assert a + b == b;
    } else {
      AppendParts(a, b);
      WalkAppend(a[1..], b, open, close,
                 if a[0] == open then depth + 1 else if a[0] == close && depth > 1 then depth - 1 else depth);
    }
  }

  lemma {:induction false} FreeIsBalanced(s: string, open: char, close: char, depth: nat)
    requires open !in s && close !in s
    ensures Walk(s, open, close, depth) == Some(depth)
    decreases |s|
  {
    if s != [] {
      FreeIsBalanced(s[1..], open, close, depth);
    }
  }

  /** The bracket search walks over a text that does not close the bracket around it. */
  lemma {:induction false} WalkThrough(pre: string, s: string, rest: string, open: char, close: char, depth: nat,
                                       after: nat)
    requires Walk(s, open, close, depth) == Some(after)
    ensures CloseAt(pre + s + rest, open, close, |pre|, depth)
            == CloseAt(pre + s + rest, open, close, |pre| + |s|, after)
    decreases |s|
  {
    var t := pre + s + rest;
    if s != [] {
      assert t[|pre|] == s[0];
      assert t == (pre + [s[0]]) + s[1..] + rest;
      WalkThrough(pre + [s[0]], s[1..], rest, open, close,
                  if s[0] == open then depth + 1 else if s[0] == close then depth - 1 else depth, after);
    }
  }

  /** A bracketed value is read whole when its inside balances. */
  lemma BracketValue(body: string, rest: string, open: char, close: char)
    requires (open == '{' && close == '}') || (open == '[' && close == ']')
    requires Balanced(body, open, close)
    ensures ValueText([open] + body + [close] + rest) == [open] + body + [close]
    ensures CloseAt([open] + body + [close] + rest, open, close, 1, 1) == Some(|body| + 1)
  {
    var s := [open] + body + [close] + rest;
    WalkThrough([open], body, [close] + rest, open, close, 1, 1);
    assert s == [open] + body + ([close] + rest) && s[|body| + 1] == close;
    assert s[..|body| + 2] == [open] + body + [close];
  }

  // ---------------------------------------------------------------- lists of objects

  /** An object without braces inside, as the elements of both lists are. */
  ghost predicate FlatObject(obj: string) {
    exists body :: IsObject(obj, body)
  }

  predicate IsObject(obj: string, body: string) {
    obj == "{" + body + "}" && '{' !in body && '}' !in body
  }

  lemma ObjectsSkip(p: string, s: string)
    requires '{' !in p
    ensures Objects(p + s) == Objects(s)
  {
    SeekSkips(p, "{", s);
  }

  lemma ObjectsTake(obj: string, s: string)
    requires FlatObject(obj)
    ensures Objects(obj + s) == [obj] + Objects(s)
  {
    var body :| IsObject(obj, body);
    var t := obj + s;
    FreeIsBalanced(body, '{', '}', 1);
    BracketValue(body, s, '{', '}');
    assert t == ['{'] + body + ['}'] + s;
    assert "{" <= t && Seek(t, "{") == t;
    assert t[..|body| + 2] == obj && t[|body| + 2..] == s;
  }

  /** Splitting a rendered list gives its objects back. */
  lemma {:induction false} ObjectsOfItems(objs: seq<string>, tail: string)
    requires '{' !in tail && forall i :: 0 <= i < |objs| ==> FlatObject(objs[i])
    ensures Objects(ItemsText(objs) + tail) == objs
    decreases |objs|
  {
    if objs == [] {
      assert ItemsText(objs) + tail == tail + "";
      ObjectsSkip(tail, "");
    } else {
      var comma := if |objs| > 1 then "," else "";
      var rest := ItemsText(objs[1..]) + tail;
      assert ItemsText(objs) + tail == "\n    " + (objs[0] + (comma + rest));
      ObjectsSkip("\n    ", objs[0] + (comma + rest));
      ObjectsTake(objs[0], comma + rest);
      ObjectsSkip(comma, rest);
      ObjectsOfItems(objs[1..], tail);
    }
  }

  lemma {:induction false} ItemsFree(objs: seq<string>, c: char)
    requires c !in {'\n', ' ', ','} && forall i :: 0 <= i < |objs| ==> c !in objs[i]
    ensures c !in ItemsText(objs)
    decreases |objs|
  {
    if objs != [] {
      ItemsFree(objs[1..], c);
    }
  }

  lemma ListReads(objs: seq<string>, rest: string)
    requires forall i :: 0 <= i < |objs| ==> FlatObject(objs[i]) && '[' !in objs[i] && ']' !in objs[i]
    ensures ValueText(ListText(objs) + rest) == ListText(objs) && Objects(ListText(objs)) == objs
  {
    var body := ItemsText(objs) + "\n  ";
    ItemsFree(objs, '[');
    ItemsFree(objs, ']');
    FreeIsBalanced(body, '[', ']', 1);
    BracketValue(body, rest, '[', ']');
    assert ListText(objs) + rest == ['['] + body + [']'] + rest;
    assert ListText(objs) == "[" + (ItemsText(objs) + "\n  ]");
    ObjectsSkip("[", ItemsText(objs) + "\n  ]");
    ObjectsOfItems(objs, "\n  ]");
  }

  lemma {:induction false} FieldsFree(fs: seq<Field>, sep: string, c: char)
    requires c !in sep && c !in {'"', ':', ' ', ','} && !NameChar(c) && AllNamed(fs)
    requires forall i :: 0 <= i < |fs| ==> c !in fs[i].value
    ensures c !in FieldsText(fs, sep) && c !in MoreFields(fs, sep)
    decreases |fs|
  {
    if fs != [] {
      FieldsFree(fs[1..], sep, c);
      assert Name(fs[0].key);
      assert c !in fs[0].key;
    }
  }

  // ---------------------------------------------------------------- ports and mappings

  lemma DecimalPlain(n: nat)
    ensures forall c :: c in Decimal(n) ==> IsDigit(c)
  {
  }

  ghost predicate Distinct(fs: seq<Field>) {
    forall i, j :: 0 <= i < j < |fs| ==> fs[i].key != fs[j].key
  }

  /** With plain values every field is reachable. */
  lemma PlainReachable(fs: seq<Field>, k: nat)
    requires k < |fs| && AllNamed(fs) && Distinct(fs) && forall i :: 0 <= i < k ==> '"' !in fs[i].value
    ensures Reachable(fs, k)
  {
    forall i | 0 <= i < k ensures Transparent(fs[i].value, fs[k].key) {
      PlainTransparent(fs[i].value, fs[k].key);
    }
  }

  lemma PortNames(p: PortConfig)
    ensures AllNamed(PortFields(p)) && Distinct(PortFields(p))
    ensures forall i :: 0 <= i < |PortFields(p)| ==> forall c :: c in PortFields(p)[i].value ==> IsDigit(c)
  {
    PortKeysDiffer(p);
    DecimalPlain(p.portId);
  }

  lemma PortKeysDiffer(p: PortConfig)
    ensures Distinct(PortFields(p))
  {
    var fs := PortFields(p);
    assert fs[1].key[3] == 'r' && fs[2].key[3] == 't' && fs[3].key[6] == 'd' && fs[4].key[3] == 't';
    assert fs[1].key[6] == 'q' && fs[2].key[6] == 'q' && fs[3].key[3] == 'r' && fs[4].key[6] == 'd';
    assert fs[0].key[0] == 'p' && fs[1].key[0] == fs[2].key[0] == fs[3].key[0] == fs[4].key[0] == 'n';
  }

  lemma MappingNames(m: CoreMapping)
    ensures AllNamed(MappingFields(m)) && Distinct(MappingFields(m))
    ensures forall i :: 0 <= i < |MappingFields(m)| ==>
              forall c :: c in MappingFields(m)[i].value ==> IsDigit(c) || NameChar(c)
  {
    MappingKeysDiffer(m);
    MappingValues(m);
  }

  lemma MappingKeysDiffer(m: CoreMapping)
    ensures Distinct(MappingFields(m))
  {
    var fs := MappingFields(m);
    assert fs[0].key[0] == 'c' && fs[1].key[0] == 'p' && fs[2].key[0] == 'q' && fs[3].key[0] == 'e';
  }

  lemma MappingValues(m: CoreMapping)
    ensures forall i :: 0 <= i < |MappingFields(m)| ==>
              forall c :: c in MappingFields(m)[i].value ==> IsDigit(c) || NameChar(c)
  {
    var fs := MappingFields(m);
    DecimalPlain(m.coreId);
    assert fs[3].value == Flag(m.enableRx);
  }

  lemma PortReachable(p: PortConfig, k: nat)
    requires k < 5
    ensures Reachable(PortFields(p), k)
  {
    PortNames(p);
    PlainReachable(PortFields(p), k);
  }

  lemma MappingReachable(m: CoreMapping, k: nat)
    requires k < 4
    ensures Reachable(MappingFields(m), k)
  {
    MappingNames(m);
    PlainReachable(MappingFields(m), k);
  }

  lemma PortNumber(p: PortConfig, k: nat, key: string, n: u16, obj: string)
    requires k < 5 && PortFields(p)[k] == Field(key, Decimal(n)) && obj == ItemText(PortFields(p))
    ensures U16Or(obj, key, 0) == n
  {
    PortReachable(p, k);
    NumberField(PortFields(p), k, n, "\n      ", "\n    ");
    Narrow(obj, key, n);
  }

  lemma Narrow(obj: string, key: string, n: u32)
    requires UintAt(obj, key) == Some(n)
    ensures U32Or(obj, key, 0) == n && (n < TWO_16 ==> U16Or(obj, key, 0) == n)
  {
  }

  lemma MappingNumber(m: CoreMapping, k: nat, key: string, n: u32, obj: string)
    requires k < 3 && MappingFields(m)[k] == Field(key, Decimal(n)) && obj == ItemText(MappingFields(m))
    ensures U32Or(obj, key, 0) == n && (n < TWO_16 ==> U16Or(obj, key, 0) == n)
  {
    MappingReachable(m, k);
    NumberField(MappingFields(m), k, n, "\n      ", "\n    ");
    Narrow(obj, key, n);
  }

  lemma MappingFlag(m: CoreMapping, obj: string)
    requires obj == ItemText(MappingFields(m))
    ensures BoolAt(obj, "enable_rx") == Some(m.enableRx)
  {
    MappingReachable(m, 3);
    LastFlag(MappingFields(m), 3, m.enableRx, "\n      ", "\n    ");
  }

  /** A rendered port reads back. */
  lemma PortReads(p: PortConfig, obj: string)
    requires obj == ItemText(PortFields(p))
    ensures PortOf(obj) == p
  {
    PortNumber(p, 0, "port_id", p.portId, obj);
    PortNumber(p, 1, "nb_rx_queues", p.nbRxQueues, obj);
    PortNumber(p, 2, "nb_tx_queues", p.nbTxQueues, obj);
    PortNumber(p, 3, "nb_rx_desc", p.nbRxDesc, obj);
    PortNumber(p, 4, "nb_tx_desc", p.nbTxDesc, obj);
  }

  /** A rendered core mapping reads back. */
  lemma MappingReads(m: CoreMapping, obj: string)
    requires obj == ItemText(MappingFields(m))
    ensures MappingOf(obj) == m
  {
    MappingNumber(m, 0, "core_id", m.coreId, obj);
    MappingNumber(m, 1, "port_id", m.portId, obj);
    MappingNumber(m, 2, "queue_id", m.queueId, obj);
    MappingFlag(m, obj);
  }

  lemma ItemIsFlat(fs: seq<Field>)
    requires AllNamed(fs) && forall i :: 0 <= i < |fs| ==> forall c :: c in fs[i].value ==> IsDigit(c) || NameChar(c)
    ensures FlatObject(ItemText(fs)) && '[' !in ItemText(fs) && ']' !in ItemText(fs)
  {
    var body := "\n      " + FieldsText(fs, "\n      ") + "\n    ";
    FieldsFree(fs, "\n      ", '{');
    FieldsFree(fs, "\n      ", '}');
    FieldsFree(fs, "\n      ", '[');
    FieldsFree(fs, "\n      ", ']');
    assert IsObject(ItemText(fs), body);
  }

  lemma PortsRead(ps: seq<PortConfig>, rest: string)
    ensures ValueText(ListText(PortTexts(ps)) + rest) == ListText(PortTexts(ps))
    ensures PortsOf(Objects(ListText(PortTexts(ps)))) == ps
  {
    forall i | 0 <= i < |ps|
      ensures FlatObject(PortTexts(ps)[i]) && PortOf(PortTexts(ps)[i]) == ps[i]
      ensures '[' !in PortTexts(ps)[i] && ']' !in PortTexts(ps)[i]
    {
      PortNames(ps[i]);
      ItemIsFlat(PortFields(ps[i]));
      PortReads(ps[i], PortTexts(ps)[i]);
    }
    ListReads(PortTexts(ps), rest);
  }

  lemma MappingsRead(ms: seq<CoreMapping>, rest: string)
    ensures ValueText(ListText(MappingTexts(ms)) + rest) == ListText(MappingTexts(ms))
    ensures MappingsOf(Objects(ListText(MappingTexts(ms)))) == ms
  {
    forall i | 0 <= i < |ms|
      ensures FlatObject(MappingTexts(ms)[i]) && MappingOf(MappingTexts(ms)[i]) == ms[i]
      ensures '[' !in MappingTexts(ms)[i] && ']' !in MappingTexts(ms)[i]
    {
      MappingNames(ms[i]);
      ItemIsFlat(MappingFields(ms[i]));
      MappingReads(ms[i], MappingTexts(ms)[i]);
    }
    ListReads(MappingTexts(ms), rest);
  }
}
