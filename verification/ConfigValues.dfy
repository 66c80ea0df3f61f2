/** What single values of a configuration text come to, with the values written out: absent keys, numbers of every
    form `strtoull` takes, and validation. */
module ConfigValues {
  import opened Words
  import opened ConfigText
  import opened ConfigParsers
  import opened ConfigRoundTrips

  // ---------------------------------------------------------------- absent keys

  lemma NoKey(s: string, key: string)
    requires '"' !in s
    ensures RawValue(s, key) == []
  {
    SeekSkips(s, KeyPattern(key), "");
    assert s + "" == s && Seek("", KeyPattern(key)) == [];
  }

  lemma NoValue(s: string, key: string)
    requires '"' !in s
    ensures StringAt(s, key).None? && UintAt(s, key).None? && BoolAt(s, key).None? && ArrayAt(s, key).None?
    ensures RawValue(s, key) == []
  {
    NoKey(s, key);
    assert Seek([], "true") == [] && Seek([], "false") == [];
  }

  /** A text without a quoted key gives the default configuration. */
  lemma DefaultsStay(s: string)
    requires '"' !in s
    ensures ParseConfig(s)
            == AppConfig("/mnt/huge", 2, [PortConfig(0, 1, 1, 1024, 1024)], [CoreMapping(1, 0, 0, false)],
                         GrpcConfig("0.0.0.0", 50051), 8192, 512, 32, 32)
  {
    NoValue(s, "hugepage_path");
    NoValue(s, "num_cores");
    NoValue(s, "ports");
    NoValue(s, "core_mappings");
    NoValue(s, "grpc_config");
    NoValue(s, "mbufs_per_socket");
    NoValue(s, "mbuf_cache_size");
    NoValue(s, "tx_burst_size");
    NoValue(s, "rx_burst_size");
  }

  /** A list item without keys is all zeros, and does not receive. */
  lemma EmptyItems(obj: string)
    requires '"' !in obj
    ensures PortOf(obj) == PortConfig(0, 0, 0, 0, 0) && MappingOf(obj) == CoreMapping(0, 0, 0, false)
  {
    NoValue(obj, "port_id");
    NoValue(obj, "nb_rx_queues");
    NoValue(obj, "nb_tx_queues");
    NoValue(obj, "nb_rx_desc");
    NoValue(obj, "nb_tx_desc");
    NoValue(obj, "core_id");
    NoValue(obj, "queue_id");
    NoValue(obj, "enable_rx");
  }

  // ---------------------------------------------------------------- numbers

  lemma Unsigned(n: nat, x: string)
    requires Stops(x)
    ensures LeadingDigits(Decimal(n) + x) == Decimal(n) && DecimalValue(Decimal(n)) == n
    ensures SkipSpace(Decimal(n) + x) == Decimal(n) + x && IsDigit((Decimal(n) + x)[0])
  {
    var s := Decimal(n) + x;
    assert s[0] == Decimal(n)[0] && IsDigit(s[0]);
    DigitsLead(Decimal(n), x);
    DecimalReads(n);
  }

  /** A decimal number, whatever follows it: its value below 2^64, and the largest value from there on. */
  lemma DecimalText(n: nat, x: string)
    requires Stops(x)
    ensures StrToULL(Decimal(n) + x) == Some(if n < 0x1_0000_0000_0000_0000 then n else 0xFFFF_FFFF_FFFF_FFFF)
  {
    Unsigned(n, x);
  }

  lemma PlusText(t: string)
    requires t != [] && IsDigit(t[0])
    ensures StrToULL("+" + t) == StrToULL(t)
  {
    assert ("+" + t)[1..] == t && SkipSpace("+" + t) == "+" + t && SkipSpace(t) == t;
  }

  lemma MinusText(t: string, n: nat)
    requires LeadingDigits(t) != [] && DecimalValue(LeadingDigits(t)) == n
    ensures StrToULL("-" + t)
            == Some(if n == 0 then 0 else if n < 0x1_0000_0000_0000_0000 then 0x1_0000_0000_0000_0000 - n
                    else 0xFFFF_FFFF_FFFF_FFFF)
  {
    assert ("-" + t)[1..] == t && SkipSpace("-" + t) == "-" + t;
  }

  /** A sign in front: a plus changes nothing, a minus negates modulo 2^64, and an overflow saturates all the same. */
  lemma SignedText(n: nat, x: string)
    requires Stops(x)
    ensures StrToULL("+" + (Decimal(n) + x)) == StrToULL(Decimal(n) + x)
    ensures StrToULL("-" + (Decimal(n) + x))
            == Some(if n == 0 then 0 else if n < 0x1_0000_0000_0000_0000 then 0x1_0000_0000_0000_0000 - n
                    else 0xFFFF_FFFF_FFFF_FFFF)
  {
    Unsigned(n, x);
    PlusText(Decimal(n) + x);
    MinusText(Decimal(n) + x, n);
  }

  /** Blanks in front are skipped. */
  lemma BlankText(c: char, s: string)
    requires c in {' ', '\t', '\n', '\r'}
    ensures StrToULL([c] + s) == StrToULL(s)
  {
    assert ([c] + s)[1..] == s;
  }

  /** Anything else is no number. */
  lemma NoNumber(s: string)
    requires s == [] || (!IsSpace(s[0]) && s[0] !in {'+', '-'} && !('0' <= s[0] <= '9'))
    ensures StrToULL(s).None?
  {
  }

  /** Fields narrower than the number keep its low bits. */
  lemma NarrowFields(json: string, key: string, n: u64, was: u16)
    requires UintAt(json, key) == Some(n)
    ensures U16Or(json, key, was) == n % 0x1_0000 && U32Or(json, key, was) == n % 0x1_0000_0000
  {
  }

  /** A flag whose text holds both words is true. */
  lemma TrueBeforeFalse(json: string, key: string, a: string, b: string)
    requires RawValue(json, key) == a + ("true" + b) && 't' !in a
    ensures BoolAt(json, key) == Some(true)
  {
    SeekSkips(a, "true", "true" + b);
    assert "true" <= "true" + b;
  }

  // ---------------------------------------------------------------- validation

  /** The default configuration is valid, and one queue on either side is enough; without cores, ports, mappings,
      queues or descriptors, or with a mapping to a port that is not there, it is not. */
  lemma ValidationExamples()
    ensures var c, p := DEFAULT_CONFIG, DEFAULT_CONFIG.ports[0];
            && Valid(c) && Valid(c.(ports := [p.(nbRxQueues := 0)])) && Valid(c.(ports := [p.(nbTxQueues := 0)]))
            && !Valid(c.(numCores := 0)) && !Valid(c.(ports := [])) && !Valid(c.(coreMappings := []))
            && !Valid(c.(ports := [p.(nbRxQueues := 0, nbTxQueues := 0)]))
            && !Valid(c.(ports := [p.(nbRxDesc := 0)])) && !Valid(c.(ports := [p.(nbTxDesc := 0)]))
            && !Valid(c.(ports := [p.(portId := 1)]))
  {
    var c, p := DEFAULT_CONFIG, DEFAULT_CONFIG.ports[0];
    var a, b, d := p.(nbRxQueues := 0), p.(nbTxQueues := 0), p.(portId := 1);
    assert p in c.ports && a in [a] && b in [b] && d in [d] && c.coreMappings[0] in c.coreMappings;
    assert p.(nbRxQueues := 0, nbTxQueues := 0) in [p.(nbRxQueues := 0, nbTxQueues := 0)];
    assert p.(nbRxDesc := 0) in [p.(nbRxDesc := 0)] && p.(nbTxDesc := 0) in [p.(nbTxDesc := 0)];
  }
}
