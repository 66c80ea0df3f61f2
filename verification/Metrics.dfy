/** Per-core counters, their aggregation, and the latency histogram. Latencies are integer
    nanoseconds compared with bound * 1000. */
module MetricsCollectors {
  import opened Words

  datatype CoreStats = CoreStats(txPackets: u64, rxPackets: u64, txBytes: u64, rxBytes: u64, errors: u64)

  const ZERO_STATS := CoreStats(0, 0, 0, 0, 0)

  function Add64(a: u64, b: u64): u64 {
    (a + b) % TWO_64
  }

  function Plus(a: CoreStats, b: CoreStats): CoreStats {
    CoreStats(Add64(a.txPackets, b.txPackets), Add64(a.rxPackets, b.rxPackets),
              Add64(a.txBytes, b.txBytes), Add64(a.rxBytes, b.rxBytes), Add64(a.errors, b.errors))
  }

  /** Updates for a core that was not configured are dropped. */
  function CountTx(cores: seq<CoreStats>, core: u32, packets: u64, bytes: u64): (r: seq<CoreStats>)
    ensures |r| == |cores|
  {
    if core >= |cores| then cores
    else cores[core := Plus(cores[core], CoreStats(packets, 0, bytes, 0, 0))]
  }

  function CountRx(cores: seq<CoreStats>, core: u32, packets: u64, bytes: u64): (r: seq<CoreStats>)
    ensures |r| == |cores|
  {
    if core >= |cores| then cores
    else cores[core := Plus(cores[core], CoreStats(0, packets, 0, bytes, 0))]
  }

  function CountErrors(cores: seq<CoreStats>, core: u32, n: u64): (r: seq<CoreStats>)
    ensures |r| == |cores|
  {
    if core >= |cores| then cores
    else cores[core := Plus(cores[core], CoreStats(0, 0, 0, 0, n))]
  }

  /** Each update adds to its own counters of its own core, modulo 2^64, and to nothing else. */
  lemma TxAddsUp(cores: seq<CoreStats>, core: u32, n: u64, bytes: u64, c: nat)
    requires c < |cores|
    ensures var a, b := cores[c], CountTx(cores, core, n, bytes)[c];
            b == if c != core then a
                 else a.(txPackets := (a.txPackets + n) % 0x1_0000_0000_0000_0000,
                         txBytes := (a.txBytes + bytes) % 0x1_0000_0000_0000_0000)
  {
  }

  lemma RxAddsUp(cores: seq<CoreStats>, core: u32, n: u64, bytes: u64, c: nat)
    requires c < |cores|
    ensures var a, b := cores[c], CountRx(cores, core, n, bytes)[c];
            b == if c != core then a
                 else a.(rxPackets := (a.rxPackets + n) % 0x1_0000_0000_0000_0000,
                         rxBytes := (a.rxBytes + bytes) % 0x1_0000_0000_0000_0000)
  {
  }

  lemma ErrorsAddUp(cores: seq<CoreStats>, core: u32, n: u64, c: nat)
    requires c < |cores|
    ensures var a, b := cores[c], CountErrors(cores, core, n)[c];
            b == if c != core then a else a.(errors := (a.errors + n) % 0x1_0000_0000_0000_0000)
  {
  }

  // ---------------------------------------------------------------- aggregation

  /** The plain sum of one counter over all cores. */
  function Total(cores: seq<CoreStats>, counter: CoreStats -> u64): nat {
    if cores == [] then 0 else counter(cores[0]) + Total(cores[1..], counter)
  }

  lemma {:induction false} TotalAppend(a: seq<CoreStats>, b: seq<CoreStats>, counter: CoreStats -> u64)
    ensures Total(a + b, counter) == Total(a, counter) + Total(b, counter)
  {
    if a == [] {
      assert a + b == b;
    } else {
      AppendParts(a, b);
      TotalAppend(a[1..], b, counter);
    }
  }

  lemma TotalUpdate(cores: seq<CoreStats>, i: nat, v: CoreStats, counter: CoreStats -> u64)
    requires i < |cores|
    ensures Total(cores[i := v], counter) == Total(cores, counter) - counter(cores[i]) + counter(v)
  {
    assert cores == cores[..i] + [cores[i]] + cores[i + 1..];
    assert cores[i := v] == cores[..i] + [v] + cores[i + 1..];
    TotalAppend(cores[..i] + [cores[i]], cores[i + 1..], counter);
    TotalAppend(cores[..i] + [v], cores[i + 1..], counter);
    TotalAppend(cores[..i], [cores[i]], counter);
    TotalAppend(cores[..i], [v], counter);
    assert Total([v], counter) == counter(v) && Total([cores[i]], counter) == counter(cores[i]);
  }

  function TxPackets(): CoreStats -> u64 { (c: CoreStats) => c.txPackets }
  function RxPackets(): CoreStats -> u64 { (c: CoreStats) => c.rxPackets }
  function TxBytes(): CoreStats -> u64 { (c: CoreStats) => c.txBytes }
  function RxBytes(): CoreStats -> u64 { (c: CoreStats) => c.rxBytes }
  function Errors(): CoreStats -> u64 { (c: CoreStats) => c.errors }

  /** A snapshot is the wrapped total of every counter. */
  ghost predicate IsGlobal(g: CoreStats, cores: seq<CoreStats>) {
    && g.txPackets == Total(cores, TxPackets()) % TWO_64
    && g.rxPackets == Total(cores, RxPackets()) % TWO_64
    && g.txBytes == Total(cores, TxBytes()) % TWO_64
    && g.rxBytes == Total(cores, RxBytes()) % TWO_64
    && g.errors == Total(cores, Errors()) % TWO_64
  }

  lemma AddMod(a: nat, b: u64)
    ensures Add64(a % TWO_64, b) == (a + b) % TWO_64
  {
    var q, r := a / TWO_64, a % TWO_64;
    assert a + b == TWO_64 * q + (r + b);
  }

  lemma GlobalStep(g: CoreStats, cores: seq<CoreStats>, i: nat)
    requires i < |cores| && IsGlobal(g, cores[..i])
    ensures IsGlobal(Plus(g, cores[i]), cores[..i + 1])
  {
    assert cores[..i + 1] == cores[..i] + [cores[i]];
    TotalOfNext(cores, i, TxPackets());
    TotalOfNext(cores, i, RxPackets());
    TotalOfNext(cores, i, TxBytes());
    TotalOfNext(cores, i, RxBytes());
    TotalOfNext(cores, i, Errors());
  }

  lemma TotalOfNext(cores: seq<CoreStats>, i: nat, counter: CoreStats -> u64)
    requires i < |cores|
    ensures Total(cores[..i + 1], counter) == Total(cores[..i], counter) + counter(cores[i])
    ensures Add64(Total(cores[..i], counter) % TWO_64, counter(cores[i])) == Total(cores[..i + 1], counter) % TWO_64
  {
    assert cores[..i + 1] == cores[..i] + [cores[i]];
    TotalAppend(cores[..i], [cores[i]], counter);
    assert Total([cores[i]], counter) == counter(cores[i]);
    AddMod(Total(cores[..i], counter), counter(cores[i]));
  }

  // ---------------------------------------------------------------- the histogram

  /** Bucket boundaries in microseconds; the last bucket is open. */
  const BOUNDS: seq<nat> := [10, 50, 100, 250, 500, 1000, 5000, 10000, 50000]
  const BUCKETS: nat := 10
  const OPEN_END: nat := 0xFFFF_FFFF

  function Lower(i: nat): nat
    requires i < BUCKETS
  {
    if i == 0 then 0 else BOUNDS[i - 1] * 1000
  }

  /** Half-open range of bucket i, in nanoseconds. */
  predicate InBucket(i: nat, ns: nat)
    requires i < BUCKETS
  {
    Lower(i) <= ns && (i + 1 < BUCKETS ==> ns < BOUNDS[i] * 1000)
  }

  function BucketOf(ns: nat): (i: nat)
    ensures i < BUCKETS
  {
    BucketFrom(0, ns)
  }

  /** The search of `record_latency`. */
  function BucketFrom(i: nat, ns: nat): (r: nat)
    requires i < BUCKETS
    ensures i <= r < BUCKETS
    decreases BUCKETS - i
  {
    if i + 1 < BUCKETS && ns >= BOUNDS[i] * 1000 then BucketFrom(i + 1, ns) else i
  }

  lemma {:induction false} BucketFromFits(i: nat, ns: nat)
    requires i < BUCKETS && Lower(i) <= ns
    ensures InBucket(BucketFrom(i, ns), ns)
    decreases BUCKETS - i
  {
    if i + 1 < BUCKETS && ns >= BOUNDS[i] * 1000 {
      BucketFromFits(i + 1, ns);
    }
  }

  /** The buckets partition the latencies: a sample is in the one it is counted in and in no other. */
  lemma BucketsPartition(ns: nat, i: nat)
    requires i < BUCKETS
    ensures InBucket(i, ns) <==> i == BucketOf(ns)
  {
    BucketFromFits(0, ns);
    var b := BucketOf(ns);
    if i < b {
      BoundsIncrease(i + 1, b);
    } else if b < i {
      BoundsIncrease(b + 1, i);
    }
  }

  lemma {:induction false} BoundsIncrease(i: nat, j: nat)
    requires 1 <= i <= j < BUCKETS
    ensures Lower(i) <= Lower(j)
    decreases j - i
  {
    if i < j {
      BoundsIncrease(i, j - 1);
    }
  }

  datatype LatencyCall = Record(ns: u64) | ResetAll

  /** The samples recorded since the last reset. */
  function SinceReset(cs: seq<LatencyCall>): seq<u64> {
    if cs == [] then []
    else match cs[|cs| - 1]
      case ResetAll => []
      case Record(ns) => SinceReset(cs[..|cs| - 1]) + [ns]
  }

  /** How many samples fall in a bucket's range. */
  function CountIn(samples: seq<u64>, i: nat): nat
    requires i < BUCKETS
  {
    if samples == [] then 0
    else CountIn(samples[..|samples| - 1], i) + if InBucket(i, samples[|samples| - 1]) then 1 else 0
  }

  /** The counters agree with the samples, modulo their width. */
  ghost predicate Tallies(buckets: seq<u64>, total: u64, samples: seq<u64>) {
    && |buckets| == BUCKETS
    && total == |samples| % TWO_64
    && forall i :: 0 <= i < BUCKETS ==> buckets[i] == CountIn(samples, i) % TWO_64
  }

  lemma TallyOne(buckets: seq<u64>, total: u64, samples: seq<u64>, ns: u64)
    requires Tallies(buckets, total, samples)
    ensures var b := BucketOf(ns);
            Tallies(buckets[b := Add64(buckets[b], 1)], Add64(total, 1), samples + [ns])
  {
    var b, more := BucketOf(ns), samples + [ns];
    assert more[..|more| - 1] == samples;
    AddMod(|samples|, 1);
    forall i | 0 <= i < BUCKETS
      ensures buckets[b := Add64(buckets[b], 1)][i] == CountIn(more, i) % TWO_64
    {
      BucketsPartition(ns, i);
      AddMod(CountIn(samples, i), 1);
    }
  }

  function SumCounts(samples: seq<u64>, n: nat): nat
    requires n <= BUCKETS
  {
    if n == 0 then 0 else SumCounts(samples, n - 1) + CountIn(samples, n - 1)
  }

  lemma {:induction false} SumCountsStep(samples: seq<u64>, ns: u64, n: nat)
    requires n <= BUCKETS
    ensures SumCounts(samples + [ns], n) == SumCounts(samples, n) + if BucketOf(ns) < n then 1 else 0
    decreases n
  {
    if n > 0 {
      SumCountsStep(samples, ns, n - 1);
      assert (samples + [ns])[..|samples|] == samples;
      BucketsPartition(ns, n - 1);
    }
  }

  lemma {:induction false} SumCountsEmpty(n: nat)
    requires n <= BUCKETS
    ensures SumCounts([], n) == 0
  {
    if n > 0 { SumCountsEmpty(n - 1); }
  }

  /** The counts of all buckets add up to the number of samples. */
  lemma {:induction false} CountsSumToSamples(samples: seq<u64>)
    ensures SumCounts(samples, BUCKETS) == |samples|
    decreases |samples|
  {
    if samples == [] {
      SumCountsEmpty(BUCKETS);
    } else {
      var front, ns := samples[..|samples| - 1], samples[|samples| - 1];
      assert samples == front + [ns];
      CountsSumToSamples(front);
      SumCountsStep(front, ns, BUCKETS);
    }
  }

  /** The histogram's counters as `record_latency` and `reset_all` change them. */
  datatype Latency = Latency(buckets: seq<u64>, total: u64)

  function Tallied(cs: seq<LatencyCall>): (r: Latency)
    ensures |r.buckets| == BUCKETS
  {
    if cs == [] then Latency(seq(BUCKETS, _ => 0), 0)
    else match cs[|cs| - 1]
      case ResetAll => Latency(seq(BUCKETS, _ => 0), 0)
      case Record(ns) =>
        var before := Tallied(cs[..|cs| - 1]);
        var b := BucketOf(ns);
        Latency(before.buckets[b := Add64(before.buckets[b], 1)], Add64(before.total, 1))
  }

  /** After any sequence of records and resets each counter is the number of samples since the last
      reset in its range, and the range counts add up to the number of samples. */
  lemma {:induction false} HistogramMatchesSamples(cs: seq<LatencyCall>)
    ensures Tallies(Tallied(cs).buckets, Tallied(cs).total, SinceReset(cs))
    ensures SumCounts(SinceReset(cs), BUCKETS) == |SinceReset(cs)|
    decreases |cs|
  {
    CountsSumToSamples(SinceReset(cs));
    if cs != [] && cs[|cs| - 1].Record? {
      var front, ns := cs[..|cs| - 1], cs[|cs| - 1].ns;
      HistogramMatchesSamples(front);
      TallyOne(Tallied(front).buckets, Tallied(front).total, SinceReset(front), ns);
    }
  }

  datatype BucketInfo = BucketInfo(minUs: nat, maxUs: nat, count: u64)

  /** A report is contiguous from zero, ends open, and counts what each range holds. */
  ghost predicate Reports(h: seq<BucketInfo>, samples: seq<u64>) {
    && |h| == BUCKETS && h[0].minUs == 0 && h[BUCKETS - 1].maxUs == OPEN_END
    && (forall i :: 0 <= i < BUCKETS - 1 ==> h[i].maxUs == h[i + 1].minUs == BOUNDS[i])
    && forall i :: 0 <= i < BUCKETS ==> h[i].count == CountIn(samples, i) % TWO_64
  }

  // ---------------------------------------------------------------- the class

  class MetricsCollector {
    var cores: seq<CoreStats>
    var buckets: array<u64>
    var samples: u64
    ghost var calls: seq<LatencyCall>  // the latency calls made so far

    ghost predicate Valid()
      reads this, buckets
    {
      Tallies(buckets[..], samples, SinceReset(calls))
    }

    constructor ()
      ensures Valid() && cores == [] && calls == [] && fresh(buckets)
    {
      cores, samples, calls := [], 0, [];
      buckets := new u64[BUCKETS](_ => 0);
    }

    /** A collector starts over with all counters zero; zero cores are refused. */
    method Initialize(numCores: u32) returns (ok: bool)
      requires Valid()
      modifies this, buckets
      ensures Valid() && (ok <==> numCores > 0) && fresh({buckets} - {old(buckets)})
      ensures ok ==> cores == seq(numCores, _ => ZERO_STATS) && SinceReset(calls) == []
      ensures !ok ==> cores == old(cores) && calls == old(calls)
    {
      if numCores == 0 {
        return false;
      }
      cores := seq(numCores, _ => ZERO_STATS);
      ClearLatency();
      ok := true;
    }

    method ClearLatency()
      modifies this`buckets, this`samples, this`calls
      ensures Valid() && fresh(buckets) && calls == old(calls) + [ResetAll]
    {
      buckets := new u64[BUCKETS](_ => 0);
      samples, calls := 0, calls + [ResetAll];
      assert SinceReset(calls) == [];
    }

    method UpdateTxStats(core: u32, packets: u64, bytes: u64)
      modifies this`cores
      ensures cores == CountTx(old(cores), core, packets, bytes)
    {
      if core >= |cores| {
        return;
      }
      var c := cores[core];
      cores := cores[core := c.(txPackets := Add64(c.txPackets, packets), txBytes := Add64(c.txBytes, bytes))];
    }

    method UpdateRxStats(core: u32, packets: u64, bytes: u64)
      modifies this`cores
      ensures cores == CountRx(old(cores), core, packets, bytes)
    {
      if core >= |cores| {
        return;
      }
      var c := cores[core];
      cores := cores[core := c.(rxPackets := Add64(c.rxPackets, packets), rxBytes := Add64(c.rxBytes, bytes))];
    }

    method UpdateErrors(core: u32, n: u64)
      modifies this`cores
      ensures cores == CountErrors(old(cores), core, n)
    {
      if core >= |cores| {
        return;
      }
      cores := cores[core := cores[core].(errors := Add64(cores[core].errors, n))];
    }

    method GetCoreStats(core: u32) returns (c: CoreStats)
      ensures c == if core < |cores| then cores[core] else ZERO_STATS
    {
      if core >= |cores| {
        return ZERO_STATS;
      }
      c := cores[core];
    }

    method GetGlobalStats() returns (g: CoreStats)
      ensures IsGlobal(g, cores)
    {
      g := ZERO_STATS;
      var i := 0;
      while i < |cores|
        invariant 0 <= i <= |cores|
        invariant IsGlobal(g, cores[..i])
      {
        GlobalStep(g, cores, i);
        g := Plus(g, cores[i]);
        i := i + 1;
      }
      assert cores[..i] == cores;
    }

    method ResetAllStats()
      requires Valid()
      modifies this, buckets
      ensures Valid() && fresh(buckets) && SinceReset(calls) == []
      ensures cores == seq(|old(cores)|, _ => ZERO_STATS)
    {
      cores := seq(|cores|, _ => ZERO_STATS);
      ClearLatency();
    }

    method ResetCore(core: u32)
      modifies this`cores
      ensures cores == if core < |old(cores)| then old(cores)[core := ZERO_STATS] else old(cores)
    {
      if core < |cores| {
        cores := cores[core := ZERO_STATS];
      }
    }

    /** Finds the bucket by walking up the boundaries. */
    method RecordLatency(ns: u64)
      requires Valid()
      modifies this`samples, this`calls, buckets
      ensures Valid() && SinceReset(calls) == SinceReset(old(calls)) + [ns]
    {
      ghost var before, total, seen := buckets[..], samples, SinceReset(calls);
      samples := Add64(samples, 1);
      var i := 0;
      while i + 1 < BUCKETS && ns >= BOUNDS[i] * 1000
        invariant 0 <= i < BUCKETS && BucketFrom(i, ns) == BucketOf(ns)
      {
        i := i + 1;
      }
      assert buckets.Length == |before|;
      buckets[i] := Add64(buckets[i], 1);
      calls := calls + [Record(ns)];
      assert calls[..|calls| - 1] == old(calls);
      assert buckets[..] == before[i := Add64(before[i], 1)];
      TallyOne(before, total, seen, ns);
    }

    method GetLatencyHistogram() returns (h: seq<BucketInfo>)
      requires Valid()
      ensures Reports(h, SinceReset(calls))
    {
      h := [];
      var prev := 0;
      var i := 0;
      assert buckets.Length == |buckets[..]|;
      while i < BUCKETS
        invariant 0 <= i <= BUCKETS && |h| == i
        invariant prev == if i == 0 then 0 else BOUNDS[Min(i, BUCKETS - 1) - 1]
        invariant forall j :: 0 <= j < i ==> h[j].minUs == (if j == 0 then 0 else BOUNDS[j - 1])
        invariant forall j :: 0 <= j < i ==> h[j].maxUs == (if j + 1 < BUCKETS then BOUNDS[j] else OPEN_END)
        invariant forall j :: 0 <= j < i ==> h[j].count == buckets[..][j]
      {
        if i + 1 < BUCKETS {
          h := h + [BucketInfo(prev, BOUNDS[i], buckets[i])];
          prev := BOUNDS[i];
        } else {
          h := h + [BucketInfo(prev, OPEN_END, buckets[i])];
        }
        i := i + 1;
      }
    }
  }
}
