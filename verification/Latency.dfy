/** Latency samples of a received batch, buffer by buffer, and where the histogram counts them, with the ranges
    written out in nanoseconds and microseconds. */
module Latencies {
  import opened Words
  import opened FlowSchedulers
  import opened MetricsCollectors
  import opened Workers

  /** The buffer was stamped, and before now. */
  predicate Timed(r: RxSlot, now: u64) {
    r.stamp.Some? && 0 < r.stamp.value < now
  }

  /** The positions of such buffers, from `i` on and in order. */
  function TimedFrom(batch: seq<RxSlot>, i: nat, now: u64): seq<nat>
    requires i <= |batch|
    decreases |batch| - i
  {
    if i == |batch| then [] else (if Timed(batch[i], now) then [i] else []) + TimedFrom(batch, i + 1, now)
  }

  lemma {:induction false} TimedPositions(batch: seq<RxSlot>, i: nat, now: u64)
    requires i <= |batch|
    ensures var ks := TimedFrom(batch, i, now);
            && (forall k :: k in ks <==> i <= k < |batch| && Timed(batch[k], now))
            && (forall a, b :: 0 <= a < b < |ks| ==> ks[a] < ks[b])
    decreases |batch| - i
  {
    if i < |batch| {
      TimedPositions(batch, i + 1, now);
      var ks, rest := TimedFrom(batch, i, now), TimedFrom(batch, i + 1, now);
      forall k ensures k in ks <==> i <= k < |batch| && Timed(batch[k], now) {
        assert k in ks <==> (k == i && Timed(batch[i], now)) || k in rest;
      }
      forall a, b | 0 <= a < b < |ks| ensures ks[a] < ks[b] {
        if |ks| > |rest| {
          assert ks[b] == rest[b - 1] && ks[b] in rest;
          assert a > 0 ==> ks[a] == rest[a - 1];
        }
      }
    }
  }

  /** The samples are one per position, each the time from the buffer's stamp to now. */
  ghost predicate SamplesAt(samples: seq<u64>, batch: seq<RxSlot>, ks: seq<nat>, now: u64) {
    |samples| == |ks|
    && forall j :: 0 <= j < |ks| ==>
         ks[j] < |batch| && Timed(batch[ks[j]], now) && batch[ks[j]].stamp.value + samples[j] == now
  }

  /** The samples a batch adds: in order, one for each buffer stamped before now, and none for any other. */
  lemma {:induction false} SamplesOfBatch(x: Rx, batch: seq<RxSlot>, i: nat, now: u64) returns (samples: seq<u64>)
    requires Parsable(batch) && i <= |batch|
    ensures ReceiveAll(x, batch, i, now).seen == x.seen + samples
    ensures SamplesAt(samples, batch, TimedFrom(batch, i, now), now)
    decreases |batch| - i
  {
    if i == |batch| {
      samples := [];
      assert x.seen == x.seen + [];
    } else {
      var y := ReceiveStep(x, batch[i], now);
      var rest := SamplesOfBatch(y, batch, i + 1, now);
      var own: seq<u64> := if Timed(batch[i], now) then [now - batch[i].stamp.value] else [];
      samples := own + rest;
      StepSamples(x, batch[i], now, own);
      assert x.seen + own + rest == x.seen + samples;
      TimesJoin(own, rest, batch, if Timed(batch[i], now) then [i] else [], TimedFrom(batch, i + 1, now), now);
    }
  }

  lemma StepSamples(x: Rx, r: RxSlot, now: u64, own: seq<u64>)
    requires |r.data| >= 54 && own == if Timed(r, now) then [now - r.stamp.value] else []
    ensures ReceiveStep(x, r, now).seen == x.seen + own
  {
  }

  lemma TimesJoin(a: seq<u64>, b: seq<u64>, batch: seq<RxSlot>, js: seq<nat>, ks: seq<nat>, now: u64)
    requires SamplesAt(a, batch, js, now) && SamplesAt(b, batch, ks, now)
    ensures SamplesAt(a + b, batch, js + ks, now)
  {
  }

  // ---------------------------------------------------------------- the ranges

  /** The ten ranges, in nanoseconds. */
  predicate InRange(i: nat, ns: nat) {
    match i
    case 0 => ns < 10_000
    case 1 => 10_000 <= ns < 50_000
    case 2 => 50_000 <= ns < 100_000
    case 3 => 100_000 <= ns < 250_000
    case 4 => 250_000 <= ns < 500_000
    case 5 => 500_000 <= ns < 1_000_000
    case 6 => 1_000_000 <= ns < 5_000_000
    case 7 => 5_000_000 <= ns < 10_000_000
    case 8 => 10_000_000 <= ns < 50_000_000
    case _ => 50_000_000 <= ns
  }

  lemma RangeOfBucket(i: nat, ns: nat)
    requires i < 10
    ensures InBucket(i, ns) <==> InRange(i, ns)
  {
  }

  /** The boundaries a report names, in microseconds. */
  lemma ReportedRanges(h: seq<BucketInfo>, samples: seq<u64>)
    requires Reports(h, samples)
    ensures |h| == 10 && h[0].minUs == 0 && h[0].maxUs == h[1].minUs == 10 && h[1].maxUs == h[2].minUs == 50
    ensures h[2].maxUs == h[3].minUs == 100 && h[3].maxUs == h[4].minUs == 250 && h[4].maxUs == h[5].minUs == 500
    ensures h[5].maxUs == h[6].minUs == 1000 && h[6].maxUs == h[7].minUs == 5000 && h[7].maxUs == h[8].minUs == 10000
    ensures h[8].maxUs == h[9].minUs == 50000 && h[9].maxUs == 0xFFFF_FFFF
  {
    RangeEnds(h, samples, 0);
    RangeEnds(h, samples, 1);
    RangeEnds(h, samples, 2);
    RangeEnds(h, samples, 3);
    RangeEnds(h, samples, 4);
    RangeEnds(h, samples, 5);
    RangeEnds(h, samples, 6);
    RangeEnds(h, samples, 7);
    RangeEnds(h, samples, 8);
  }

  lemma RangeEnds(h: seq<BucketInfo>, samples: seq<u64>, i: nat)
    requires Reports(h, samples) && i < 9
    ensures h[i].maxUs == h[i + 1].minUs == [10, 50, 100, 250, 500, 1000, 5000, 10000, 50000][i]
  {
    assert 0 <= i < BUCKETS - 1;
    assert BOUNDS[i] == [10, 50, 100, 250, 500, 1000, 5000, 10000, 50000][i];
    assert h[i].maxUs == h[i + 1].minUs;
    assert h[i].maxUs == BOUNDS[i];
  }

  // ---------------------------------------------------------------- what the histogram counts

  /** Buffers from `i` on whose time since their stamp lies in range `b`. */
  function TimedIn(batch: seq<RxSlot>, i: nat, now: u64, b: nat): nat
    requires i <= |batch|
    decreases |batch| - i
  {
    if i == |batch| then 0
    else
      (if Timed(batch[i], now) && InRange(b, now - batch[i].stamp.value) then 1 else 0) + TimedIn(batch, i + 1, now, b)
  }

  /** A received batch adds to the count of each range the buffers whose latency lies in it. */
  lemma {:induction false} CountsOfBatch(x: Rx, batch: seq<RxSlot>, i: nat, now: u64, b: nat)
    requires Parsable(batch) && i <= |batch| && b < 10
    ensures CountIn(ReceiveAll(x, batch, i, now).seen, b) == CountIn(x.seen, b) + TimedIn(batch, i, now, b)
    decreases |batch| - i
  {
    if i < |batch| {
      var y := ReceiveStep(x, batch[i], now);
      CountsOfBatch(y, batch, i + 1, now, b);
      if Timed(batch[i], now) {
        var s := now - batch[i].stamp.value;
        StepSamples(x, batch[i], now, [s]);
        assert y.seen == x.seen + [s] && y.seen[..|y.seen| - 1] == x.seen;
        RangeOfBucket(b, s);
      } else {
        StepSamples(x, batch[i], now, []);
        assert y.seen == x.seen;
      }
    }
  }

  lemma CountReported(h: seq<BucketInfo>, samples: seq<u64>, b: nat, n: nat)
    requires Reports(h, samples) && b < 10 && CountIn(samples, b) == n
    ensures h[b].count == n % 0x1_0000_0000_0000_0000
  {
    assert 0 <= b < BUCKETS;
  }

  /** What a report made after a batch says of each range: the samples before it and the batch's buffers in it. */
  lemma ReportAfterBatch(x: Rx, batch: seq<RxSlot>, now: u64, z: Rx, h: seq<BucketInfo>, b: nat,
                         n: nat)
    requires Parsable(batch) && z == ReceiveAll(x, batch, 0, now) && Reports(h, z.seen) && b < 10
    requires n == CountIn(x.seen, b) + TimedIn(batch, 0, now, b)
    ensures h[b].count == n % 0x1_0000_0000_0000_0000
  {
    CountsOfBatch(x, batch, 0, now, b);
    CountReported(h, z.seen, b, n);
  }
}
