/** The per-core counters over every run, core by core and counter by counter: frames and bytes a core has sent,
    buffers and bytes it has received, and no errors; and the totals a snapshot reports of what was received. */
module TrafficRuns {
  import opened Words
  import opened FlowSchedulers
  import opened MetricsCollectors
  import opened Workers
  import opened Pipelines
  import opened CounterRuns

  /** What an event or a run adds to a core's counters. */
  datatype Traffic = Traffic(sentFrames: nat, sentBytes: nat, received: nat, receivedBytes: nat)

  const NO_TRAFFIC := Traffic(0, 0, 0, 0)

  function Both(a: Traffic, b: Traffic): Traffic {
    Traffic(a.sentFrames + b.sentFrames, a.sentBytes + b.sentBytes, a.received + b.received,
            a.receivedBytes + b.receivedBytes)
  }

  function FrameBytes(burst: seq<Slot>): nat {
    if burst == [] then 0 else |burst[0].frame| + FrameBytes(burst[1..])
  }

  function BufferBytes(batch: seq<RxSlot>): nat {
    if batch == [] then 0 else batch[0].len + BufferBytes(batch[1..])
  }

  /** A send counts the frames the NIC took for the sending worker's core; a reception counts the batch for the
      receiving worker's core, if its byte count, kept in 64 bits, is not zero. */
  function TrafficBy(s: System, e: Event, core: nat): Traffic {
    match e
    case Send(w, n) =>
      if w < |s.workers| && s.workers[w].core == core && n <= |s.workers[w].burst|
      then Traffic(n, FrameBytes(s.workers[w].burst[..n]), 0, 0) else NO_TRAFFIC
    case ReceiveBatch(w, batch, _) =>
      if w < |s.workers| && s.workers[w].core == core && BufferBytes(batch) % 0x1_0000_0000_0000_0000 != 0
      then Traffic(0, 0, |batch|, BufferBytes(batch)) else NO_TRAFFIC
    case _ => NO_TRAFFIC
  }

  ghost function TrafficOf(s: System, es: seq<Event>, core: nat): Traffic
    decreases |es|
  {
    if es == [] || !Enabled(s, es[0]) then NO_TRAFFIC
    else Both(TrafficBy(s, es[0], core), TrafficOf(Next(s, es[0]), es[1..], core))
  }

  /** A counter of 64 bits has risen by `n`. */
  predicate Rises(a: u64, n: nat, b: u64) {
    b == (a + n) % 0x1_0000_0000_0000_0000
  }

  predicate Counted(a: CoreStats, t: Traffic, b: CoreStats) {
    && Rises(a.txPackets, t.sentFrames, b.txPackets) && Rises(a.txBytes, t.sentBytes, b.txBytes)
    && Rises(a.rxPackets, t.received, b.rxPackets) && Rises(a.rxBytes, t.receivedBytes, b.rxBytes)
    && b.errors == a.errors
  }

  // ---------------------------------------------------------------- one event

  lemma {:induction false} FrameBytesAre(burst: seq<Slot>)
    ensures TotalBytes(burst) == FrameBytes(burst)
  {
    if burst != [] {
      assert burst == [burst[0]] + burst[1..] && [burst[0]][..0] == [];
      BytesSplit([burst[0]], burst[1..]);
      assert TotalBytes([burst[0]]) == TotalBytes([]) + |burst[0].frame|;
      FrameBytesAre(burst[1..]);
    }
  }

  lemma {:induction false} BufferBytesAre(batch: seq<RxSlot>, i: nat)
    requires i <= |batch|
    ensures RxLengths(batch, i) == BufferBytes(batch[i..])
    decreases |batch| - i
  {
    if i < |batch| {
      assert batch[i..][0] == batch[i] && batch[i..][1..] == batch[i + 1..];
      BufferBytesAre(batch, i + 1);
    }
  }

  lemma RisesByWrapped(a: u64, n: nat)
    ensures Rises(a, n, Add64(a, n % TWO_64))
  {
    SumModMod(n, a);
  }

  lemma RisesByNothing(a: u64)
    ensures Rises(a, 0, a)
  {
  }

  lemma RisesTwice(a: u64, m: nat, b: u64, n: nat, c: u64)
    requires Rises(a, m, b) && Rises(b, n, c)
    ensures Rises(a, m + n, c)
  {
    SumModMod(a + m, n);
  }

  lemma TxCounted(cores: seq<CoreStats>, core: u32, n: u16, bytes: nat, c: nat)
    requires c < |cores|
    ensures var t := if core == c then Traffic(n, bytes, 0, 0) else NO_TRAFFIC;
            Counted(cores[c], t, CountTx(cores, core, n, bytes % TWO_64)[c])
  {
    RisesByWrapped(cores[c].txBytes, bytes);
  }

  lemma RxCounted(cores: seq<CoreStats>, core: u32, n: u16, bytes: nat, c: nat)
    requires c < |cores|
    ensures var t := if core == c then Traffic(0, 0, n, bytes) else NO_TRAFFIC;
            Counted(cores[c], t, CountRx(cores, core, n, bytes % TWO_64)[c])
  {
    RisesByWrapped(cores[c].rxBytes, bytes);
  }

  lemma SendCounted(s: System, e: Event, c: nat)
    requires Enabled(s, e) && e.Send? && c < |s.cores|
    ensures |Next(s, e).cores| == |s.cores| && Counted(s.cores[c], TrafficBy(s, e, c), Next(s, e).cores[c])
  {
    var me := s.workers[e.w];
    FrameBytesAre(me.burst[..e.n]);
    TxCounted(s.cores, me.core, e.n, FrameBytes(me.burst[..e.n]), c);
    if e.n == 0 {
      assert me.burst[..0] == [];
    }
  }

  lemma ReceiveCounted(s: System, e: Event, c: nat)
    requires Enabled(s, e) && e.ReceiveBatch? && c < |s.cores|
    ensures |Next(s, e).cores| == |s.cores| && Counted(s.cores[c], TrafficBy(s, e, c), Next(s, e).cores[c])
  {
    var x := Rx(s.sched, s.free, [], 0);
    ReceiveAllFreesAll(x, e.batch, 0, e.now);
    BufferBytesAre(e.batch, 0);
    assert e.batch[0..] == e.batch;
    RxCounted(s.cores, s.workers[e.w].core, |e.batch|, BufferBytes(e.batch), c);
  }

  /** One event adds to each core's counters its own traffic and nothing else. */
  lemma EventCounted(s: System, e: Event, c: nat)
    requires Enabled(s, e) && c < |s.cores|
    ensures |Next(s, e).cores| == |s.cores| && Counted(s.cores[c], TrafficBy(s, e, c), Next(s, e).cores[c])
  {
    if e.Send? {
      SendCounted(s, e, c);
    } else if e.ReceiveBatch? {
      ReceiveCounted(s, e, c);
    } else {
      OthersCountNothing(s, e);
      NothingCounted(s.cores[c]);
    }
  }

  lemma OthersCountNothing(s: System, e: Event)
    requires Enabled(s, e) && !e.Send? && !e.ReceiveBatch?
    ensures Next(s, e).cores == s.cores
  {
  }

  lemma NothingCounted(a: CoreStats)
    ensures Counted(a, NO_TRAFFIC, a)
  {
  }

  lemma CountedTwice(a: CoreStats, t: Traffic, b: CoreStats, u: Traffic, c: CoreStats)
    requires Counted(a, t, b) && Counted(b, u, c)
    ensures Counted(a, Both(t, u), c)
  {
    RisesTwice(a.txPackets, t.sentFrames, b.txPackets, u.sentFrames, c.txPackets);
    RisesTwice(a.txBytes, t.sentBytes, b.txBytes, u.sentBytes, c.txBytes);
    RisesTwice(a.rxPackets, t.received, b.rxPackets, u.received, c.rxPackets);
    RisesTwice(a.rxBytes, t.receivedBytes, b.rxBytes, u.receivedBytes, c.rxBytes);
  }

  // ---------------------------------------------------------------- runs

  /** Over every run each core's counters have risen by exactly what workers on that core have sent and received,
      modulo 2^64, and its errors have not. */
  lemma {:induction false} CoreCountsTraffic(s: System, es: seq<Event>, z: System, c: nat)
    requires Leads(s, es, z) && c < |s.cores|
    ensures |z.cores| == |s.cores| && Counted(s.cores[c], TrafficOf(s, es, c), z.cores[c])
    decreases |es|
  {
    if es != [] {
      var y := Next(s, es[0]);
      EventCounted(s, es[0], c);
      CoreCountsTraffic(y, es[1..], z, c);
      CountedTwice(s.cores[c], TrafficBy(s, es[0], c), y.cores[c], TrafficOf(y, es[1..], c), z.cores[c]);
    }
  }

  // ---------------------------------------------------------------- what was received in all

  /** Buffers in the batches that count, and bytes in all batches. */
  function BuffersIn(e: Event): nat {
    if e.ReceiveBatch? && BufferBytes(e.batch) % 0x1_0000_0000_0000_0000 != 0 then |e.batch| else 0
  }

  function BytesIn(e: Event): nat {
    if e.ReceiveBatch? then BufferBytes(e.batch) else 0
  }

  function BuffersReceived(es: seq<Event>): nat {
    if es == [] then 0 else BuffersIn(es[0]) + BuffersReceived(es[1..])
  }

  function BytesReceived(es: seq<Event>): nat {
    if es == [] then 0 else BytesIn(es[0]) + BytesReceived(es[1..])
  }

  /** The totals of the receive counters over all cores have risen by this much, modulo 2^64, and the total of the
      errors not at all. */
  ghost predicate ReceivedInAll(a: seq<CoreStats>, buffers: nat, bytes: nat, b: seq<CoreStats>) {
    && Multiple(Total(b, RxPackets()) - (Total(a, RxPackets()) + buffers))
    && Multiple(Total(b, RxBytes()) - (Total(a, RxBytes()) + bytes))
    && Total(b, Errors()) == Total(a, Errors())
  }

  lemma RxInAll(cores: seq<CoreStats>, core: u32, n: u16, bytes: nat)
    requires core < |cores|
    ensures ReceivedInAll(cores, n, bytes, CountRx(cores, core, n, bytes % TWO_64))
  {
    var v := Plus(cores[core], CoreStats(0, n, 0, bytes % TWO_64, 0));
    SumModMod(bytes, cores[core].rxBytes);
    ChargedTotal(cores, core, v, RxPackets(), n);
    ChargedTotal(cores, core, v, RxBytes(), bytes);
    TotalUpdate(cores, core, v, Errors());
  }

  lemma TxInAll(cores: seq<CoreStats>, core: u32, n: u16, bytes: u64)
    ensures ReceivedInAll(cores, 0, 0, CountTx(cores, core, n, bytes))
  {
    NoWraps();
    if core < |cores| {
      var v := Plus(cores[core], CoreStats(n, 0, bytes, 0, 0));
      TotalUpdate(cores, core, v, RxPackets());
      TotalUpdate(cores, core, v, RxBytes());
      TotalUpdate(cores, core, v, Errors());
    }
  }

  lemma NothingInAll(cores: seq<CoreStats>, bytes: nat)
    requires bytes % TWO_64 == 0
    ensures ReceivedInAll(cores, 0, bytes, cores)
  {
    NoWraps();
    assert 0 - bytes == Wraps(0 - bytes / TWO_64);
  }

  lemma ReceiveInAll(s: System, e: Event)
    requires Enabled(s, e) && e.ReceiveBatch? && s.workers[e.w].core < |s.cores|
    ensures ReceivedInAll(s.cores, BuffersIn(e), BytesIn(e), Next(s, e).cores)
  {
    ReceiveAllFreesAll(Rx(s.sched, s.free, [], 0), e.batch, 0, e.now);
    BufferBytesAre(e.batch, 0);
    assert e.batch[0..] == e.batch;
    if BufferBytes(e.batch) % TWO_64 != 0 {
      RxInAll(s.cores, s.workers[e.w].core, |e.batch|, BufferBytes(e.batch));
    } else {
      NothingInAll(s.cores, BufferBytes(e.batch));
    }
  }

  lemma OthersReceiveNothing(s: System, e: Event)
    requires Enabled(s, e) && !e.ReceiveBatch?
    ensures ReceivedInAll(s.cores, 0, 0, Next(s, e).cores)
  {
    NothingInAll(s.cores, 0);
    if e.Send? {
      TxInAll(s.cores, s.workers[e.w].core, e.n, TotalBytes(s.workers[e.w].burst[..e.n]) % TWO_64);
    }
  }

  lemma EventReceives(s: System, e: Event)
    requires Enabled(s, e) && CoresInRange(s)
    ensures ReceivedInAll(s.cores, BuffersIn(e), BytesIn(e), Next(s, e).cores) && CoresInRange(Next(s, e))
  {
    EventKeepsCores(s, e);
    if e.ReceiveBatch? {
      ReceiveInAll(s, e);
    } else {
      OthersReceiveNothing(s, e);
    }
  }

  lemma InAllTwice(a: seq<CoreStats>, m: nat, k: nat, b: seq<CoreStats>, n: nat, l: nat, c: seq<CoreStats>)
    requires ReceivedInAll(a, m, k, b) && ReceivedInAll(b, n, l, c)
    ensures ReceivedInAll(a, m + n, k + l, c)
  {
    MultiplesAdd(Total(b, RxPackets()) - (Total(a, RxPackets()) + m),
                 Total(c, RxPackets()) - (Total(b, RxPackets()) + n),
                 Total(c, RxPackets()) - (Total(a, RxPackets()) + m + n));
    MultiplesAdd(Total(b, RxBytes()) - (Total(a, RxBytes()) + k), Total(c, RxBytes()) - (Total(b, RxBytes()) + l),
                 Total(c, RxBytes()) - (Total(a, RxBytes()) + k + l));
  }

  lemma {:induction false} RunReceives(s: System, es: seq<Event>, z: System)
    requires Leads(s, es, z) && CoresInRange(s)
    ensures ReceivedInAll(s.cores, BuffersReceived(es), BytesReceived(es), z.cores)
    decreases |es|
  {
    if es == [] {
      NothingInAll(s.cores, 0);
    } else {
      var y := Next(s, es[0]);
      EventReceives(s, es[0]);
      RunReceives(y, es[1..], z);
      InAllTwice(s.cores, BuffersIn(es[0]), BytesIn(es[0]), y.cores,
                 BuffersReceived(es[1..]), BytesReceived(es[1..]), z.cores);
    }
  }

  lemma {:induction false} NothingReceivedYet(cores: seq<CoreStats>)
    requires forall c :: 0 <= c < |cores| ==> cores[c] == ZERO_STATS
    ensures Total(cores, RxPackets()) == Total(cores, RxBytes()) == Total(cores, Errors()) == 0
  {
    if cores != [] {
      NothingReceivedYet(cores[1..]);
    }
  }

  /** Over every run from the start, with core ids in range, a snapshot reports as received exactly the buffers of the
      batches that count and the bytes of all batches, modulo 2^64, and no errors. */
  lemma SnapshotMatchesReceptions(first: System, es: seq<Event>, z: System, g: CoreStats)
    requires Initial(first) && Leads(first, es, z) && CoresInRange(first) && IsGlobal(g, z.cores)
    ensures Rises(0, BuffersReceived(es), g.rxPackets) && Rises(0, BytesReceived(es), g.rxBytes) && g.errors == 0
  {
    RunReceives(first, es, z);
    NothingReceivedYet(first.cores);
    Reported(first.cores, BuffersReceived(es), BytesReceived(es), z.cores, g);
  }

  lemma Reported(a: seq<CoreStats>, buffers: nat, bytes: nat, b: seq<CoreStats>, g: CoreStats)
    requires ReceivedInAll(a, buffers, bytes, b) && IsGlobal(g, b)
    requires Total(a, RxPackets()) == Total(a, RxBytes()) == Total(a, Errors()) == 0
    ensures Rises(0, buffers, g.rxPackets) && Rises(0, bytes, g.rxBytes) && g.errors == 0
  {
    Congruent(Total(b, RxPackets()), buffers, Total(b, RxPackets()) - buffers);
    Congruent(Total(b, RxBytes()), bytes, Total(b, RxBytes()) - bytes);
  }
}
