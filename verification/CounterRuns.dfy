/** Counter conservation over every run: what flows count as sent is what cores count as transmitted plus
    what was freed unsent or is still held, for packets and bytes alike, modulo 2^64. */
module CounterRuns {
  import opened Words
  import opened FlowSchedulers
  import opened MetricsCollectors
  import opened Workers
  import opened Pipelines
  import opened RateBounds

  datatype Quantity = Packets | Bytes

  function OfFlow(q: Quantity): Flow -> nat {
    if q.Packets? then PacketsSent() else BytesSent()
  }

  function OfCore(q: Quantity): CoreStats -> u64 {
    if q.Packets? then TxPackets() else TxBytes()
  }

  function OfSlot(q: Quantity, x: Slot): nat {
    if q.Packets? then 1 else |x.frame|
  }

  function OfBurst(q: Quantity, burst: seq<Slot>): nat {
    if q.Packets? then |burst| else TotalBytes(burst)
  }

  function LedgerOf(q: Quantity, s: System): Ledger {
    if q.Packets? then s.packets else s.bytes
  }

  function InFlight(q: Quantity, ws: seq<WorkerState>): nat {
    if ws == [] then 0 else OfBurst(q, ws[0].burst) + InFlight(q, ws[1..])
  }

  /** Sent by flows, present and past. */
  ghost function Sent(q: Quantity, s: System): nat {
    SumOver(s.sched.flows, OfFlow(q)) + LedgerOf(q, s).retired
  }

  /** Counted by cores, dropped, missed or still held. */
  function Accounted(q: Quantity, s: System): nat {
    Total(s.cores, OfCore(q)) + LedgerOf(q, s).dropped + LedgerOf(q, s).uncounted + InFlight(q, s.workers)
  }

  ghost function Balance(q: Quantity, s: System): int {
    Sent(q, s) - Accounted(q, s)
  }

  // ---------------------------------------------------------------- sums over the table

  lemma {:induction false} SumOverSplit(m: map<u32, Flow>, id: u32, g: Flow -> nat)
    requires id in m
    ensures SumOver(m, g) == g(m[id]) + SumOver(m - {id}, g)
    decreases |m|
  {
    var j :| j in m && SumOver(m, g) == g(m[j]) + SumOver(m - {j}, g);
    if j != id {
      assert (m - {j}).Keys == m.Keys - {j};
      SumOverSplit(m - {j}, id, g);
      assert (m - {id}).Keys == m.Keys - {id};
      SumOverSplit(m - {id}, j, g);
      assert m - {j} - {id} == m - {id} - {j};
    }
  }

  lemma SumOverPut(m: map<u32, Flow>, id: u32, f: Flow, g: Flow -> nat)
    ensures SumOver(m[id := f], g) == SumOver(m - {id}, g) + g(f)
  {
    SumOverSplit(m[id := f], id, g);
    assert m[id := f] - {id} == m - {id};
  }

  lemma {:induction false} SumOverSame(a: map<u32, Flow>, b: map<u32, Flow>, g: Flow -> nat)
    requires a.Keys == b.Keys && forall id :: id in a ==> g(a[id]) == g(b[id])
    ensures SumOver(a, g) == SumOver(b, g)
    decreases |a|
  {
    if a == map[] {
      assert b == map[];
    } else {
      var id :| id in a;
      SumOverSplit(a, id, g);
      SumOverSplit(b, id, g);
      assert (a - {id}).Keys == a.Keys - {id} && (b - {id}).Keys == b.Keys - {id};
      SumOverSame(a - {id}, b - {id}, g);
    }
  }

  lemma {:induction false} InFlightUpdate(q: Quantity, ws: seq<WorkerState>, w: nat, v: WorkerState)
    requires w < |ws|
    ensures InFlight(q, ws[w := v]) == InFlight(q, ws) - OfBurst(q, ws[w].burst) + OfBurst(q, v.burst)
  {
    if w == 0 {
      assert ws[w := v][1..] == ws[1..];
    } else {
      assert ws[w := v][1..] == ws[1..][w - 1 := v];
      InFlightUpdate(q, ws[1..], w - 1, v);
    }
  }

  lemma {:induction false} BytesSplit(a: seq<Slot>, b: seq<Slot>)
    ensures TotalBytes(a + b) == TotalBytes(a) + TotalBytes(b)
    decreases |b|
  {
    if b == [] {
      assert a + b == a;
    } else {
      assert (a + b)[..|a + b| - 1] == a + b[..|b| - 1];
      BytesSplit(a, b[..|b| - 1]);
    }
  }

  // ---------------------------------------------------------------- events

  /** What a counter has lost by wrapping `k` times. */
  function Wraps(k: int): int {
    TWO_64 * k
  }

  ghost predicate Multiple(n: int) {
    exists k :: n == Wraps(k)
  }

  lemma NoWraps()
    ensures Multiple(0)
  {
    assert Wraps(0) == 0;
  }

  /** Replacing a summand `a` by the wrapped `a + b` moves a total `m` to `n`, which is `b` more up to wraps. */
  lemma AddWraps(a: u64, b: nat, v: int, m: int, n: int)
    requires v == (a + b) % TWO_64 && n == m - a + v
    ensures Multiple(n - (m + b))
  {
    var x := a + b;
    assert x == TWO_64 * (x / TWO_64) + x % TWO_64;
    assert n - (m + b) == Wraps(-(x / TWO_64));
  }

  lemma TableKept(q: Quantity, s: System, e: Event)
    requires Enabled(s, e) && !TableEvent(e) && !e.Build?
    ensures SumOver(Next(s, e).sched.flows, OfFlow(q)) == SumOver(s.sched.flows, OfFlow(q))
  {
    OtherEventsKeepTable(s, e);
    forall id | id in s.sched.flows ensures OfFlow(q)(s.sched.flows[id]) == OfFlow(q)(Next(s, e).sched.flows[id]) {
      if e.Poll? {
        PollPending(s, e, id);
      } else if e.ReceiveBatch? {
        ReceiveAllOnlyHears(Rx(s.sched, s.free, [], 0), e.batch, 0, e.now);
      }
    }
    SumOverSame(s.sched.flows, Next(s, e).sched.flows, OfFlow(q));
  }

  lemma TableEventBalances(q: Quantity, s: System, e: Event)
    requires Enabled(s, e) && TableEvent(e)
    ensures Sent(q, Next(s, e)) == Sent(q, s) && Accounted(q, Next(s, e)) == Accounted(q, s)
  {
    match e {
      case AddFlow(_, _) => AddBalances(q, s, e);
      case RemoveFlow(id) => RetiredOne(q, s, id);
      case ClearFlows =>
    }
  }

  lemma AddBalances(q: Quantity, s: System, e: Event)
    requires e.AddFlow?
    ensures Sent(q, Next(s, e)) == Sent(q, s) && Accounted(q, Next(s, e)) == Accounted(q, s)
  {
    var f := NewFlow(e.spec, s.mac, e.now);
    if f.Some? {
      SumOverPut(s.sched.flows, e.spec.id, f.value, OfFlow(q));
      RetiredOne(q, s, e.spec.id);
    }
  }

  lemma RetiredOne(q: Quantity, s: System, id: u32)
    ensures SumOver(s.sched.flows - {id}, OfFlow(q)) + LedgerOf(q, Retire(s, id)).retired == Sent(q, s)
  {
    if id in s.sched.flows {
      SumOverSplit(s.sched.flows, id, OfFlow(q));
    } else {
      assert s.sched.flows - {id} == s.sched.flows;
    }
  }

  function SlotOf(q: Quantity, slot: Option<Slot>): nat {
    if slot.Some? then OfSlot(q, slot.value) else 0
  }

  lemma FrameCharges(q: Quantity, f: Flow, g: seq<u8>)
    ensures OfFlow(q)(ChargedFor(f, g)) == (OfFlow(q)(f) + Measured(q, 1, |g|)) % TWO_64
  {
  }

  lemma BuildCharges(q: Quantity, f: Flow, b: Build, x: Slot)
    requires Shaped(f, b) && x.frame == b.frame
    ensures OfFlow(q)(b.flow) == (OfFlow(q)(f) + OfSlot(q, x)) % TWO_64
  {
    var g :| b == Build.Build(ChargedFor(f, g), Outgoing(f, g));
    FrameCharges(q, f, g);
  }

  /** Either nothing was built, or one entry was charged for the frame in the slot. */
  ghost predicate Charged(q: Quantity, flows: map<u32, Flow>, id: u32, t: Stepped) {
    if t.slot.None? then t.flows == flows
    else id in flows && id in t.flows && t.flows == flows[id := t.flows[id]] && OfFlow(q)(flows[id]) < TWO_64
         && OfFlow(q)(t.flows[id]) == (OfFlow(q)(flows[id]) + OfSlot(q, t.slot.value)) % TWO_64
  }

  lemma StepCharges(q: Quantity, flows: map<u32, Flow>, free: set<nat>, id: u32, d: Draw, room: nat)
    ensures Charged(q, flows, id, Step(flows, free, id, d, room))
  {
    if id in flows && flows[id].active && Allocated(free, d).Some? {
      var a := Attempt(flows[id], d, room);
      StepBuilds(flows, free, id, d, room, a);
      AttemptShaped(flows[id], d, room);
      BuiltCharges(q, flows, free, id, d.handle.value, a, Step(flows, free, id, d, room));
    }
  }

  lemma BuiltCharges(q: Quantity, flows: map<u32, Flow>, free: set<nat>, id: u32, h: nat, a: Option<Build>, t: Stepped)
    requires id in flows && (a.Some? ==> Shaped(flows[id], a.value))
    requires t == if a.None? then Stepped(flows, free, None)
                  else Stepped(flows[id := a.value.flow], free - {h}, Some(Slot(h, id, a.value.frame)))
    ensures Charged(q, flows, id, t)
  {
    if a.Some? {
      BuildCharges(q, flows[id], a.value, Slot(h, id, a.value.frame));
    }
  }

  lemma StepSum(q: Quantity, flows: map<u32, Flow>, id: u32, t: Stepped)
    requires Charged(q, flows, id, t)
    ensures Multiple(SumOver(t.flows, OfFlow(q)) - (SumOver(flows, OfFlow(q)) + SlotOf(q, t.slot)))
  {
    NoWraps();
    if t.slot.Some? {
      ChargedSum(flows, id, t.flows[id], OfFlow(q), OfSlot(q, t.slot.value));
    }
  }

  lemma ChargedSum(flows: map<u32, Flow>, id: u32, f: Flow, g: Flow -> nat, n: nat)
    requires id in flows && g(flows[id]) < TWO_64 && g(f) == (g(flows[id]) + n) % TWO_64
    ensures Multiple(SumOver(flows[id := f], g) - (SumOver(flows, g) + n))
  {
    SumOverPut(flows, id, f, g);
    SumOverSplit(flows, id, g);
    AddWraps(g(flows[id]), n, g(f), SumOver(flows, g), SumOver(flows[id := f], g));
  }

  lemma OneMoreSlot(q: Quantity, burst: seq<Slot>, x: Slot)
    ensures OfBurst(q, burst + [x]) == OfBurst(q, burst) + OfSlot(q, x)
  {
    assert (burst + [x])[..|burst|] == burst;
  }

  lemma BuildHolds(q: Quantity, s: System, e: Event, slot: Option<Slot>)
    requires Enabled(s, e) && e.Build? && |s.workers[e.w].burst| < s.burstSize
    requires slot == Step(s.sched.flows, s.free, s.workers[e.w].ready[0], e.d, s.room).slot
    ensures Accounted(q, Next(s, e)) == Accounted(q, s) + SlotOf(q, slot)
  {
    var me, z := s.workers[e.w], Next(s, e);
    InFlightUpdate(q, s.workers, e.w, z.workers[e.w]);
    if slot.Some? {
      OneMoreSlot(q, me.burst, slot.value);
    }
  }

  lemma BuildSends(q: Quantity, s: System, e: Event, t: Stepped)
    requires Enabled(s, e) && e.Build? && |s.workers[e.w].burst| < s.burstSize
    requires t == Step(s.sched.flows, s.free, s.workers[e.w].ready[0], e.d, s.room)
    ensures Sent(q, Next(s, e)) - Sent(q, s) == SumOver(t.flows, OfFlow(q)) - SumOver(s.sched.flows, OfFlow(q))
  {
  }

  lemma BuildBalances(q: Quantity, s: System, e: Event)
    requires Enabled(s, e) && e.Build?
    ensures Multiple(Balance(q, Next(s, e)) - Balance(q, s))
  {
    if |s.workers[e.w].burst| < s.burstSize {
      var id := s.workers[e.w].ready[0];
      var t := Step(s.sched.flows, s.free, id, e.d, s.room);
      StepCharges(q, s.sched.flows, s.free, id, e.d, s.room);
      StepSum(q, s.sched.flows, id, t);
      BuildHolds(q, s, e, t.slot);
      BuildSends(q, s, e, t);
    } else {
      DropHolds(q, s, e);
      NoWraps();
    }
  }

  lemma DropHolds(q: Quantity, s: System, e: Event)
    requires Enabled(s, e) && e.Build? && |s.workers[e.w].burst| >= s.burstSize
    ensures Balance(q, Next(s, e)) == Balance(q, s)
  {
    InFlightUpdate(q, s.workers, e.w, Next(s, e).workers[e.w]);
  }

  function Measured(q: Quantity, n: nat, bytes: nat): nat {
    if q.Packets? then n else bytes
  }

  lemma TxSum(q: Quantity, cores: seq<CoreStats>, core: u32, n: u16, bytes: nat)
    ensures var r := CountTx(cores, core, n, bytes % TWO_64);
            Multiple(Total(r, OfCore(q))
                     - (Total(cores, OfCore(q)) + if core < |cores| then Measured(q, n, bytes) else 0))
  {
    NoWraps();
    if core < |cores| {
      CoreCharges(q, cores[core], n, bytes);
      ChargedTotal(cores, core, Plus(cores[core], CoreStats(n, 0, bytes % TWO_64, 0, 0)), OfCore(q),
                   Measured(q, n, bytes));
    }
  }

  lemma CoreCharges(q: Quantity, c: CoreStats, n: u16, bytes: nat)
    ensures OfCore(q)(Plus(c, CoreStats(n, 0, bytes % TWO_64, 0, 0))) == (OfCore(q)(c) + Measured(q, n, bytes)) % TWO_64
  {
    SumModMod(bytes, c.txBytes);
  }

  lemma ChargedTotal(cores: seq<CoreStats>, core: nat, v: CoreStats, g: CoreStats -> u64, n: nat)
    requires core < |cores| && g(v) == (g(cores[core]) + n) % TWO_64
    ensures Multiple(Total(cores[core := v], g) - (Total(cores, g) + n))
  {
    TotalUpdate(cores, core, v, g);
    AddWraps(g(cores[core]), n, g(v), Total(cores, g), Total(cores[core := v], g));
  }

  lemma BurstSplit(q: Quantity, burst: seq<Slot>, n: nat)
    requires n <= |burst|
    ensures OfBurst(q, burst) == OfBurst(q, burst[..n]) + OfBurst(q, burst[n..])
    ensures OfBurst(q, burst[..n]) == Measured(q, n, TotalBytes(burst[..n]))
  {
    assert burst == burst[..n] + burst[n..];
    BytesSplit(burst[..n], burst[n..]);
  }

  lemma SendHolds(q: Quantity, s: System, e: Event)
    requires Enabled(s, e) && e.Send?
    ensures var burst, cores := s.workers[e.w].burst, Total(Next(s, e).cores, OfCore(q)) - Total(s.cores, OfCore(q));
            Balance(q, Next(s, e)) - Balance(q, s)
            == (if s.workers[e.w].core < |s.cores| then OfBurst(q, burst[..e.n]) else 0) - cores
  {
    var me := s.workers[e.w];
    InFlightUpdate(q, s.workers, e.w, me.(burst := []));
    BurstSplit(q, me.burst, e.n);
  }

  lemma SendBalances(q: Quantity, s: System, e: Event)
    requires Enabled(s, e) && e.Send?
    ensures Multiple(Balance(q, Next(s, e)) - Balance(q, s))
  {
    var me := s.workers[e.w];
    SendHolds(q, s, e);
    BurstSplit(q, me.burst, e.n);
    TxSum(q, s.cores, me.core, e.n, TotalBytes(me.burst[..e.n]));
    SendCores(q, s, e);
    Negated(Total(Next(s, e).cores, OfCore(q))
            - (Total(s.cores, OfCore(q))
               + if me.core < |s.cores| then Measured(q, e.n, TotalBytes(me.burst[..e.n])) else 0),
            Balance(q, Next(s, e)) - Balance(q, s));
  }

  /** Counting nothing changes nothing, so the guard on an empty transmission does not matter. */
  lemma SendCores(q: Quantity, s: System, e: Event)
    requires Enabled(s, e) && e.Send?
    ensures Total(Next(s, e).cores, OfCore(q))
            == Total(CountTx(s.cores, s.workers[e.w].core, e.n, TotalBytes(s.workers[e.w].burst[..e.n]) % TWO_64),
                     OfCore(q))
  {
    var me := s.workers[e.w];
    if e.n == 0 {
      assert me.burst[..0] == [];
      if me.core < |s.cores| {
        assert s.cores[me.core := Plus(s.cores[me.core], CoreStats(0, 0, 0, 0, 0))] == s.cores;
      }
    }
  }

  lemma Negated(n: int, m: int)
    requires Multiple(n) && m == -n
    ensures Multiple(m)
  {
    var k :| n == Wraps(k);
    assert m == Wraps(-k);
  }

  lemma EventBalances(q: Quantity, s: System, e: Event)
    requires Enabled(s, e)
    ensures Multiple(Balance(q, Next(s, e)) - Balance(q, s))
  {
    NoWraps();
    if TableEvent(e) {
      TableEventBalances(q, s, e);
    } else if e.Build? {
      BuildBalances(q, s, e);
    } else if e.Send? {
      SendBalances(q, s, e);
    } else {
      QuietBalances(q, s, e);
    }
  }

  lemma QuietBalances(q: Quantity, s: System, e: Event)
    requires Enabled(s, e) && !TableEvent(e) && !e.Build? && !e.Send?
    ensures Balance(q, Next(s, e)) == Balance(q, s)
  {
    TableKept(q, s, e);
    if e.Poll? {
      InFlightUpdate(q, s.workers, e.w, Next(s, e).workers[e.w]);
    } else if e.ReceiveBatch? {
      RxCountsNoTx(q, s.cores, s.workers[e.w].core, |e.batch|, Next(s, e).cores);
    }
  }

  lemma RxCountsNoTx(q: Quantity, cores: seq<CoreStats>, core: u32, n: u16, after: seq<CoreStats>)
    requires after == cores || exists bytes :: after == CountRx(cores, core, n, bytes)
    ensures Total(after, OfCore(q)) == Total(cores, OfCore(q))
  {
    if after != cores {
      var bytes :| after == CountRx(cores, core, n, bytes);
      TotalUpdate(cores, core, after[core], OfCore(q));
    }
  }

  // ---------------------------------------------------------------- runs

  lemma {:induction false} RunBalances(q: Quantity, s: System, es: seq<Event>, z: System)
    requires Leads(s, es, z)
    ensures Multiple(Balance(q, z) - Balance(q, s))
    decreases |es|
  {
    NoWraps();
    if es != [] {
      EventBalances(q, s, es[0]);
      RunBalances(q, Next(s, es[0]), es[1..], z);
      MultiplesAdd(Balance(q, Next(s, es[0])) - Balance(q, s), Balance(q, z) - Balance(q, Next(s, es[0])),
                   Balance(q, z) - Balance(q, s));
    }
  }

  lemma MultiplesAdd(a: int, b: int, c: int)
    requires Multiple(a) && Multiple(b) && c == a + b
    ensures Multiple(c)
  {
    var j, k :| a == Wraps(j) && b == Wraps(k);
    assert c == Wraps(j + k);
  }

  lemma {:induction false} NothingInFlight(q: Quantity, ws: seq<WorkerState>)
    requires forall w :: 0 <= w < |ws| ==> ws[w].burst == []
    ensures InFlight(q, ws) == 0
  {
    if ws != [] {
      NothingInFlight(q, ws[1..]);
    }
  }

  lemma {:induction false} ZeroTotal(cores: seq<CoreStats>, q: Quantity)
    requires forall c :: 0 <= c < |cores| ==> cores[c] == ZERO_STATS
    ensures Total(cores, OfCore(q)) == 0
  {
    if cores != [] {
      ZeroTotal(cores[1..], q);
    }
  }

  /** Counter conservation: over every run from the start, what present and past flows have counted equals
      what cores have counted, plus what was freed unsent, sent by a worker without a configured core, or
      is still held by a worker, modulo 2^64, for packets and for bytes. */
  lemma CountersConserved(q: Quantity, first: System, es: seq<Event>, z: System)
    requires Initial(first) && Leads(first, es, z)
    ensures Sent(q, z) % TWO_64 == Accounted(q, z) % TWO_64
  {
    RunBalances(q, first, es, z);
    NothingInFlight(q, first.workers);
    ZeroTotal(first.cores, q);
    assert first.sched.flows == map[];
    Congruent(Sent(q, z), Accounted(q, z), Balance(q, z) - Balance(q, first));
  }

  lemma Congruent(a: nat, b: nat, d: int)
    requires Multiple(d) && a - b == d
    ensures a % TWO_64 == b % TWO_64
  {
    var k :| d == Wraps(k);
    assert a == b + TWO_64 * k;
  }

  // ---------------------------------------------------------------- core ids

  /** Every worker's core has counters. */
  ghost predicate CoresInRange(s: System) {
    forall w :: 0 <= w < |s.workers| ==> s.workers[w].core < |s.cores|
  }

  lemma EventKeepsCores(s: System, e: Event)
    requires Enabled(s, e)
    ensures |Next(s, e).cores| == |s.cores| && |Next(s, e).workers| == |s.workers|
    ensures forall w :: 0 <= w < |s.workers| ==> Next(s, e).workers[w].core == s.workers[w].core
  {
  }

  lemma EventMisses(q: Quantity, s: System, e: Event)
    requires Enabled(s, e)
    ensures LedgerOf(q, Next(s, e)).uncounted
            == LedgerOf(q, s).uncounted
               + if e.Send? && s.workers[e.w].core >= |s.cores| then OfBurst(q, s.workers[e.w].burst[..e.n]) else 0
  {
    if e.Send? {
      BurstSplit(q, s.workers[e.w].burst, e.n);
    }
  }

  /** With all core ids in range nothing goes uncounted. */
  lemma {:induction false} NothingMissed(q: Quantity, s: System, es: seq<Event>, z: System)
    requires Leads(s, es, z) && CoresInRange(s)
    ensures LedgerOf(q, z).uncounted == LedgerOf(q, s).uncounted
    decreases |es|
  {
    if es != [] {
      EventKeepsCores(s, es[0]);
      EventMisses(q, s, es[0]);
      NothingMissed(q, Next(s, es[0]), es[1..], z);
    }
  }

  /** With core ids in range, no flow retired and all workers idle, a snapshot's transmit counters are
      what the flows have counted less what was freed unsent. */
  lemma SnapshotMatchesFlows(q: Quantity, first: System, es: seq<Event>, z: System, g: CoreStats)
    requires Initial(first) && Leads(first, es, z) && CoresInRange(first) && IsGlobal(g, z.cores)
    requires LedgerOf(q, z).retired == 0 && forall w :: 0 <= w < |z.workers| ==> z.workers[w].burst == []
    ensures (OfCore(q)(g) + LedgerOf(q, z).dropped) % TWO_64 == SumOver(z.sched.flows, OfFlow(q)) % TWO_64
  {
    CountersConserved(q, first, es, z);
    NothingMissed(q, first, es, z);
    NothingInFlight(q, z.workers);
    IdleBalance(q, z, g);
  }

  lemma IdleBalance(q: Quantity, z: System, g: CoreStats)
    requires Sent(q, z) % TWO_64 == Accounted(q, z) % TWO_64 && IsGlobal(g, z.cores)
    requires LedgerOf(q, z).retired == LedgerOf(q, z).uncounted == InFlight(q, z.workers) == 0
    ensures (OfCore(q)(g) + LedgerOf(q, z).dropped) % TWO_64 == SumOver(z.sched.flows, OfFlow(q)) % TWO_64
  {
    SnapshotOf(q, g, z.cores);
    DroppedOn(OfCore(q)(g), Total(z.cores, OfCore(q)), LedgerOf(q, z).dropped, Sent(q, z));
  }

  lemma DroppedOn(g: nat, total: nat, dropped: nat, sent: nat)
    requires g == total % TWO_64 && sent % TWO_64 == (total + dropped) % TWO_64
    ensures (g + dropped) % TWO_64 == sent % TWO_64
  {
    SumModMod(total, dropped);
  }

  lemma SnapshotOf(q: Quantity, g: CoreStats, cores: seq<CoreStats>)
    requires IsGlobal(g, cores)
    ensures OfCore(q)(g) == Total(cores, OfCore(q)) % TWO_64
  {
  }
}
