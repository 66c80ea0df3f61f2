/** The whole generator as one state machine: flow table and index, any number of workers, the buffer
    pool, the NIC and the counters. Control calls, polls, builds, transmissions, receptions and
    connection events interleave freely; a worker's pass is a poll, builds, and a send. */
module Pipelines {
  import opened Words
  import opened TokenBuckets
  import opened TcpStates
  import opened FlowKeys
  import opened Packets
  import opened PacketProofs
  import opened WireFormats
  import opened FlowSchedulers
  import opened MetricsCollectors
  import opened Workers

  /** Where a worker is in its pass: ids granted and not yet looked at, and frames built and not yet sent. */
  datatype WorkerState = WorkerState(core: u32, ready: seq<u32>, burst: seq<Slot>)

  /** History variables: frames counted by flows that no longer are in the table, frames freed unsent, and
      frames sent but counted for no core. */
  datatype Ledger = Ledger(retired: nat, dropped: nat, uncounted: nat)

  datatype System = System(
    sched: Sched, workers: seq<WorkerState>,
    free: set<nat>, sending: set<nat>, receiving: set<nat>,
    cores: seq<CoreStats>, packets: Ledger, bytes: Ledger,
    burstSize: u16, room: nat, mac: Packets.Mac)

  datatype Event =
    | AddFlow(spec: FlowSpec, now: u64)
    | RemoveFlow(id: u32)
    | ClearFlows
    | StartFlow(id: u32, now: u64, bucketNow: u64)
    | StopFlow(id: u32)
    | Poll(w: nat, order: seq<u32>, now: u64, ticks: seq<u64>)
    | Build(w: nat, d: Draw)
    | Send(w: nat, n: nat)
    | ReceiveBatch(w: nat, batch: seq<RxSlot>, now: u64)
    | Connection(id: u32, e: TcpStates.Event, now: u64)
    | NicPosts(h: nat)     // the NIC takes a free buffer for reception
    | NicReleases(h: nat)  // a transmitted buffer returns to the pool

  /** A run ends where a copy would write behind its buffer: what the memory there held is not modelled. */
  ghost predicate Enabled(s: System, e: Event) {
    match e
    case Poll(w, order, _, ticks) =>
      w < |s.workers| && s.workers[w].ready == [] && s.workers[w].burst == []
      && IsListing(order, s.sched.flows.Keys) && |ticks| == |order|
    case Build(w, d) =>
      w < |s.workers| && s.workers[w].ready != [] && ImixContract(d.imixSize)
      && !Spilling(s.sched.flows, s.free, s.workers[w].ready[0], d, s.room)
    case Send(w, n) =>
      w < |s.workers| && s.workers[w].ready == [] && 0 < |s.workers[w].burst| < TWO_16 && n <= |s.workers[w].burst|
    case ReceiveBatch(w, batch, _) =>
      w < |s.workers| && Parsable(batch) && |batch| < TWO_16
      && (forall k :: 0 <= k < |batch| ==> batch[k].handle in s.receiving)
      && (forall j, k :: 0 <= j < k < |batch| ==> batch[j].handle != batch[k].handle)
    case NicPosts(h) => h in s.free
    case NicReleases(h) => h in s.sending
    case _ => true
  }

  /** Frames and bytes the table has counted for a flow, for the ledgers. */
  function SentOf(s: Sched, id: u32): nat {
    if id in s.flows then s.flows[id].packetsSent else 0
  }

  function BytesOf(s: Sched, id: u32): nat {
    if id in s.flows then s.flows[id].bytesSent else 0
  }

  ghost function SumOver(m: map<u32, Flow>, g: Flow -> nat): nat
    decreases |m|
  {
    if m == map[] then 0
    else
      var id :| id in m;
      assert |m - {id}| < |m| by { assert (m - {id}).Keys == m.Keys - {id}; assert |m.Keys - {id}| < |m.Keys|; }
      g(m[id]) + SumOver(m - {id}, g)
  }

  function PacketsSent(): Flow -> nat { (f: Flow) => f.packetsSent }
  function BytesSent(): Flow -> nat { (f: Flow) => f.bytesSent }

  function Polled(s: System, w: nat, order: seq<u32>, now: u64, ticks: seq<u64>): System
    requires w < |s.workers| && |ticks| == |order| && forall id :: id in order ==> id in s.sched.flows
  {
    var r := ReadyLoop(s.sched.flows, order, 0, now, ticks, s.burstSize, []);
    s.(sched := s.sched.(flows := r.flows), workers := s.workers[w := s.workers[w].(ready := r.ids)])
  }

  /** One ready flow is looked at; a full burst drops what is left of the ready list. */
  function AfterBuild(s: System, w: nat, d: Draw): System
    requires w < |s.workers| && s.workers[w].ready != []
  {
    var me := s.workers[w];
    if |me.burst| >= s.burstSize then s.(workers := s.workers[w := me.(ready := [])])
    else
      var t := Step(s.sched.flows, s.free, me.ready[0], d, s.room);
      s.(sched := s.sched.(flows := t.flows), free := t.free,
         workers := s.workers[w := me.(ready := me.ready[1..],
                                       burst := if t.slot.Some? then me.burst + [t.slot.value] else me.burst)])
  }

  function AfterSend(s: System, w: nat, n: nat): System
    requires w < |s.workers| && n <= |s.workers[w].burst| < TWO_16
  {
    var me := s.workers[w];
    var t := Transmit(Wire(s.free, s.sending, s.cores), me.core, me.burst, n);
    var missed := me.core >= |s.cores|;
    s.(free := t.free, sending := t.sending, cores := t.cores, workers := s.workers[w := me.(burst := [])],
       packets := s.packets.(dropped := s.packets.dropped + (|me.burst| - n),
                             uncounted := s.packets.uncounted + if missed then n else 0),
       bytes := s.bytes.(dropped := s.bytes.dropped + TotalBytes(me.burst[n..]),
                         uncounted := s.bytes.uncounted + if missed then TotalBytes(me.burst[..n]) else 0))
  }

  /** A receive pass: dispatch, frees, and the receive counters. */
  function AfterReceiveBatch(s: System, w: nat, batch: seq<RxSlot>, now: u64): System
    requires w < |s.workers| && Parsable(batch) && |batch| < TWO_16
  {
    var z := ReceiveAll(Rx(s.sched, s.free, [], 0), batch, 0, now);
    s.(sched := z.sched, free := z.free, receiving := s.receiving - RxHandles(batch, 0),
       cores := if z.bytes > 0 then CountRx(s.cores, s.workers[w].core, |batch|, z.bytes) else s.cores)
  }

  /** Replacing, removing and clearing flows moves their counts to the ledgers. */
  function Retire(s: System, id: u32): System {
    s.(packets := s.packets.(retired := s.packets.retired + SentOf(s.sched, id)),
       bytes := s.bytes.(retired := s.bytes.retired + BytesOf(s.sched, id)))
  }

  ghost function Next(s: System, e: Event): System
    requires Enabled(s, e)
  {
    match e
    case AddFlow(spec, now) =>
      if NewFlow(spec, s.mac, now).None? then s
      else Retire(s, spec.id).(sched := AfterAdd(s.sched, spec, s.mac, now))
    case RemoveFlow(id) => Retire(s, id).(sched := AfterRemove(s.sched, id))
    case ClearFlows =>
      s.(sched := AfterClear(s.sched),
         packets := s.packets.(retired := s.packets.retired + SumOver(s.sched.flows, PacketsSent())),
         bytes := s.bytes.(retired := s.bytes.retired + SumOver(s.sched.flows, BytesSent())))
    case StartFlow(id, now, bucketNow) => s.(sched := AfterStart(s.sched, id, now, bucketNow))
    case StopFlow(id) => s.(sched := AfterStop(s.sched, id))
    case Poll(w, order, now, ticks) => Polled(s, w, order, now, ticks)
    case Build(w, d) => AfterBuild(s, w, d)
    case Send(w, n) => AfterSend(s, w, n)
    case ReceiveBatch(w, batch, now) => AfterReceiveBatch(s, w, batch, now)
    case Connection(id, ev, now) => s.(sched := AfterEvent(s.sched, id, ev, now))
    case NicPosts(h) => s.(free := s.free - {h}, receiving := s.receiving + {h})
    case NicReleases(h) => s.(sending := s.sending - {h}, free := s.free + {h})
  }

  /** `es` can happen from `s`, one after the other, and leads to `z`. */
  ghost predicate Leads(s: System, es: seq<Event>, z: System)
    decreases |es|
  {
    if es == [] then z == s
    else Enabled(s, es[0]) && Leads(Next(s, es[0]), es[1..], z)
  }

  lemma {:induction false} LeadsAppend(s: System, es: seq<Event>, y: System, fs: seq<Event>, z: System)
    requires Leads(s, es, y) && Leads(y, fs, z)
    ensures Leads(s, es + fs, z)
    decreases |es|
  {
    if es == [] {
      assert es + fs == fs;
    } else {
      AppendParts(es, fs);
      LeadsAppend(Next(s, es[0]), es[1..], y, fs, z);
    }
  }

  /** The frame an event builds for a flow, if it builds one. */
  ghost function FramesBy(s: System, e: Event, id: u32): seq<seq<u8>>
    requires Enabled(s, e)
  {
    if !e.Build? || |s.workers[e.w].burst| >= s.burstSize then []
    else
      var t := Step(s.sched.flows, s.free, s.workers[e.w].ready[0], e.d, s.room);
      if t.slot.Some? && t.slot.value.flow == id then [t.slot.value.frame] else []
  }

  /** All frames a run builds for a flow, in order. */
  ghost function FramesOf(s: System, es: seq<Event>, id: u32): seq<seq<u8>>
    decreases |es|
  {
    if es == [] || !Enabled(s, es[0]) then []
    else FramesBy(s, es[0], id) + FramesOf(Next(s, es[0]), es[1..], id)
  }

  lemma {:induction false} FramesAppend(s: System, es: seq<Event>, y: System, fs: seq<Event>, id: u32)
    requires Leads(s, es, y)
    ensures FramesOf(s, es + fs, id) == FramesOf(s, es, id) + FramesOf(y, fs, id)
    decreases |es|
  {
    if es == [] {
      assert es + fs == fs;
    } else {
      AppendParts(es, fs);
      FramesAppend(Next(s, es[0]), es[1..], y, fs, id);
    }
  }

  /** A generator before its first call: no flows, idle workers, every buffer free. */
  ghost predicate Initial(s: System) {
    && s.sched == Sched(map[], map[])
    && (forall w :: 0 <= w < |s.workers| ==> s.workers[w].ready == [] && s.workers[w].burst == [])
    && s.sending == {} && s.receiving == {}
    && (forall c :: 0 <= c < |s.cores| ==> s.cores[c] == ZERO_STATS)
    && s.packets == s.bytes == Ledger(0, 0, 0)
    && s.room < TWO_16
  }

  // ---------------------------------------------------------------- the flow table under every event

  /** A reception changes nothing of an entry but its connection, and of that only what was received. */
  ghost predicate OnlyHeard(f: Flow, g: Flow) {
    && g == f.(conn := g.conn) && (f.conn.Some? <==> g.conn.Some?)
    && (f.conn.Some? ==> g.conn.value.sendSeq == f.conn.value.sendSeq && g.conn.value.sendAck == f.conn.value.sendAck)
  }

  ghost predicate AllOnlyHeard(a: map<u32, Flow>, b: map<u32, Flow>) {
    a.Keys == b.Keys && forall id :: id in a ==> OnlyHeard(a[id], b[id])
  }

  lemma DispatchOnlyHears(s: Sched, data: seq<u8>, now: u64)
    requires |data| >= L4 + TCP_SIZE
    ensures AllOnlyHeard(s.flows, Dispatch(s, data, now).flows) && Dispatch(s, data, now).index == s.index
  {
    match ParseRx(data)
    case None =>
    case Some(r) =>
      match Lookup(s, r.key)
      case None =>
      case Some(id) =>
        if s.flows[id].conn.Some? {
          ReceiveUnfolds(s.flows[id].conn.value, SegmentOf(r), now);
        }
  }

  lemma {:induction false} ReceiveAllOnlyHears(x: Rx, batch: seq<RxSlot>, i: nat, now: u64)
    requires Parsable(batch) && i <= |batch|
    ensures var z := ReceiveAll(x, batch, i, now);
            AllOnlyHeard(x.sched.flows, z.sched.flows) && z.sched.index == x.sched.index
    decreases |batch| - i
  {
    if i < |batch| {
      var y := ReceiveStep(x, batch[i], now);
      DispatchOnlyHears(x.sched, batch[i].data, now);
      ReceiveAllOnlyHears(y, batch, i + 1, now);
    }
  }

  predicate TableEvent(e: Event) {
    e.AddFlow? || e.RemoveFlow? || e.ClearFlows?
  }

  /** Everything but adds, removes and clears leaves the table's shape and the index alone. */
  lemma OtherEventsKeepTable(s: System, e: Event)
    requires Enabled(s, e) && !TableEvent(e)
    ensures SameTable(s.sched.flows, Next(s, e).sched.flows) && Next(s, e).sched.index == s.sched.index
  {
    match e {
      case Poll(w, order, now, ticks) => ReadyLoopSameTable(s.sched.flows, order, 0, now, ticks, s.burstSize, []);
      case Build(w, d) => StepSameTable(s.sched.flows, s.free, s.workers[w].ready[0], d, s.room);
      case ReceiveBatch(w, batch, now) => ReceiveAllOnlyHears(Rx(s.sched, s.free, [], 0), batch, 0, now);
      case _ =>
    }
  }

  // ---------------------------------------------------------------- what every reachable table is like

  /** A sane entry whose bucket has the settings `add_flow` gave it. */
  ghost predicate Healthy(f: Flow) {
    Sane(f) && f.bucket.rate == f.spec.pps && f.bucket.burst == BurstFor(f.spec.pps)
  }

  /** The destination a specification asks for: broadcast when it names none. */
  function DestinationOf(spec: FlowSpec): Packets.Mac {
    if spec.dstMac.Some? then spec.dstMac.value else [0xFF, 0xFF, 0xFF, 0xFF, 0xFF, 0xFF]
  }

  /** The entry's template, byte by byte: its specification's addresses and ports, the scheduler's own address as
      the source, and of TCP no flags and no acknowledgement. */
  ghost predicate Labelled(f: Flow, mac: Packets.Mac) {
    && HeadersOf(f.template.data, f.spec.key, f.spec.protocol, mac, DestinationOf(f.spec))
    && (f.spec.protocol == "tcp" ==> Field32(f.template.data, 42, 0) && f.template.data[47] == 0)
  }

  ghost predicate AllHealthy(s: System) {
    s.room < TWO_16 && forall id :: id in s.sched.flows ==> Healthy(s.sched.flows[id])
  }

  ghost predicate AllLabelled(s: System) {
    forall id :: id in s.sched.flows ==> Labelled(s.sched.flows[id], s.mac)
  }

  lemma NewFlowHealthy(spec: FlowSpec, mac: Packets.Mac, now: u64)
    requires NewFlow(spec, mac, now).Some?
    ensures Healthy(NewFlow(spec, mac, now).value)
  {
    TemplateIsBuilt(spec.key, TemplateSize(spec), spec.protocol, mac, DestinationOf(spec));
  }

  lemma NewFlowLabelled(spec: FlowSpec, mac: Packets.Mac, now: u64)
    requires NewFlow(spec, mac, now).Some?
    ensures Labelled(NewFlow(spec, mac, now).value, mac)
  {
    TemplateBytes(spec.key, TemplateSize(spec), spec.protocol, mac, DestinationOf(spec));
  }

  /** What `add_flow` accepts, and the entry it makes: any known protocol with a size that holds its headers, 64 bytes
      if the specification names none; a full bucket of a tenth of a second, or 1000 tokens without a rate; a closed
      connection with all numbers zero for a tracked TCP flow; not started, and nothing counted. */
  lemma AcceptedEntry(spec: FlowSpec, mac: Packets.Mac, now: u64)
    ensures NewFlow(spec, mac, now).Some?
            <==> (spec.protocol == "tcp" && (spec.packetSize == 0 || spec.packetSize >= 54))
                 || (spec.protocol in {"udp", "icmp"} && (spec.packetSize == 0 || spec.packetSize >= 42))
    ensures NewFlow(spec, mac, now).Some? ==>
              var f, burst := NewFlow(spec, mac, now).value, if spec.pps > 0 then spec.pps / 10 else 1000;
              && f.spec == spec && f.template.totalSize == (if spec.packetSize == 0 then 64 else spec.packetSize)
              && f.bucket == Bucket(spec.pps, burst, burst, now)
              && f.conn == (if spec.protocol == "tcp" && !spec.stateless
                            then Some(Conn(CLOSED, false, 0, 0, 0, 0, 0)) else None)
              && f.packetsSent == f.bytesSent == f.startTime == 0 && !f.active
  {
  }

  lemma SettingsKept(s: System, e: Event)
    requires Enabled(s, e)
    ensures Next(s, e).mac == s.mac && Next(s, e).room == s.room && Next(s, e).burstSize == s.burstSize
  {
  }

  lemma StepKeepsHealth(s: System, e: Event)
    requires Enabled(s, e) && AllHealthy(s)
    ensures AllHealthy(Next(s, e))
  {
    if !TableEvent(e) {
      OtherEventsKeepTable(s, e);
      SameTableHealthy(s.sched.flows, Next(s, e).sched.flows);
    } else if e.AddFlow? && NewFlow(e.spec, s.mac, e.now).Some? {
      NewFlowHealthy(e.spec, s.mac, e.now);
    }
  }

  lemma SameTableHealthy(a: map<u32, Flow>, b: map<u32, Flow>)
    requires SameTable(a, b) && forall id :: id in a ==> Healthy(a[id])
    ensures forall id :: id in b ==> Healthy(b[id])
  {
  }

  lemma StepKeepsLabels(s: System, e: Event)
    requires Enabled(s, e) && AllLabelled(s)
    ensures AllLabelled(Next(s, e))
  {
    SettingsKept(s, e);
    if !TableEvent(e) {
      OtherEventsKeepTable(s, e);
      SameTableLabelled(s.sched.flows, Next(s, e).sched.flows, s.mac);
    } else if e.AddFlow? && NewFlow(e.spec, s.mac, e.now).Some? {
      NewFlowLabelled(e.spec, s.mac, e.now);
    }
  }

  lemma SameTableLabelled(a: map<u32, Flow>, b: map<u32, Flow>, mac: Packets.Mac)
    requires SameTable(a, b) && forall id :: id in a ==> Labelled(a[id], mac)
    ensures forall id :: id in b ==> Labelled(b[id], mac)
  {
  }

  /** In every reachable state every template has, byte by byte, the headers its flow's specification and the
      scheduler's own address ask for; that address never changes. */
  lemma {:induction false} ReachableLabelled(s: System, es: seq<Event>, z: System)
    requires AllLabelled(s) && Leads(s, es, z)
    ensures AllLabelled(z) && z.mac == s.mac
    decreases |es|
  {
    if es != [] {
      StepKeepsLabels(s, es[0]);
      SettingsKept(s, es[0]);
      ReachableLabelled(Next(s, es[0]), es[1..], z);
    }
  }

  /** In every reachable state every flow is sane, whatever size it was added with: its template holds its
      key, and its bucket has the settings its rate asks for. */
  lemma {:induction false} ReachableHealthy(s: System, es: seq<Event>, z: System)
    requires AllHealthy(s) && Leads(s, es, z)
    ensures AllHealthy(z)
    decreases |es|
  {
    if es != [] {
      StepKeepsHealth(s, es[0]);
      ReachableHealthy(Next(s, es[0]), es[1..], z);
    }
  }

  /** Size safety end to end, over every run from the start, for flows of every size and every draw the IMIX
      engine may make: the chosen size holds the headers; the copy into an empty buffer is done exactly for
      sizes within the data room, and leaves the data room exactly for an own size of 65536 or more whose
      16-bit remainder fits. */
  lemma SizeSafetyOnAllRuns(s: System, es: seq<Event>, z: System, id: u32, imix: Option<u32>)
    requires Initial(s) && Leads(s, es, z) && id in z.sched.flows && ImixContract(imix)
    ensures var f := z.sched.flows[id];
            var size := ChosenSize(f.spec, imix);
            var r := CloneOutcome(f.template.(totalSize := size), 0, z.room);
            && f.template.payloadOffset <= size
            && (r == Done <==> size <= z.room)
            && (r == Spills <==> Overruns(f.spec.packetSize, z.room))
  {
    ReachableHealthy(s, es, z);
    ChosenSizeHolds(z.sched.flows[id], imix);
    CopyOutcome(z.sched.flows[id], imix, z.room);
  }

  /** A frame is built exactly for a chosen size within the data room, has that size, and its length fields
      say so. */
  lemma LengthsOnAllRuns(s: System, es: seq<Event>, z: System, id: u32, d: Draw)
    requires Initial(s) && Leads(s, es, z) && id in z.sched.flows && ImixContract(d.imixSize)
    ensures var f := z.sched.flows[id];
            var size := ChosenSize(f.spec, d.imixSize);
            && (Attempt(f, d, z.room).Some? <==> size <= z.room)
            && (size <= z.room ==>
                  var g := Attempt(f, d, z.room).value.frame;
                  && |g| == size && Get16(g, TOTAL_LENGTH) == size - ETHER
                  && (f.spec.protocol == "udp" ==> Get16(g, UDP_LEN) == size - L4))
  {
    ReachableHealthy(s, es, z);
    var f := z.sched.flows[id];
    var size := ChosenSize(f.spec, d.imixSize);
    CopyOutcome(f, d.imixSize, z.room);
    if size <= z.room {
      ChosenSizeSafe(f, d, z.room);
      if Tracked(f) {
        RewriteKeepsLengths(Copied(f, size, d, z.room), f.conn.value.sendSeq, f.conn.value.sendAck);
      }
    }
  }

  lemma RewriteKeepsLengths(g: seq<u8>, sendSeq: u32, sendAck: u32)
    requires Rewritable(g)
    ensures Get16(Rewritten(g, sendSeq, sendAck), TOTAL_LENGTH) == Get16(g, TOTAL_LENGTH)
  {
  }
}
