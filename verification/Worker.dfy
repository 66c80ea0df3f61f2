/** One worker's pass over the ready flows: buffer allocation, frame building, transmission and
    reception. The functions say what a pass does; the classes do it on real buffers. */
module Workers {
  import opened Words
  import opened TcpStates
  import opened FlowKeys
  import opened Packets
  import opened FlowSchedulers
  import opened MetricsCollectors
  import opened PacketProofs

  /** A filled position of the burst array: which buffer, for which flow, holding which frame. */
  datatype Slot = Slot(handle: nat, flow: u32, frame: seq<u8>)

  /** What varies per flow of a pass: the buffer the pool hands out (if any), the IMIX engine's choice
      (if there is an engine), and the drawn sequence number and IP id. */
  datatype Draw = Draw(handle: Option<nat>, imixSize: Option<u32>, drawnSeq: u32, ipId: u16)

  /** The state a transmit pass works on. */
  datatype Tx = Tx(flows: map<u32, Flow>, free: set<nat>, burst: seq<Slot>)

  function ChosenSize(spec: FlowSpec, imix: Option<u32>): u32 {
    if spec.packetSize != 0 then spec.packetSize
    else if imix.Some? && imix.value != 0 then imix.value
    else 64
  }

  /** The copy of the template with the chosen size fits the buffer. */
  predicate CanBuild(f: Flow, size: u32, room: nat) {
    Usable(f.template.(totalSize := size)) && f.template.payloadOffset <= size <= room < TWO_16
  }

  predicate Tracked(f: Flow) {
    Stateful(f.spec) && f.conn.Some?
  }

  function Copied(f: Flow, size: u32, d: Draw, room: nat): (g: seq<u8>)
    requires CanBuild(f, size, room)
    ensures |g| == size
  {
    Mutated(f.template.(totalSize := size), d.drawnSeq, d.ipId, true)
  }

  /** What the rewrite of a tracked flow needs of the copied frame. */
  predicate Rewritable(g: seq<u8>) {
    |g| >= L4 + TCP_SIZE && ETHER + Get16(g, TOTAL_LENGTH) <= |g|
  }

  /** A tracked flow's copy is rewritten for its connection. */
  function Outgoing(f: Flow, g: seq<u8>): (h: seq<u8>)
    ensures |h| == |g|
  {
    if Tracked(f) && Rewritable(g) then Rewritten(g, f.conn.value.sendSeq, f.conn.value.sendAck) else g
  }

  /** The flow after its copy `g` has been finished: counters up by one frame, and a tracked connection's
      next sequence number moved past the payload. */
  function ChargedFor(f: Flow, g: seq<u8>): Flow {
    f.(packetsSent := Add64(f.packetsSent, 1), bytesSent := (f.bytesSent + |g|) % TWO_64,
       conn := if Tracked(f) && Rewritable(g)
               then Some(f.conn.value.(sendSeq := (f.conn.value.sendSeq + PayloadLength(g)) % TWO_32))
               else f.conn)
  }

  /** A finished frame and the flow charged for it. */
  datatype Build = Build(flow: Flow, frame: seq<u8>)

  /** Building one frame of a flow, if the chosen size fits. */
  function Attempt(f: Flow, d: Draw, room: nat): Option<Build> {
    var size := ChosenSize(f.spec, d.imixSize);
    if CanBuild(f, size, room) then
      var g := Copied(f, size, d, room);
      Some(Build(ChargedFor(f, g), Outgoing(f, g)))
    else None
  }

  /** A finished frame is a copy rewritten at most, and its flow is charged for that copy. */
  ghost predicate Shaped(f: Flow, b: Build) {
    exists g :: b == Build(ChargedFor(f, g), Outgoing(f, g))
  }

  lemma AttemptShaped(f: Flow, d: Draw, room: nat)
    ensures Attempt(f, d, room).Some? ==> Shaped(f, Attempt(f, d, room).value)
  {
  }

  function Allocated(free: set<nat>, d: Draw): Option<nat> {
    if d.handle.Some? && d.handle.value in free then d.handle else None
  }

  /** What one iteration of `process_flows` does while the burst has room: the new table, the new free set
      and the slot it filled, if any. A buffer whose frame could not be built goes straight back. */
  datatype Stepped = Stepped(flows: map<u32, Flow>, free: set<nat>, slot: Option<Slot>)

  function Step(flows: map<u32, Flow>, free: set<nat>, id: u32, d: Draw, room: nat): Stepped {
    if id !in flows || !flows[id].active || Allocated(free, d).None? then Stepped(flows, free, None)
    else match Attempt(flows[id], d, room)
      case None => Stepped(flows, free, None)
      case Some(b) => Stepped(flows[id := b.flow], free - {d.handle.value}, Some(Slot(d.handle.value, id, b.frame)))
  }

  lemma StepBuilds(flows: map<u32, Flow>, free: set<nat>, id: u32, d: Draw, room: nat, a: Option<Build>)
    requires id in flows && flows[id].active && Allocated(free, d).Some? && a == Attempt(flows[id], d, room)
    ensures Step(flows, free, id, d, room)
            == if a.None? then Stepped(flows, free, None)
               else Stepped(flows[id := a.value.flow], free - {d.handle.value},
                            Some(Slot(d.handle.value, id, a.value.frame)))
  {
  }

  function BuildStep(tx: Tx, id: u32, d: Draw, room: nat): Tx {
    var s := Step(tx.flows, tx.free, id, d, room);
    Tx(s.flows, s.free, if s.slot.Some? then tx.burst + [s.slot.value] else tx.burst)
  }

  function BuildAll(tx: Tx, ids: seq<u32>, i: nat, draws: seq<Draw>, burstSize: nat, room: nat): Tx
    requires i <= |ids| <= |draws|
    decreases |ids| - i
  {
    if i == |ids| || |tx.burst| >= burstSize then tx
    else BuildAll(BuildStep(tx, ids[i], draws[i], room), ids, i + 1, draws, burstSize, room)
  }

  function Handles(burst: seq<Slot>): set<nat> {
    set k | 0 <= k < |burst| :: burst[k].handle
  }

  function Frames(burst: seq<Slot>): (fs: seq<seq<u8>>)
    ensures |fs| == |burst|
  {
    seq(|burst|, k requires 0 <= k < |burst| => burst[k].frame)
  }

  function TotalBytes(burst: seq<Slot>): nat {
    if burst == [] then 0 else TotalBytes(burst[..|burst| - 1]) + |burst[|burst| - 1].frame|
  }

  /** What a transmission changes: the free set, the NIC's buffers and the per-core counters. */
  datatype Wire = Wire(free: set<nat>, sending: set<nat>, cores: seq<CoreStats>)

  /** The NIC takes the first `n` frames, which are counted for the core; the rest are freed unsent. */
  function Transmit(w: Wire, core: u32, burst: seq<Slot>, n: nat): Wire
    requires n <= |burst| < TWO_16
  {
    Wire(w.free + Handles(burst[n..]), w.sending + Handles(burst[..n]),
         if n > 0 then CountTx(w.cores, core, n, TotalBytes(burst[..n]) % TWO_64) else w.cores)
  }

  /** A burst never holds one buffer twice, nor a free one. */
  ghost predicate Sound(tx: Tx) {
    && (forall k :: 0 <= k < |tx.burst| ==> tx.burst[k].handle !in tx.free)
    && (forall j, k :: 0 <= j < k < |tx.burst| ==> tx.burst[j].handle != tx.burst[k].handle)
  }

  lemma BuildStepSound(tx: Tx, id: u32, d: Draw, room: nat)
    requires Sound(tx)
    ensures Sound(BuildStep(tx, id, d, room))
  {
  }

  lemma {:induction false} BuildAllSound(tx: Tx, ids: seq<u32>, i: nat, draws: seq<Draw>, burstSize: nat, room: nat)
    requires i <= |ids| <= |draws| && Sound(tx)
    requires |tx.burst| <= burstSize
    ensures var z := BuildAll(tx, ids, i, draws, burstSize, room);
            Sound(z) && |z.burst| <= burstSize
    decreases |ids| - i
  {
    if i < |ids| && |tx.burst| < burstSize {
      BuildStepSound(tx, ids[i], draws[i], room);
      BuildAllSound(BuildStep(tx, ids[i], draws[i], room), ids, i + 1, draws, burstSize, room);
    }
  }

  lemma {:induction false} ReadyLoopLength(flows: map<u32, Flow>, order: seq<u32>, i: nat, now: u64, ticks: seq<u64>,
                                           max: nat, ids: seq<u32>)
    requires i <= |order| == |ticks| && (forall j :: j in order ==> j in flows)
    ensures |ReadyLoop(flows, order, i, now, ticks, max, ids).ids| <= |ids| + |order| - i
    decreases |order| - i
  {
    if i < |order| {
      var p := PollFlow(flows[order[i]], now, ticks[i]);
      var ids' := if p.granted then ids + [order[i]] else ids;
      if p.passedOver || |ids'| < max {
        ReadyLoopLength(flows[order[i] := p.flow], order, i + 1, now, ticks, max, ids');
      }
    }
  }

  /** The transmit side of a pass up to the burst: ready loop, then the build loop over what it granted. */
  function BuildPass(flows: map<u32, Flow>, free: set<nat>, order: seq<u32>, now: u64, ticks: seq<u64>,
                     draws: seq<Draw>, burstSize: nat, room: nat): (tx: Tx)
    requires |order| == |ticks| == |draws| && (forall id :: id in order ==> id in flows)
    ensures Sound(tx) && |tx.burst| <= burstSize
  {
    var r := ReadyLoop(flows, order, 0, now, ticks, burstSize, []);
    ReadyLoopLength(flows, order, 0, now, ticks, burstSize, []);
    BuildAllSound(Tx(r.flows, free, []), r.ids, 0, draws, burstSize, room);
    BuildAll(Tx(r.flows, free, []), r.ids, 0, draws, burstSize, room)
  }

  // ---------------------------------------------------------------- reception

  /** A received buffer: its handle, its data room, the frame length, and the transmit timestamp it
      carries, if timestamps are in use. */
  datatype RxSlot = RxSlot(handle: nat, data: seq<u8>, len: nat, stamp: Option<u64>)

  /** The header fields `handle_tcp_rx` looks at: FIN, SYN and ACK are bits 0, 1 and 4 of the flags. */
  function SegmentOf(r: RxTcp): Segment {
    Segment(r.flags / 2 % 2 == 1, r.flags / 16 % 2 == 1, r.flags % 2 == 1, r.seqNum, r.ackNum, r.payload)
  }

  function Dispatch(s: Sched, data: seq<u8>, now: u64): Sched
    requires |data| >= L4 + TCP_SIZE
  {
    match ParseRx(data)
    case None => s
    case Some(r) => AfterReceive(s, r.key, SegmentOf(r), now)
  }

  ghost predicate Parsable(batch: seq<RxSlot>) {
    forall k :: 0 <= k < |batch| ==> |batch[k].data| >= L4 + TCP_SIZE
  }

  /** What a receive pass works on: the scheduler, the free set, the latency samples and the byte count. */
  datatype Rx = Rx(sched: Sched, free: set<nat>, seen: seq<u64>, bytes: u64)

  /** The latency sample of a buffer stamped earlier than now. */
  function Sample(stamp: Option<u64>, now: u64): seq<u64> {
    if stamp.Some? && stamp.value != 0 && now > stamp.value then [now - stamp.value] else []
  }

  function ReceiveStep(x: Rx, r: RxSlot, now: u64): Rx
    requires |r.data| >= L4 + TCP_SIZE
  {
    Rx(Dispatch(x.sched, r.data, now), x.free + {r.handle}, x.seen + Sample(r.stamp, now), (x.bytes + r.len) % TWO_64)
  }

  function ReceiveAll(x: Rx, batch: seq<RxSlot>, i: nat, now: u64): Rx
    requires Parsable(batch) && i <= |batch|
    decreases |batch| - i
  {
    if i == |batch| then x else ReceiveAll(ReceiveStep(x, batch[i], now), batch, i + 1, now)
  }

  function RxHandles(batch: seq<RxSlot>, i: nat): set<nat> {
    set k | i <= k < |batch| :: batch[k].handle
  }

  function RxLengths(batch: seq<RxSlot>, i: nat): nat
    requires i <= |batch|
    decreases |batch| - i
  {
    if i == |batch| then 0 else batch[i].len + RxLengths(batch, i + 1)
  }

  /** A receive pass frees every buffer of the batch and counts every byte, whatever the frames hold. */
  lemma {:induction false} ReceiveAllFreesAll(x: Rx, batch: seq<RxSlot>, i: nat, now: u64)
    requires Parsable(batch) && i <= |batch|
    ensures var z := ReceiveAll(x, batch, i, now);
            && z.free == x.free + RxHandles(batch, i)
            && z.bytes == (x.bytes + RxLengths(batch, i)) % TWO_64
    decreases |batch| - i
  {
    if i < |batch| {
      var y := ReceiveStep(x, batch[i], now);
      ReceiveAllFreesAll(y, batch, i + 1, now);
      assert RxHandles(batch, i) == {batch[i].handle} + RxHandles(batch, i + 1) by {
        assert batch[i].handle in RxHandles(batch, i);
        forall h | h in RxHandles(batch, i) ensures h in {batch[i].handle} + RxHandles(batch, i + 1) {
          var k :| i <= k < |batch| && batch[k].handle == h;
        }
      }
      SumModMod(x.bytes + batch[i].len, RxLengths(batch, i + 1));
    }
  }

  lemma SumModMod(a: nat, b: nat)
    ensures (a % TWO_64 + b) % TWO_64 == (a + b) % TWO_64
  {
    var q, r := a / TWO_64, a % TWO_64;
    assert a + b == TWO_64 * q + (r + b);
  }

  // ---------------------------------------------------------------- the flow table

  /** What polls, builds and receptions leave of an entry: same specification, template and bucket settings. */
  ghost predicate SameFlow(f: Flow, g: Flow) {
    && f.spec == g.spec && f.template == g.template && (f.conn.Some? <==> g.conn.Some?)
    && f.bucket.rate == g.bucket.rate && f.bucket.burst == g.bucket.burst
  }

  ghost predicate SameTable(a: map<u32, Flow>, b: map<u32, Flow>) {
    a.Keys == b.Keys && forall id :: id in a ==> SameFlow(a[id], b[id])
  }

  lemma {:induction false} ReadyLoopSameTable(flows: map<u32, Flow>, order: seq<u32>, i: nat, now: u64, ticks: seq<u64>,
                                              max: nat, ids: seq<u32>)
    requires i <= |order| == |ticks| && (forall j :: j in order ==> j in flows)
    ensures SameTable(flows, ReadyLoop(flows, order, i, now, ticks, max, ids).flows)
    decreases |order| - i
  {
    if i < |order| {
      var p := PollFlow(flows[order[i]], now, ticks[i]);
      var ids' := if p.granted then ids + [order[i]] else ids;
      assert SameTable(flows, flows[order[i] := p.flow]);
      if p.passedOver || |ids'| < max {
        ReadyLoopSameTable(flows[order[i] := p.flow], order, i + 1, now, ticks, max, ids');
      }
    }
  }

  lemma StepSameTable(flows: map<u32, Flow>, free: set<nat>, id: u32, d: Draw, room: nat)
    ensures SameTable(flows, Step(flows, free, id, d, room).flows)
  {
  }

  // ---------------------------------------------------------------- sizes

  /** What `add_flow` establishes of an entry, whatever its size. */
  ghost predicate Sane(f: Flow) {
    && Built(f.template, f.spec.protocol)
    && f.template.key == f.spec.key && f.template.totalSize == TemplateSize(f.spec)
    && (f.conn.Some? <==> Stateful(f.spec))
  }

  /** A sane entry whose copies stay inside buffers of this room. Without an own size a flow's copies do:
      the IMIX engine's sizes are small. */
  ghost predicate Contained(f: Flow, room: nat) {
    Sane(f) && !Overruns(f.spec.packetSize, room)
  }

  ghost predicate AllSane(flows: map<u32, Flow>) {
    forall id :: id in flows ==> Sane(flows[id])
  }

  ghost predicate AllContained(flows: map<u32, Flow>, room: nat) {
    forall id :: id in flows ==> Contained(flows[id], room)
  }

  lemma SameTableSane(a: map<u32, Flow>, b: map<u32, Flow>)
    requires SameTable(a, b) && AllSane(a)
    ensures AllSane(b)
  {
  }

  lemma SameTableContained(a: map<u32, Flow>, b: map<u32, Flow>, room: nat)
    requires SameTable(a, b) && AllContained(a, room)
    ensures AllContained(b, room)
  {
  }

  /** The next copy would write behind the data room of the buffer it gets. */
  predicate Spilling(flows: map<u32, Flow>, free: set<nat>, id: u32, d: Draw, room: nat) {
    id in flows && flows[id].active && Allocated(free, d).Some?
    && Overruns(ChosenSize(flows[id].spec, d.imixSize), room)
  }

  /** No copy of the build loop writes behind its buffer. */
  ghost predicate StaysInside(tx: Tx, ids: seq<u32>, i: nat, draws: seq<Draw>, burstSize: nat, room: nat)
    requires i <= |ids| <= |draws|
    decreases |ids| - i
  {
    i == |ids| || |tx.burst| >= burstSize
    || (!Spilling(tx.flows, tx.free, ids[i], draws[i], room)
        && StaysInside(BuildStep(tx, ids[i], draws[i], room), ids, i + 1, draws, burstSize, room))
  }

  /** Position `k` of a list of the loop's states: the next one follows from it, or the loop is over. */
  ghost predicate StepAt(trace: seq<Tx>, k: nat, ids: seq<u32>, draws: seq<Draw>, burstSize: nat, room: nat)
    requires k < |trace| && |ids| <= |draws|
  {
    if k < |ids| && |trace[k].burst| < burstSize then
      && k + 1 < |trace| && !Spilling(trace[k].flows, trace[k].free, ids[k], draws[k], room)
      && trace[k + 1] == BuildStep(trace[k], ids[k], draws[k], room)
    else k + 1 == |trace|
  }

  /** The states of a loop that stays inside its buffers, from first to last. */
  ghost predicate TraceOf(trace: seq<Tx>, ids: seq<u32>, draws: seq<Draw>, burstSize: nat, room: nat)
    requires |ids| <= |draws|
  {
    trace != [] && forall k :: 0 <= k < |trace| ==> StepAt(trace, k, ids, draws, burstSize, room)
  }

  lemma {:induction false} GrowTrace(prefix: seq<Tx>, ids: seq<u32>, i: nat, draws: seq<Draw>, burstSize: nat,
                                     room: nat) returns (trace: seq<Tx>)
    requires |prefix| == i + 1 && i <= |ids| <= |draws| && StaysInside(prefix[i], ids, i, draws, burstSize, room)
    requires forall k :: 0 <= k < i ==> StepAt(prefix, k, ids, draws, burstSize, room)
    ensures TraceOf(trace, ids, draws, burstSize, room) && prefix <= trace
    ensures trace[|trace| - 1] == BuildAll(prefix[i], ids, i, draws, burstSize, room)
    decreases |ids| - i
  {
    if i < |ids| && |prefix[i].burst| < burstSize {
      var next := prefix + [BuildStep(prefix[i], ids[i], draws[i], room)];
      forall k | 0 <= k < i + 1 ensures StepAt(next, k, ids, draws, burstSize, room) {
        if k < i {
          assert StepAt(prefix, k, ids, draws, burstSize, room);
        }
      }
      trace := GrowTrace(next, ids, i + 1, draws, burstSize, room);
    } else {
      trace := prefix;
    }
  }

  lemma TraceEnds(trace: seq<Tx>, i: nat, ids: seq<u32>, draws: seq<Draw>, burstSize: nat, room: nat)
    requires |ids| <= |draws| && TraceOf(trace, ids, draws, burstSize, room)
    requires i < |trace| && (i >= |ids| || |trace[i].burst| >= burstSize)
    ensures i + 1 == |trace|
  {
    assert StepAt(trace, i, ids, draws, burstSize, room);
  }

  /** No copy of a pass does. */
  ghost predicate PassStaysInside(flows: map<u32, Flow>, free: set<nat>, order: seq<u32>, now: u64, ticks: seq<u64>,
                                  draws: seq<Draw>, burstSize: nat, room: nat)
    requires |order| == |ticks| == |draws| && (forall id :: id in order ==> id in flows)
  {
    var r := ReadyLoop(flows, order, 0, now, ticks, burstSize, []);
    |r.ids| <= |draws| && StaysInside(Tx(r.flows, free, []), r.ids, 0, draws, burstSize, room)
  }

  /** With contained flows only, no draw makes a pass write behind a buffer. */
  lemma ContainedPassStaysInside(flows: map<u32, Flow>, free: set<nat>, order: seq<u32>, now: u64, ticks: seq<u64>,
                                 draws: seq<Draw>, burstSize: nat, room: nat)
    requires |order| == |ticks| == |draws| && (forall id :: id in order ==> id in flows) && AllContained(flows, room)
    requires forall k :: 0 <= k < |draws| ==> ImixContract(draws[k].imixSize)
    ensures PassStaysInside(flows, free, order, now, ticks, draws, burstSize, room)
  {
    var r := ReadyLoop(flows, order, 0, now, ticks, burstSize, []);
    ReadyLoopLength(flows, order, 0, now, ticks, burstSize, []);
    ReadyLoopSameTable(flows, order, 0, now, ticks, burstSize, []);
    SameTableContained(flows, r.flows, room);
    ContainedStaysInside(Tx(r.flows, free, []), r.ids, 0, draws, burstSize, room);
  }

  /** With contained flows only, no draw makes the loop write behind a buffer. */
  lemma {:induction false} ContainedStaysInside(tx: Tx, ids: seq<u32>, i: nat, draws: seq<Draw>, burstSize: nat,
                                                room: nat)
    requires i <= |ids| <= |draws| && AllContained(tx.flows, room)
    requires forall k :: 0 <= k < |draws| ==> ImixContract(draws[k].imixSize)
    ensures StaysInside(tx, ids, i, draws, burstSize, room)
    decreases |ids| - i
  {
    if i < |ids| && |tx.burst| < burstSize {
      StepSameTable(tx.flows, tx.free, ids[i], draws[i], room);
      SameTableContained(tx.flows, BuildStep(tx, ids[i], draws[i], room).flows, room);
      ContainedStaysInside(BuildStep(tx, ids[i], draws[i], room), ids, i + 1, draws, burstSize, room);
    }
  }

  /** The IMIX engine's contract: no engine, or a size between 64 and 9000. */
  predicate ImixContract(imix: Option<u32>) {
    imix.None? || 64 <= imix.value <= 9000
  }

  /** Whatever size is chosen, and however large, it holds the template's headers, so the payload
      subtraction cannot underflow. */
  lemma ChosenSizeHolds(f: Flow, imix: Option<u32>)
    requires Sane(f) && ImixContract(imix)
    ensures var size := ChosenSize(f.spec, imix);
            f.template.payloadOffset <= size && Usable(f.template.(totalSize := size))
  {
    ProtocolSizes(f.spec.protocol);
  }

  /** How the copy of a sane flow into an empty buffer ends: done exactly for a size within the data room,
      and outside it exactly for an own size that overruns it. */
  lemma CopyOutcome(f: Flow, imix: Option<u32>, room: nat)
    requires Sane(f) && ImixContract(imix) && room < TWO_16
    ensures var size := ChosenSize(f.spec, imix);
            var r := CloneOutcome(f.template.(totalSize := size), 0, room);
            && (r == Done <==> size <= room) && (r == Done <==> CanBuild(f, size, room))
            && (r == Spills <==> Overruns(size, room)) && (Overruns(size, room) <==> Overruns(f.spec.packetSize, room))
  {
    ChosenSizeHolds(f, imix);
    SpillsIff(f.template.(totalSize := ChosenSize(f.spec, imix)), room);
  }

  /** Of a size within the data room, the length fields match the frame, and a tracked flow's copy can be
      rewritten. */
  lemma ChosenSizeSafe(f: Flow, d: Draw, room: nat)
    requires Sane(f) && ImixContract(d.imixSize) && ChosenSize(f.spec, d.imixSize) <= room < TWO_16
    ensures var size := ChosenSize(f.spec, d.imixSize);
            && CanBuild(f, size, room)
            && var g := Copied(f, size, d, room);
               && Get16(g, TOTAL_LENGTH) == size - ETHER
               && (f.spec.protocol == "udp" ==> Get16(g, UDP_LEN) == size - L4)
               && (Tracked(f) ==> Rewritable(g) && PayloadLength(g) == size - (L4 + TCP_SIZE))
  {
    var size := ChosenSize(f.spec, d.imixSize);
    ChosenSizeHolds(f, d.imixSize);
    ProtocolSizes(f.spec.protocol);
    MutatedFrameCorrect(f.template, f.spec.protocol, size, d.drawnSeq, d.ipId);
    if Tracked(f) {
      PayloadFromFields(Mutated(f.template.(totalSize := size), d.drawnSeq, d.ipId, true), f.template.key);
    }
  }

  // ---------------------------------------------------------------- buffers

  /** The buffer pool. A buffer is known by its handle; its contents are reset when it is handed out. */
  class Mempool {
    const room: nat
    var free: set<nat>

    constructor (roomSize: nat, handles: set<nat>)
      ensures free == handles && room == roomSize
    {
      free, room := handles, roomSize;
    }

    /** A one-buffer `allocate_burst`, its result read as a count: the environment picks a free buffer or
        lets the call fail. */
    method Allocate(d: Draw) returns (m: Mbuf?)
      modifies this`free
      ensures m == null <==> Allocated(old(free), d).None?
      ensures m == null ==> free == old(free)
      ensures m != null ==> fresh(m) && fresh(m.room) && m.Valid() && m.room.Length == room && m.pktLen == 0
      ensures m != null ==> Some(m.handle) == Allocated(old(free), d) && free == old(free) - {m.handle}
    {
      var h := Allocated(free, d);
      if h.None? {
        return null;
      }
      free := free - {h.value};
      m := new Mbuf(h.value, room);
    }

    /** Freeing a buffer that is already free would break the precondition. */
    method Free(m: Mbuf)
      requires m.handle !in free
      modifies this`free
      ensures free == old(free) + {m.handle}
    {
      free := free + {m.handle};
    }
  }

  /** The burst array holds the buffers of these slots in its first positions. */
  ghost predicate Holds(mbufs: array<Mbuf?>, burst: seq<Slot>)
    reads mbufs, set m | m in mbufs[..], set m: Mbuf | m in mbufs[..] :: m.room
  {
    && |burst| <= mbufs.Length
    && forall k :: 0 <= k < |burst| ==>
         mbufs[k] != null && mbufs[k].Valid() && Slot(mbufs[k].handle, burst[k].flow, mbufs[k].Bytes()) == burst[k]
  }

  /** The NIC: buffers it holds for transmission, and what went out. */
  class Nic {
    var sending: set<nat>
    var wire: seq<seq<u8>>

    /** Takes over the first buffers of a burst: as many as the environment accepts. */
    method TxBurst(mbufs: array<Mbuf?>, ghost burst: seq<Slot>, count: nat, accepted: nat) returns (sent: nat)
      requires Holds(mbufs, burst) && count == |burst|
      modifies this
      ensures sent == Min(accepted, count)
      ensures sending == old(sending) + Handles(burst[..sent])
      ensures wire == old(wire) + Frames(burst[..sent])
    {
      sent := Min(accepted, count);
      var k := 0;
      while k < sent
        invariant 0 <= k <= sent
        invariant sending == old(sending) + Handles(burst[..k])
        invariant wire == old(wire) + Frames(burst[..k])
      {
        sending := sending + {mbufs[k].handle};
        wire := wire + [mbufs[k].room[..mbufs[k].pktLen]];
        HandlesNext(burst, k);
        k := k + 1;
      }
    }
  }

  lemma HandlesNext(burst: seq<Slot>, k: nat)
    requires k < |burst|
    ensures Handles(burst[..k + 1]) == Handles(burst[..k]) + {burst[k].handle}
    ensures Frames(burst[..k + 1]) == Frames(burst[..k]) + [burst[k].frame]
    ensures TotalBytes(burst[..k + 1]) == TotalBytes(burst[..k]) + |burst[k].frame|
  {
    var a, b := burst[..k], burst[..k + 1];
    assert b[..|b| - 1] == a;
    forall h | h in Handles(b) ensures h in Handles(a) + {burst[k].handle} {
      var j :| 0 <= j < |b| && b[j].handle == h;
      if j < k { assert a[j].handle == h; }
    }
    forall h | h in Handles(a) ensures h in Handles(b) {
      var j :| 0 <= j < |a| && a[j].handle == h;
      assert b[j].handle == h;
    }
    assert b[k].handle in Handles(b);
  }

  // ---------------------------------------------------------------- the worker

  class Worker {
    const coreId: u32
    const burstSize: u16
    const scheduler: FlowScheduler
    const pool: Mempool
    const nic: Nic
    const metrics: MetricsCollector

    constructor (coreId: u32, burstSize: u16, scheduler: FlowScheduler, pool: Mempool, nic: Nic,
                 metrics: MetricsCollector)
      ensures this.coreId == coreId && this.burstSize == burstSize && this.scheduler == scheduler
      ensures this.pool == pool && this.nic == nic && this.metrics == metrics
    {
      this.coreId, this.burstSize, this.scheduler := coreId, burstSize, scheduler;
      this.pool, this.nic, this.metrics := pool, nic, metrics;
    }

    /** Builds one frame of a flow into a buffer and charges the flow for it. */
    method BuildFrame(f: FlowRecord, m: Mbuf, d: Draw, ghost room: nat) returns (ok: bool)
      requires m.Valid() && m.pktLen == 0 && m.room.Length == room < TWO_16
      requires Sane(f.View()) && ImixContract(d.imixSize) && !Overruns(ChosenSize(f.View().spec, d.imixSize), room)
      modifies f, f.conn, m, m.room
      ensures m.Valid() && (!ok ==> f.View() == old(f.View()))
      ensures Attempt(old(f.View()), d, room) == if ok then Some(Build(f.View(), m.Bytes())) else None
    {
      var size := f.spec.packetSize;
      if size == 0 && d.imixSize.Some? {
        size := d.imixSize.value;
      }
      if size == 0 {
        size := 64;
      }
      ok := CopyTemplate(f, m, d, size, room);
      if ok {
        FinishFrame(f, m);
      }
    }

    method CopyTemplate(f: FlowRecord, m: Mbuf, d: Draw, size: u32, ghost room: nat) returns (ok: bool)
      requires m.Valid() && m.pktLen == 0 && m.room.Length == room < TWO_16
      requires Sane(f.View()) && ImixContract(d.imixSize) && size == ChosenSize(f.spec, d.imixSize)
      requires !Overruns(size, room)
      modifies m, m.room
      ensures m.Valid() && (ok <==> CanBuild(f.View(), size, room))
      ensures ok ==> m.Bytes() == Copied(f.View(), size, d, room) && m.pktLen == size
      ensures ok && Tracked(f.View()) ==> Rewritable(m.Bytes())
    {
      CopyOutcome(f.View(), d.imixSize, room);
      ChosenSizeHolds(f.View(), d.imixSize);
      var r := CloneAndMutate(m, f.template.(totalSize := size), 0, d.drawnSeq, d.ipId, true);
      ok := r == Done;
      if ok {
        ChosenSizeSafe(f.View(), d, room);
      }
    }

    method FinishFrame(f: FlowRecord, m: Mbuf)
      requires m.Valid() && (Tracked(f.View()) ==> Rewritable(m.Bytes()))
      modifies f, f.conn, m.room
      ensures f.View() == ChargedFor(old(f.View()), old(m.Bytes()))
      ensures m.Valid() && m.Bytes() == Outgoing(old(f.View()), old(m.Bytes()))
    {
      if !f.spec.stateless && f.spec.protocol == "tcp" && f.conn != null {
        var payload := RewriteForConnection(m, f.conn.sendSeq, f.conn.sendAck);
        f.conn.sendSeq := (f.conn.sendSeq + payload) % TWO_32;
      }
      f.packetsSent := Add64(f.packetsSent, 1);
      f.bytesSent := (f.bytesSent + m.pktLen) % TWO_64;
    }

    ghost predicate Valid()
      reads this, scheduler, scheduler.Repr, pool
    {
      scheduler.Valid() && pool.room < TWO_16 && pool !in scheduler.Repr
    }

    /** A sane flow whose next copy stays inside its buffer. */
    ghost predicate Buildable(f: Flow, d: Draw)
    {
      Sane(f) && ImixContract(d.imixSize) && !Overruns(ChosenSize(f.spec, d.imixSize), pool.room)
    }

    /** A frame of flow `id` is built into the given buffer; no other flow changes. `a` is what the
        attempt amounts to. */
    method BuildFor(id: u32, m: Mbuf, d: Draw) returns (ok: bool, ghost a: Option<Build>)
      requires Valid() && id in scheduler.flows && Buildable(scheduler.View().flows[id], d)
      requires m.Valid() && m.pktLen == 0 && m.room.Length == pool.room && m !in scheduler.Repr
      requires m.room !in scheduler.Repr
      modifies scheduler.Repr - {scheduler}, m, m.room
      ensures scheduler.Valid() && m.Valid() && ok == a.Some?
      ensures a == Attempt(old(scheduler.View()).flows[id], d, pool.room)
      ensures a.Some? ==> m.Bytes() == a.value.frame
      ensures scheduler.View().flows == if a.None? then old(scheduler.View()).flows
                                        else old(scheduler.View()).flows[id := a.value.flow]
    {
      ghost var v := scheduler.View().flows[id];
      assert v == scheduler.flows[id].View() && Buildable(v, d);
      ok := BuildFrame(scheduler.flows[id], m, d, pool.room);
      scheduler.OnlyFlowChanged(id);
      OneEntryChanged(old(scheduler.View()).flows, scheduler.View().flows, id, scheduler.flows[id].View());
      a := if ok then Some(Build(scheduler.flows[id].View(), m.Bytes())) else None;
    }

    /** Builds into an allocated buffer, or gives it back. */
    method BuildOrFree(id: u32, m: Mbuf, d: Draw) returns (ok: bool, ghost a: Option<Build>)
      requires Valid() && id in scheduler.flows && Buildable(scheduler.View().flows[id], d)
      requires m.Valid() && m.pktLen == 0 && m.room.Length == pool.room && m !in scheduler.Repr
      requires m.room !in scheduler.Repr
      requires m.handle !in pool.free
      modifies scheduler.Repr - {scheduler}, m, m.room, pool`free
      ensures scheduler.Valid() && m.Valid() && ok == a.Some?
      ensures a == Attempt(old(scheduler.View()).flows[id], d, pool.room)
      ensures a.Some? ==> m.Bytes() == a.value.frame
      ensures scheduler.View().flows == if a.None? then old(scheduler.View()).flows
                                        else old(scheduler.View()).flows[id := a.value.flow]
      ensures pool.free == if a.None? then old(pool.free) + {m.handle} else old(pool.free)
    {
      ok, a := BuildFor(id, m, d);
      if !ok {
        ghost var flows := scheduler.View().flows;
        pool.Free(m);
        assert scheduler.View().flows == flows;
      }
    }

    /** One iteration over the ready flows: the buffer with the finished frame, or null when the flow is
        gone or stopped, no buffer is to be had, or the frame does not fit. */
    method BuildNext(id: u32, d: Draw) returns (m: Mbuf?)
      requires Valid() && AllSane(scheduler.View().flows) && ImixContract(d.imixSize)
      requires !Spilling(scheduler.View().flows, pool.free, id, d, pool.room)
      modifies scheduler.Repr - {scheduler}, pool`free
      ensures scheduler.Valid()
      ensures m != null ==> fresh(m) && fresh(m.room) && m.Valid()
      ensures Stepped(scheduler.View().flows, pool.free, SlotOf(m, id))
              == Step(old(scheduler.View()).flows, old(pool.free), id, d, pool.room)
    {
      var f := scheduler.GetFlow(id);
      if f == null || !f.active {
        return null;
      }
      m := AllocateAndBuild(id, d);
    }

    ghost function SlotOf(m: Mbuf?, id: u32): Option<Slot>
      requires m != null ==> m.Valid()
      reads m, if m == null then {} else {m.room}
    {
      if m == null then None else Some(Slot(m.handle, id, m.Bytes()))
    }

    method AllocateAndBuild(id: u32, d: Draw) returns (m: Mbuf?)
      requires Valid() && id in scheduler.flows && scheduler.View().flows[id].active
      requires Allocated(pool.free, d).Some? ==> Buildable(scheduler.View().flows[id], d)
      modifies scheduler.Repr - {scheduler}, pool`free
      ensures scheduler.Valid()
      ensures m != null ==> fresh(m) && fresh(m.room) && m.Valid()
      ensures Stepped(scheduler.View().flows, pool.free, SlotOf(m, id))
              == Step(old(scheduler.View()).flows, old(pool.free), id, d, pool.room)
    {
      ghost var flows, free := scheduler.View().flows, pool.free;
      m := Take(d);
      if m != null {
        var ok;
        ghost var a;
        ok, a := BuildOrFree(id, m, d);
        StepBuilds(flows, free, id, d, pool.room, a);
        if !ok {
          PutBack(free, m.handle);
          m := null;
        }
      }
    }

    method Take(d: Draw) returns (m: Mbuf?)
      requires Valid()
      modifies pool`free
      ensures scheduler.Valid() && scheduler.View().flows == old(scheduler.View()).flows
      ensures m == null <==> Allocated(old(pool.free), d).None?
      ensures m == null ==> pool.free == old(pool.free)
      ensures m != null ==> fresh(m) && fresh(m.room) && m.Valid() && m.room.Length == pool.room && m.pktLen == 0
      ensures m != null ==> Some(m.handle) == Allocated(old(pool.free), d) && pool.free == old(pool.free) - {m.handle}
    {
      m := pool.Allocate(d);
    }

    /** The filled positions of the burst array are buffers of their own. */
    ghost predicate Outside(mbufs: array<Mbuf?>, count: nat)
      reads this, scheduler, mbufs
    {
      && count <= mbufs.Length && mbufs !in scheduler.Repr
      && forall k :: 0 <= k < count ==>
          mbufs[k] != null && mbufs[k] !in scheduler.Repr && mbufs[k].room !in scheduler.Repr
    }

    method FillOne(mbufs: array<Mbuf?>, ghost burst: seq<Slot>, count: nat, id: u32, d: Draw) returns (m: Mbuf?)
      requires Valid() && AllSane(scheduler.View().flows) && ImixContract(d.imixSize)
      requires !Spilling(scheduler.View().flows, pool.free, id, d, pool.room)
      requires Holds(mbufs, burst) && count == |burst| < mbufs.Length && Outside(mbufs, count)
      modifies scheduler.Repr - {scheduler}, pool`free, mbufs
      ensures Valid()
      ensures m != null ==> m.Valid()
      ensures Stepped(scheduler.View().flows, pool.free, SlotOf(m, id))
              == Step(old(scheduler.View()).flows, old(pool.free), id, d, pool.room)
      ensures Holds(mbufs, if m == null then burst else burst + [SlotOf(m, id).value])
      ensures Outside(mbufs, if m == null then count else count + 1)
    {
      m := BuildNext(id, d);
      assert Holds(mbufs, burst);
      Place(mbufs, burst, count, m, id);
    }

    /** In the middle of the build loop: the array holds the burst, and the state is that of the pass. */
    ghost predicate Filling(mbufs: array<Mbuf?>, tx: Tx, count: nat)
      reads this, scheduler, scheduler.Repr, pool, mbufs
      reads set m | m in mbufs[..], set m: Mbuf | m in mbufs[..] :: m.room
    {
      && Valid() && AllSane(tx.flows) && tx == Tx(scheduler.View().flows, pool.free, tx.burst)
      && count == |tx.burst| && Holds(mbufs, tx.burst) && Outside(mbufs, count)
    }

    /** One iteration, in terms of the state of the pass before it. */
    method FillNext(mbufs: array<Mbuf?>, ghost tx: Tx, count: nat, id: u32, d: Draw) returns (next: nat, ghost z: Tx)
      requires Filling(mbufs, tx, count) && count < mbufs.Length
      requires ImixContract(d.imixSize) && !Spilling(tx.flows, tx.free, id, d, pool.room)
      modifies scheduler.Repr - {scheduler}, pool`free, mbufs
      ensures z == BuildStep(tx, id, d, pool.room) && Filling(mbufs, z, next)
    {
      var m := FillOne(mbufs, tx.burst, count, id, d);
      next := if m != null then count + 1 else count;
      z := BuildStep(tx, id, d, pool.room);
      StepSameTable(tx.flows, tx.free, id, d, pool.room);
      SameTableSane(tx.flows, z.flows);
    }

    method Place(mbufs: array<Mbuf?>, ghost burst: seq<Slot>, count: nat, m: Mbuf?, id: u32)
      requires Valid() && Holds(mbufs, burst) && count == |burst| < mbufs.Length && Outside(mbufs, count)
      requires m != null ==> m.Valid() && m !in scheduler.Repr && m.room !in scheduler.Repr
      modifies mbufs
      ensures Valid() && scheduler.View().flows == old(scheduler.View()).flows
      ensures Holds(mbufs, if m == null then burst else burst + [SlotOf(m, id).value])
      ensures Outside(mbufs, if m == null then count else count + 1)
    {
      mbufs[count] := m;
    }

    method FillAt(mbufs: array<Mbuf?>, ghost trace: seq<Tx>, count: nat, ids: seq<u32>, i: nat, draws: seq<Draw>)
      returns (next: nat)
      requires i < |ids| <= |draws| && i < |trace| && TraceOf(trace, ids, draws, burstSize, pool.room)
      requires Filling(mbufs, trace[i], count) && count < burstSize == mbufs.Length && ImixContract(draws[i].imixSize)
      modifies scheduler.Repr - {scheduler}, pool`free, mbufs
      ensures i + 1 < |trace| && Filling(mbufs, trace[i + 1], next) && next <= burstSize
    {
      assert StepAt(trace, i, ids, draws, burstSize, pool.room);
      ghost var z;
      next, z := FillNext(mbufs, trace[i], count, ids[i], draws[i]);
    }

    /** The burst loop of `process_flows`: fills the array from the ready flows until it is full. */
    method FillBurst(mbufs: array<Mbuf?>, ghost trace: seq<Tx>, ids: seq<u32>, draws: seq<Draw>) returns (count: nat)
      requires |ids| <= |draws| && TraceOf(trace, ids, draws, burstSize, pool.room)
      requires Filling(mbufs, trace[0], 0) && mbufs.Length == burstSize
      requires forall i :: 0 <= i < |draws| ==> ImixContract(draws[i].imixSize)
      modifies scheduler.Repr - {scheduler}, pool`free, mbufs
      ensures Filling(mbufs, trace[|trace| - 1], count)
    {
      count := 0;
      var i := 0;
      while i < |ids| && count < burstSize
        invariant 0 <= i <= |ids| && i < |trace| && count <= burstSize && scheduler.Repr == old(scheduler.Repr)
        invariant Filling(mbufs, trace[i], count)
      {
        count := FillAt(mbufs, trace, count, ids, i, draws);
        i := i + 1;
      }
      TraceEnds(trace, i, ids, draws, burstSize, pool.room);
    }

    /** `transmit_burst`: counts what the NIC took and frees the rest. */
    method TransmitBurst(mbufs: array<Mbuf?>, ghost burst: seq<Slot>, count: nat, accepted: nat) returns (sent: nat)
      requires Holds(mbufs, burst) && count == |burst| < TWO_16 && Sound(Tx(map[], pool.free, burst))
      modifies nic, metrics`cores, pool`free, mbufs
      ensures sent == Min(accepted, count)
      ensures Wire(pool.free, nic.sending, metrics.cores)
              == Transmit(old(Wire(pool.free, nic.sending, metrics.cores)), coreId, burst, sent)
      ensures nic.wire == old(nic.wire) + Frames(burst[..sent])
    {
      sent := nic.TxBurst(mbufs, burst, count, accepted);
      if sent > 0 {
        var bytes := SumLengths(mbufs, burst, sent);
        metrics.UpdateTxStats(coreId, sent, bytes);
      }
      FreeUnsent(mbufs, burst, sent, count);
    }

    method SumLengths(mbufs: array<Mbuf?>, ghost burst: seq<Slot>, sent: nat) returns (bytes: u64)
      requires Holds(mbufs, burst) && sent <= |burst|
      ensures bytes == TotalBytes(burst[..sent]) % TWO_64
    {
      bytes := 0;
      var i := 0;
      while i < sent
        invariant 0 <= i <= sent && bytes == TotalBytes(burst[..i]) % TWO_64
      {
        HandlesNext(burst, i);
        SumModMod(TotalBytes(burst[..i]), mbufs[i].pktLen);
        bytes := (bytes + mbufs[i].pktLen) % TWO_64;
        i := i + 1;
      }
    }

    method FreeUnsent(mbufs: array<Mbuf?>, ghost burst: seq<Slot>, sent: nat, count: nat)
      requires Holds(mbufs, burst) && sent <= count == |burst| && Sound(Tx(map[], pool.free, burst))
      modifies pool`free, mbufs
      ensures pool.free == old(pool.free) + Handles(burst[sent..])
    {
      var i := sent;
      while i < count
        invariant sent <= i <= count
        invariant forall k :: i <= k < count ==> mbufs[k] == old(mbufs[k])
        invariant pool.free == old(pool.free) + Handles(burst[sent..i])
      {
        assert mbufs[i].handle == burst[i].handle;
        HandlesGrow(burst, sent, i);
        pool.Free(mbufs[i]);
        mbufs[i] := null;
        i := i + 1;
      }
      assert burst[sent..count] == burst[sent..];
    }

    /** `process_flows`: polls the ready flows, builds at most a burst of frames, and transmits them.
        `order`, `now` and `ticks` are what the ready loop sees, `draws` what varies per flow, and
        `accepted` how many frames the NIC is willing to take. */
    method ProcessFlows(order: seq<u32>, now: u64, ticks: seq<u64>, draws: seq<Draw>, accepted: nat)
      requires Valid() && AllSane(scheduler.View().flows)
      requires IsListing(order, scheduler.flows.Keys) && |ticks| == |order| == |draws|
      requires PassStaysInside(scheduler.View().flows, pool.free, order, now, ticks, draws, burstSize, pool.room)
      requires forall i :: 0 <= i < |draws| ==> ImixContract(draws[i].imixSize)
      requires nic !in scheduler.Repr && metrics !in scheduler.Repr
      modifies scheduler.Repr - {scheduler}, pool`free, nic, metrics`cores
      ensures Valid()
      ensures var tx := BuildPass(old(scheduler.View()).flows, old(pool.free), order, now, ticks, draws, burstSize,
                                  pool.room);
              var n := Min(accepted, |tx.burst|);
              && scheduler.View().flows == tx.flows
              && Wire(pool.free, nic.sending, metrics.cores)
                 == Transmit(Wire(tx.free, old(nic.sending), old(metrics.cores)), coreId, tx.burst, n)
              && nic.wire == old(nic.wire) + Frames(tx.burst[..n])
    {
      var mbufs := new Mbuf?[burstSize](_ => null);
      assert scheduler.View() == old(scheduler.View());
      var count;
      ghost var burst;
      count, burst := BuildBurst(mbufs, order, now, ticks, draws);
      var _ := TransmitIfAny(mbufs, burst, count, accepted);
    }

    method BuildBurst(mbufs: array<Mbuf?>, order: seq<u32>, now: u64, ticks: seq<u64>, draws: seq<Draw>)
      returns (count: nat, ghost burst: seq<Slot>)
      requires Valid() && AllSane(scheduler.View().flows)
      requires IsListing(order, scheduler.flows.Keys) && |ticks| == |order| == |draws|
      requires PassStaysInside(scheduler.View().flows, pool.free, order, now, ticks, draws, burstSize, pool.room)
      requires forall i :: 0 <= i < |draws| ==> ImixContract(draws[i].imixSize)
      requires mbufs.Length == burstSize && mbufs !in scheduler.Repr
      modifies scheduler.Repr - {scheduler}, pool`free, mbufs
      ensures Valid() && Holds(mbufs, burst) && count == |burst|
      ensures Tx(scheduler.View().flows, pool.free, burst)
              == BuildPass(old(scheduler.View()).flows, old(pool.free), order, now, ticks, draws, burstSize, pool.room)
    {
      ReadyLoopLength(scheduler.View().flows, order, 0, now, ticks, burstSize, []);
      ReadyLoopSameTable(scheduler.View().flows, order, 0, now, ticks, burstSize, []);
      ghost var flows := scheduler.View().flows;
      var ready := Ready(order, now, ticks);
      SameTableSane(flows, scheduler.View().flows);
      ghost var tx := Tx(scheduler.View().flows, pool.free, []);
      ghost var trace := GrowTrace([tx], ready, 0, draws, burstSize, pool.room);
      assert trace[0] == tx;
      count := FillBurst(mbufs, trace, ready, draws);
      burst := trace[|trace| - 1].burst;
    }

    method Ready(order: seq<u32>, now: u64, ticks: seq<u64>) returns (ready: seq<u32>)
      requires Valid() && IsListing(order, scheduler.flows.Keys) && |ticks| == |order|
      modifies scheduler.Repr - {scheduler}
      ensures Valid()
      ensures FlowSchedulers.Ready(scheduler.View().flows, ready)
              == ReadyLoop(old(scheduler.View()).flows, order, 0, now, ticks, burstSize, [])
    {
      ready := scheduler.GetReadyFlows(burstSize, order, now, ticks);
    }

    method TransmitIfAny(mbufs: array<Mbuf?>, ghost burst: seq<Slot>, count: nat, accepted: nat) returns (sent: nat)
      requires Valid() && Holds(mbufs, burst) && count == |burst| < TWO_16 && Sound(Tx(map[], pool.free, burst))
      requires nic !in scheduler.Repr && metrics !in scheduler.Repr && mbufs !in scheduler.Repr
      modifies nic, metrics`cores, pool`free, mbufs
      ensures Valid() && scheduler.View().flows == old(scheduler.View()).flows
      ensures sent == Min(accepted, count)
      ensures Wire(pool.free, nic.sending, metrics.cores)
              == Transmit(old(Wire(pool.free, nic.sending, metrics.cores)), coreId, burst, sent)
      ensures nic.wire == old(nic.wire) + Frames(burst[..sent])
    {
      if count > 0 {
        sent := TransmitBurst(mbufs, burst, count, accepted);
      } else {
        sent := 0;
        TransmitNothing(Wire(pool.free, nic.sending, metrics.cores), coreId, burst);
        assert nic.wire == nic.wire + Frames(burst[..0]);
      }
    }

    /** One received buffer: a latency sample if it is stamped, dispatch of a TCP segment, and back to the
        pool. */
    method ReceiveOne(m: Mbuf, stamp: Option<u64>, now: u64)
      requires Valid() && m.room.Length >= L4 + TCP_SIZE && m.handle !in pool.free && metrics.Valid()
      requires m !in scheduler.Repr && m.room !in scheduler.Repr
      requires metrics !in scheduler.Repr && metrics.buckets !in scheduler.Repr && m.room as object != metrics.buckets
      modifies scheduler.Repr - {scheduler}, pool`free, metrics`samples, metrics`calls, metrics.buckets
      ensures Valid() && metrics.Valid()
      ensures scheduler.View() == Dispatch(old(scheduler.View()), m.room[..], now)
      ensures pool.free == old(pool.free) + {m.handle}
      ensures SinceReset(metrics.calls) == SinceReset(old(metrics.calls)) + Sample(stamp, now)
    {
      Observe(stamp, now);
      DeliverAndFree(m, now);
    }

    /** A latency sample, if the buffer is stamped. */
    method Observe(stamp: Option<u64>, now: u64)
      requires Valid() && metrics.Valid() && metrics !in scheduler.Repr && metrics.buckets !in scheduler.Repr
      modifies metrics`samples, metrics`calls, metrics.buckets
      ensures Valid() && metrics.Valid() && scheduler.View() == old(scheduler.View())
      ensures SinceReset(metrics.calls) == SinceReset(old(metrics.calls)) + Sample(stamp, now)
    {
      if stamp.Some? && stamp.value != 0 && now > stamp.value {
        metrics.RecordLatency(now - stamp.value);
      }
    }

    method DeliverAndFree(m: Mbuf, now: u64)
      requires Valid() && m.room.Length >= L4 + TCP_SIZE && m.handle !in pool.free && m.room !in scheduler.Repr
      modifies scheduler.Repr - {scheduler}, pool`free
      ensures Valid() && scheduler.View() == Dispatch(old(scheduler.View()), m.room[..], now)
      ensures pool.free == old(pool.free) + {m.handle}
    {
      Deliver(m, now);
      ghost var s := scheduler.View();
      pool.Free(m);
      assert scheduler.View() == s;
    }

    /** Every received buffer is one of its own, not free, and not shared with flows or metrics. */
    ghost predicate Arrived(mbufs: array<Mbuf?>, batch: seq<RxSlot>, from: nat)
      reads this, scheduler, pool, metrics, mbufs, set m: Mbuf | m in mbufs[..], set m: Mbuf | m in mbufs[..] :: m.room
    {
      && from <= |batch| <= mbufs.Length && mbufs !in scheduler.Repr
      && (forall k :: from <= k < |batch| ==>
            && mbufs[k] != null && mbufs[k].handle == batch[k].handle && mbufs[k].pktLen == batch[k].len
            && mbufs[k].room[..] == batch[k].data
            && mbufs[k] !in scheduler.Repr && mbufs[k].room !in scheduler.Repr
            && mbufs[k].room as object != metrics.buckets)
      && (forall k :: from <= k < |batch| ==> batch[k].handle !in pool.free)
      && (forall j, k :: from <= j < k < |batch| ==> batch[j].handle != batch[k].handle)
    }

    ghost function RxView(bytes: u64): Rx
      requires scheduler.Valid()
      reads this, scheduler, scheduler.Repr, pool, metrics
    {
      Rx(scheduler.View(), pool.free, SinceReset(metrics.calls), bytes)
    }

    /** `process_received_packets`: every buffer of the batch is accounted, dispatched and freed. */
    method ProcessReceived(mbufs: array<Mbuf?>, ghost batch: seq<RxSlot>, count: nat, stamps: seq<Option<u64>>,
                           now: u64)
      requires Valid() && metrics.Valid() && metrics !in scheduler.Repr && metrics.buckets !in scheduler.Repr
      requires Parsable(batch) && Arrived(mbufs, batch, 0) && count == |batch| == |stamps| < TWO_16
      requires forall k :: 0 <= k < count ==> stamps[k] == batch[k].stamp
      modifies scheduler.Repr - {scheduler}, pool`free, mbufs
      modifies metrics`samples, metrics`calls, metrics`cores, metrics.buckets
      ensures Valid() && metrics.Valid()
      ensures var z := ReceiveAll(old(RxView(0)), batch, 0, now);
              && RxView(z.bytes) == z
              && metrics.cores == if z.bytes > 0 then CountRx(old(metrics.cores), coreId, count, z.bytes)
                                                       else old(metrics.cores)
    {
      var bytes := ReceiveLoop(mbufs, batch, count, stamps, now);
      if bytes > 0 {
        ghost var z := RxView(bytes);
        metrics.UpdateRxStats(coreId, count, bytes);
        assert RxView(bytes) == z;
      }
    }

    method ReceiveLoop(mbufs: array<Mbuf?>, ghost batch: seq<RxSlot>, count: nat, stamps: seq<Option<u64>>, now: u64)
      returns (bytes: u64)
      requires Valid() && metrics.Valid() && metrics !in scheduler.Repr && metrics.buckets !in scheduler.Repr
      requires Parsable(batch) && Arrived(mbufs, batch, 0) && count == |batch| == |stamps|
      requires forall k :: 0 <= k < count ==> stamps[k] == batch[k].stamp
      modifies scheduler.Repr - {scheduler}, pool`free, mbufs, metrics`samples, metrics`calls, metrics.buckets
      ensures Valid() && metrics.Valid()
      ensures RxView(bytes) == ReceiveAll(old(RxView(0)), batch, 0, now)
    {
      bytes := 0;
      var i := 0;
      ghost var end := ReceiveAll(RxView(0), batch, 0, now);
      while i < count
        invariant 0 <= i <= count && Valid() && metrics.Valid() && Arrived(mbufs, batch, i)
        invariant ReceiveAll(RxView(bytes), batch, i, now) == end
      {
        bytes := ReceiveAt(mbufs, batch, i, stamps[i], now, bytes);
        i := i + 1;
      }
    }

    method ReceiveAt(mbufs: array<Mbuf?>, ghost batch: seq<RxSlot>, i: nat, stamp: Option<u64>, now: u64, bytes: u64)
      returns (total: u64)
      requires Valid() && metrics.Valid() && metrics !in scheduler.Repr && metrics.buckets !in scheduler.Repr
      requires Parsable(batch) && i < |batch| && Arrived(mbufs, batch, i) && stamp == batch[i].stamp
      modifies scheduler.Repr - {scheduler}, pool`free, mbufs, metrics`samples, metrics`calls, metrics.buckets
      ensures Valid() && metrics.Valid() && Arrived(mbufs, batch, i + 1)
      ensures RxView(total) == ReceiveStep(old(RxView(bytes)), batch[i], now)
    {
      total := (bytes + mbufs[i].pktLen) % TWO_64;
      ReceiveOne(mbufs[i], stamp, now);
      label freed:
      assert Arrived(mbufs, batch, i + 1);
      mbufs[i] := null;
      assert scheduler.View() == old@freed(scheduler.View());
    }

    method Deliver(m: Mbuf, now: u64)
      requires Valid() && m.room.Length >= L4 + TCP_SIZE && m.room !in scheduler.Repr
      modifies scheduler.Repr - {scheduler}
      ensures Valid() && scheduler.View() == Dispatch(old(scheduler.View()), m.room[..], now)
    {
      var r := ParseRx(m.room[..]);
      if r.Some? {
        scheduler.HandleTcpRx(r.value.key, SegmentOf(r.value), now);
      }
    }
  }

  lemma PutBack(free: set<nat>, h: nat)
    requires h in free
    ensures free - {h} + {h} == free
  {
  }

  lemma TransmitNothing(w: Wire, core: u32, burst: seq<Slot>)
    requires burst == []
    ensures Transmit(w, core, burst, 0) == w
  {
  }

  lemma HandlesGrow(burst: seq<Slot>, from: nat, i: nat)
    requires from <= i < |burst|
    requires forall j, k :: 0 <= j < k < |burst| ==> burst[j].handle != burst[k].handle
    ensures Handles(burst[from..i + 1]) == Handles(burst[from..i]) + {burst[i].handle}
    ensures burst[i].handle !in Handles(burst[from..i])
  {
    HandlesNext(burst[from..], i - from);
    assert burst[from..][..i - from] == burst[from..i] && burst[from..][..i - from + 1] == burst[from..i + 1];
  }
}
