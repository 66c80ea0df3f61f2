/** What leaves the generator, over every run: frames whose lengths and checksums are right, that the
    receive path takes back to the flow they came from, and that tile a connection's sequence space. */
module FrameRuns {
  import opened Words
  import opened FlowKeys
  import opened FlowIndexes
  import opened Packets
  import opened PacketProofs
  import opened WireFormats
  import TcpStates
  import opened FlowSchedulers
  import opened Workers
  import opened Pipelines
  import opened RateBounds

  /** A TCP frame with a flow's addresses and ports and a length field that matches its size. */
  ghost predicate TcpFrameOf(g: seq<u8>, key: FlowKey) {
    L4 + TCP_SIZE <= |g| < TWO_16 && IpFields(g, key, IPPROTO_TCP) && TcpFields(g, key)
    && Get16(g, TOTAL_LENGTH) == |g| - ETHER
  }

  /** A frame is right for a flow: it has the flow's addresses and ports, length fields that match its size,
      and sums that verify. */
  ghost predicate Right(g: seq<u8>, spec: FlowSpec) {
    && |g| >= L4 + UDP_SIZE && IpVerifies(g) && Get16(g, TOTAL_LENGTH) == |g| - ETHER
    && IpFields(g, spec.key, ProtocolNumber(spec.protocol))
    && (spec.protocol == "tcp" ==> L4Verifies(g) && TcpFrameOf(g, spec.key))
    && (spec.protocol == "udp" ==> L4Verifies(g) && PortFields(g, spec.key) && Get16(g, UDP_LEN) == |g| - L4)
  }

  /** A tracked flow's frame carries its connection's numbers. */
  ghost predicate Numbered(g: seq<u8>, f: Flow) {
    Tracked(f) && |g| >= L4 + TCP_SIZE ==>
      g[TCP_FLAGS] == ACK_FLAG && Get32(g, TCP_SEQ) == f.conn.value.sendSeq && Get32(g, TCP_ACK) == f.conn.value.sendAck
  }

  lemma CopyRight(f: Flow, size: u32, d: Draw, room: nat)
    requires Sane(f) && CanBuild(f, size, room)
    ensures Right(Copied(f, size, d, room), f.spec)
  {
    MutatedFrameCorrect(f.template, f.spec.protocol, size, d.drawnSeq, d.ipId);
    ProtocolSizes(f.spec.protocol);
  }

  lemma RewriteRight(f: Flow, g: seq<u8>)
    requires Tracked(f) && Right(g, f.spec)
    ensures Rewritable(g) && PayloadLength(g) == |g| - (L4 + TCP_SIZE)
    ensures Right(Outgoing(f, g), f.spec) && Numbered(Outgoing(f, g), f)
  {
    RewrittenFrame(g, f.spec.key, f.conn.value.sendSeq, f.conn.value.sendAck);
    PayloadFromFields(g, f.spec.key);
  }

  /** Every frame a sane flow builds is right and has the chosen size; a tracked flow's carries the
      connection's numbers. */
  lemma AttemptRight(f: Flow, d: Draw, room: nat)
    requires Sane(f) && Attempt(f, d, room).Some?
    ensures var a := Attempt(f, d, room).value;
            && |a.frame| == ChosenSize(f.spec, d.imixSize) && Right(a.frame, f.spec) && Numbered(a.frame, f)
  {
    var size := ChosenSize(f.spec, d.imixSize);
    CopyRight(f, size, d, room);
    if Tracked(f) {
      RewriteRight(f, Copied(f, size, d, room));
    }
  }

  /** A flow's frame for one draw, byte by byte: its size, addresses, ports, lengths and id, a tracked flow's
      numbers and ACK flag or a stateless one's drawn number without flags, a zero payload, and checksums that
      verify in the encoding the standards ask for. */
  ghost predicate FrameOf(g: seq<u8>, f: Flow, mac: Mac, d: Draw) {
    && |g| == (if f.spec.packetSize != 0 then f.spec.packetSize
               else if d.imixSize.Some? && d.imixSize.value != 0 then d.imixSize.value else 64)
    && HeadersOf(g, f.spec.key, f.spec.protocol, mac, DestinationOf(f.spec))
    && Field16(g, 16, |g| - 14) && Field16(g, 18, d.ipId) && ZeroFrom(g, PayloadAt(f.spec.protocol))
    && (f.spec.protocol == "tcp" && !f.spec.stateless ==> f.conn.Some? && NumbersOf(g, f.conn.value))
    && (f.spec.protocol == "tcp" && f.spec.stateless ==> Field32(g, 38, d.drawnSeq) && Field32(g, 42, 0) && g[47] == 0)
    && (f.spec.protocol == "udp" ==> Field16(g, 38, |g| - 34))
    && CanonicalSums(g, f.spec.protocol) && IpVerifies(g) && (f.spec.protocol in {"tcp", "udp"} ==> L4Verifies(g))
  }

  /** A connection's numbers, and nothing but the ACK flag. */
  ghost predicate NumbersOf(g: seq<u8>, c: TcpStates.Conn) {
    |g| >= 54 && Field32(g, 38, c.sendSeq) && Field32(g, 42, c.sendAck) && g[47] == 0x10
  }

  lemma CopyIsFrame(f: Flow, mac: Mac, size: u32, d: Draw, room: nat)
    requires Sane(f) && Labelled(f, mac) && CanBuild(f, size, room)
    ensures var g := Copied(f, size, d, room);
            && |g| == size && HeadersOf(g, f.spec.key, f.spec.protocol, mac, DestinationOf(f.spec))
            && Field16(g, 16, |g| - 14) && Field16(g, 18, d.ipId) && ZeroFrom(g, PayloadAt(f.spec.protocol))
            && (f.spec.protocol == "tcp" ==> Field32(g, 38, d.drawnSeq) && Field32(g, 42, 0) && g[47] == 0)
            && (f.spec.protocol == "udp" ==> Field16(g, 38, |g| - 34))
            && CanonicalSums(g, f.spec.protocol)
  {
    CopyBytes(f.template, f.spec.protocol, size, d.drawnSeq, d.ipId, mac, DestinationOf(f.spec));
    CopyIsCanonical(f.template, f.spec.protocol, size, d.drawnSeq, d.ipId);
  }

  lemma RewriteIsFrame(g: seq<u8>, key: FlowKey, mac: Mac, dst: Mac, ipId: u16, sendSeq: u32, sendAck: u32)
    requires HeadersOf(g, key, "tcp", mac, dst) && CanonicalSums(g, "tcp") && ZeroFrom(g, 54)
    requires Field16(g, 16, |g| - 14) && Field16(g, 18, ipId)
    ensures Rewritable(g)
    ensures var h := Rewritten(g, sendSeq, sendAck);
            && |h| == |g| && HeadersOf(h, key, "tcp", mac, dst) && CanonicalSums(h, "tcp") && ZeroFrom(h, 54)
            && Field16(h, 16, |h| - 14) && Field16(h, 18, ipId)
            && Field32(h, 38, sendSeq) && Field32(h, 42, sendAck) && h[47] == 0x10
  {
    RewrittenBytes(g, sendSeq, sendAck);
    RewriteIsCanonical(g, sendSeq, sendAck);
    HeadersCarry(g, Rewritten(g, sendSeq, sendAck), key, "tcp", mac, dst);
  }

  /** Every frame that is built for a flow as the table holds it is the frame of its draw. */
  lemma AttemptIsFrame(f: Flow, mac: Mac, d: Draw, room: nat)
    requires Sane(f) && Labelled(f, mac) && Attempt(f, d, room).Some?
    ensures FrameOf(Attempt(f, d, room).value.frame, f, mac, d)
  {
    var size := ChosenSize(f.spec, d.imixSize);
    AttemptRight(f, d, room);
    CopyIsFrame(f, mac, size, d, room);
    if Tracked(f) {
      RewriteIsFrame(Copied(f, size, d, room), f.spec.key, mac, DestinationOf(f.spec), d.ipId,
                     f.conn.value.sendSeq, f.conn.value.sendAck);
    }
  }

  /** Over every run from the start, every frame built is, byte by byte, the frame of its flow and draw, sent from the
      scheduler's address to the one its specification names. */
  lemma EveryFrameRight(first: System, before: seq<Event>, s: System, e: Event, id: u32)
    requires Initial(first) && Leads(first, before, s) && Enabled(s, e) && FramesBy(s, e, id) != []
    ensures id in s.sched.flows && Right(FramesBy(s, e, id)[0], s.sched.flows[id].spec)
            && |FramesBy(s, e, id)[0]| == ChosenSize(s.sched.flows[id].spec, e.d.imixSize)
            && Numbered(FramesBy(s, e, id)[0], s.sched.flows[id])
            && FrameOf(FramesBy(s, e, id)[0], s.sched.flows[id], first.mac, e.d)
  {
    ReachableHealthy(first, before, s);
    ReachableLabelled(first, before, s);
    AttemptRight(s.sched.flows[id], e.d, s.room);
    AttemptIsFrame(s.sched.flows[id], s.mac, e.d, s.room);
  }

  /** When a look at a grant builds a frame: exactly for a flow that is there and active, with a buffer to be had and a
      size within the data room. */
  lemma BuildsIff(first: System, before: seq<Event>, s: System, w: nat, d: Draw)
    requires Initial(first) && Leads(first, before, s) && Enabled(s, Event.Build(w, d))
    requires |s.workers[w].burst| < s.burstSize
    ensures var id := s.workers[w].ready[0];
            FramesBy(s, Event.Build(w, d), id) != []
            <==> id in s.sched.flows && s.sched.flows[id].active && d.handle.Some? && d.handle.value in s.free
                 && ChosenSize(s.sched.flows[id].spec, d.imixSize) <= s.room
    ensures forall j :: j != s.workers[w].ready[0] ==> FramesBy(s, Event.Build(w, d), j) == []
  {
    ReachableHealthy(first, before, s);
    var id := s.workers[w].ready[0];
    if id in s.sched.flows {
      CopyOutcome(s.sched.flows[id], d.imixSize, s.room);
    }
  }

  // ---------------------------------------------------------------- the wire

  /** Both sums of a frame verify, as far as it has a TCP or UDP segment, and its length field is right. */
  ghost predicate Verified(g: seq<u8>) {
    && IpVerifies(g) && Get16(g, TOTAL_LENGTH) == |g| - ETHER
    && (g[NEXT_PROTO] in {IPPROTO_TCP, IPPROTO_UDP} ==> L4Verifies(g))
  }

  lemma RightIsVerified(g: seq<u8>, spec: FlowSpec)
    requires Right(g, spec) && TransportSize(spec.protocol).Some?
    ensures Verified(g)
  {
    ProtocolSizes(spec.protocol);
  }

  ghost predicate AllVerified(s: System) {
    forall w, k :: 0 <= w < |s.workers| && 0 <= k < |s.workers[w].burst| ==> Verified(s.workers[w].burst[k].frame)
  }

  lemma StepKeepsVerified(s: System, e: Event)
    requires Enabled(s, e) && AllHealthy(s) && AllVerified(s)
    ensures AllVerified(Next(s, e))
  {
    if e.Build? {
      BuiltVerified(s, e);
      BuildKeepsVerified(s, e);
    } else {
      OthersBuildNothing(s, e);
    }
  }

  lemma BuildKeepsVerified(s: System, e: Event)
    requires Enabled(s, e) && e.Build? && AllVerified(s)
    requires var t := Step(s.sched.flows, s.free, s.workers[e.w].ready[0], e.d, s.room);
             t.slot.Some? ==> Verified(t.slot.value.frame)
    ensures AllVerified(Next(s, e))
  {
    assert forall w :: 0 <= w < |s.workers| && w != e.w ==> Next(s, e).workers[w] == s.workers[w];
  }

  /** No other event puts a frame into a burst. */
  lemma OthersBuildNothing(s: System, e: Event)
    requires Enabled(s, e) && !e.Build?
    ensures var z := Next(s, e);
            |z.workers| == |s.workers|
            && forall w :: 0 <= w < |s.workers| ==> z.workers[w].burst == [] || z.workers[w].burst == s.workers[w].burst
  {
  }

  lemma BuiltVerified(s: System, e: Event)
    requires Enabled(s, e) && e.Build? && AllHealthy(s)
    ensures var t := Step(s.sched.flows, s.free, s.workers[e.w].ready[0], e.d, s.room);
            t.slot.Some? ==> Verified(t.slot.value.frame)
  {
    var id := s.workers[e.w].ready[0];
    if Step(s.sched.flows, s.free, id, e.d, s.room).slot.Some? {
      AttemptRight(s.sched.flows[id], e.d, s.room);
      RightIsVerified(Attempt(s.sched.flows[id], e.d, s.room).value.frame, s.sched.flows[id].spec);
    }
  }

  /** Whatever any worker holds for the NIC at any point of any run verifies, so everything sent does. */
  lemma {:induction false} WireVerifies(s: System, es: seq<Event>, z: System)
    requires AllHealthy(s) && AllVerified(s) && Leads(s, es, z)
    ensures AllVerified(z)
    decreases |es|
  {
    if es != [] {
      StepKeepsVerified(s, es[0]);
      StepKeepsHealth(s, es[0]);
      WireVerifies(Next(s, es[0]), es[1..], z);
    }
  }

  // ---------------------------------------------------------------- back through the receive path

  /** The receive path reads a flow's own frame, and its mirror image from the peer, back to that flow:
      the parsed key is the flow's, the payload is what lies behind the headers, and the index resolves
      the key and its reverse to the flow's id whenever lookup and scan agree. */
  lemma ReceivedIsOwn(s: System, id: u32, g: seq<u8>)
    requires id in s.sched.flows && TcpFrameOf(g, s.sched.flows[id].spec.key)
    ensures ParseRx(g).Some? && ParseRx(g).value.payload == |g| - (L4 + TCP_SIZE)
    ensures ParseRx(g).value.key == s.sched.flows[id].spec.key.(protocol := IPPROTO_TCP)
    ensures Agrees(s.sched) && s.sched.flows[id].spec.key.protocol == IPPROTO_TCP ==>
              Lookup(s.sched, ParseRx(g).value.key) == Lookup(s.sched, Reverse(ParseRx(g).value.key)) == Some(id)
  {
    var key := s.sched.flows[id].spec.key;
    PayloadFromFields(g, key);
    if Agrees(s.sched) && key.protocol == IPPROTO_TCP {
      LookupIsScan(s.sched, key);
      assert id in Owners(s.sched, key);
    }
  }

  // ---------------------------------------------------------------- sequence numbers

  /** A TCP frame whose payload starts at sequence number `start`, and where it ends. */
  ghost predicate Piece(g: seq<u8>, start: u32) {
    |g| >= L4 + TCP_SIZE && Get32(g, TCP_SEQ) == start
  }

  function End(start: u32, g: seq<u8>): u32 {
    (start + (|g| - (L4 + TCP_SIZE))) % TWO_32
  }

  /** Payload bytes of the first frames. */
  function PayloadBefore(fs: seq<seq<u8>>, k: nat): int
    requires k <= |fs|
  {
    if k == 0 then 0 else PayloadBefore(fs, k - 1) + (|fs[k - 1]| - (L4 + TCP_SIZE))
  }

  /** The connection's next sequence number after the first frames of a run. */
  function SeqAfter(start: u32, fs: seq<seq<u8>>, k: nat): u32
    requires k <= |fs|
  {
    if k == 0 then start else End(SeqAfter(start, fs, k - 1), fs[k - 1])
  }

  /** In closed form: the initial number plus all earlier payload, modulo 2^32. */
  lemma {:induction false} SeqAfterIsSum(start: u32, fs: seq<seq<u8>>, k: nat)
    requires k <= |fs|
    ensures SeqAfter(start, fs, k) == (start + PayloadBefore(fs, k)) % TWO_32
    decreases k
  {
    if k > 0 {
      SeqAfterIsSum(start, fs, k - 1);
      SumMod32(start + PayloadBefore(fs, k - 1), |fs[k - 1]| - (L4 + TCP_SIZE));
    }
  }

  /** Each frame starts where the one before it ended, the first at `start`. */
  ghost predicate Tiles(fs: seq<seq<u8>>, start: u32) {
    forall k :: 0 <= k < |fs| ==> Piece(fs[k], SeqAfter(start, fs, k))
  }

  lemma {:induction false} SeqAfterShift(start: u32, g: seq<u8>, rest: seq<seq<u8>>, k: nat)
    requires k <= |rest|
    ensures SeqAfter(start, [g] + rest, k + 1) == SeqAfter(End(start, g), rest, k)
    decreases k
  {
    if k > 0 {
      SeqAfterShift(start, g, rest, k - 1);
      assert ([g] + rest)[k] == rest[k - 1];
    }
  }

  lemma SumMod32(a: int, b: int)
    ensures (a % TWO_32 + b) % TWO_32 == (a + b) % TWO_32
  {
    var q, r := a / TWO_32, a % TWO_32;
    assert a + b == TWO_32 * q + (r + b);
  }

  lemma TilesCons(g: seq<u8>, rest: seq<seq<u8>>, start: u32)
    requires Piece(g, start) && Tiles(rest, End(start, g))
    ensures Tiles([g] + rest, start)
  {
    forall k | 0 <= k < |[g] + rest| ensures Piece(([g] + rest)[k], SeqAfter(start, [g] + rest, k)) {
      if k > 0 {
        SeqAfterShift(start, g, rest, k - 1);
        assert ([g] + rest)[k] == rest[k - 1];
      }
    }
  }

  ghost predicate TrackedSeq(f: Flow, n: u32) {
    Tracked(f) && f.conn.value.sendSeq == n
  }

  lemma AttemptNumbers(f: Flow, d: Draw, room: nat)
    requires Sane(f) && Tracked(f) && Attempt(f, d, room).Some?
    ensures var a := Attempt(f, d, room).value;
            Piece(a.frame, f.conn.value.sendSeq) && TrackedSeq(a.flow, End(f.conn.value.sendSeq, a.frame))
  {
    var g := Copied(f, ChosenSize(f.spec, d.imixSize), d, room);
    CopyRight(f, ChosenSize(f.spec, d.imixSize), d, room);
    RewriteRight(f, g);
    ChargedSeq(f, g, Outgoing(f, g));
  }

  lemma ChargedSeq(f: Flow, g: seq<u8>, h: seq<u8>)
    requires Tracked(f) && Rewritable(g) && PayloadLength(g) == |g| - (L4 + TCP_SIZE) && |h| == |g|
    ensures TrackedSeq(ChargedFor(f, g), End(f.conn.value.sendSeq, h))
  {
  }

  /** The sequence number moves with the frames and with nothing else. */
  lemma QuietStepKeepsSeq(s: System, e: Event, id: u32)
    requires Enabled(s, e) && !Replaces(e, id) && id in s.sched.flows && Tracked(s.sched.flows[id])
    requires FramesBy(s, e, id) == []
    ensures id in Next(s, e).sched.flows ==>
              TrackedSeq(Next(s, e).sched.flows[id], s.sched.flows[id].conn.value.sendSeq)
  {
    if e.Poll? {
      PollPending(s, e, id);
    } else if e.ReceiveBatch? {
      ReceiveAllOnlyHears(Rx(s.sched, s.free, [], 0), e.batch, 0, e.now);
    }
  }

  /** One event: no frame and an unchanged number, or one frame that starts at the number and moves it. */
  ghost predicate SeqStep(f: Flow, g: Flow, fs: seq<seq<u8>>)
    requires Tracked(f)
  {
    var start := f.conn.value.sendSeq;
    if fs == [] then TrackedSeq(g, start)
    else fs == [fs[0]] && Piece(fs[0], start) && TrackedSeq(g, End(start, fs[0]))
  }

  lemma BuildMovesSeq(s: System, e: Event, id: u32)
    requires Enabled(s, e) && AllHealthy(s) && id in s.sched.flows && Tracked(s.sched.flows[id])
    requires FramesBy(s, e, id) != []
    ensures id in Next(s, e).sched.flows && SeqStep(s.sched.flows[id], Next(s, e).sched.flows[id], FramesBy(s, e, id))
  {
    AttemptNumbers(s.sched.flows[id], e.d, s.room);
  }

  lemma MovesSeq(s: System, e: Event, id: u32)
    requires Enabled(s, e) && AllHealthy(s) && !Replaces(e, id) && id in s.sched.flows && Tracked(s.sched.flows[id])
    ensures id in Next(s, e).sched.flows ==> SeqStep(s.sched.flows[id], Next(s, e).sched.flows[id], FramesBy(s, e, id))
    ensures id !in Next(s, e).sched.flows ==> FramesBy(s, e, id) == []
  {
    if FramesBy(s, e, id) == [] {
      QuietStepKeepsSeq(s, e, id);
    } else {
      BuildMovesSeq(s, e, id);
    }
  }

  /** What a run does to a tracked flow's sequence number. */
  ghost predicate Tiled(f: Flow, fs: seq<seq<u8>>, after: map<u32, Flow>, id: u32)
    requires Tracked(f)
  {
    var start := f.conn.value.sendSeq;
    Tiles(fs, start) && (id in after ==> TrackedSeq(after[id], SeqAfter(start, fs, |fs|)))
  }

  lemma TiledStep(f: Flow, g: Flow, now: seq<seq<u8>>, rest: seq<seq<u8>>, after: map<u32, Flow>, id: u32)
    requires Tracked(f) && SeqStep(f, g, now) && Tiled(g, rest, after, id)
    ensures Tiled(f, now + rest, after, id)
  {
    if now == [] {
      assert now + rest == rest;
    } else {
      TilesCons(now[0], rest, f.conn.value.sendSeq);
      SeqAfterShift(f.conn.value.sendSeq, now[0], rest, |rest|);
      assert now + rest == [now[0]] + rest;
    }
  }

  /** Sequence tiling: over every run in which the flow is not replaced, whatever sizes are drawn and
      whatever is received, each frame carries the initial number plus all earlier payload, modulo 2^32,
      so consecutive frames cover the sequence space without gap or overlap. */
  lemma {:induction false} SequenceTiling(s: System, es: seq<Event>, z: System, id: u32)
    requires AllHealthy(s) && Leads(s, es, z) && NeverReplaced(es, id)
    requires id in s.sched.flows && Tracked(s.sched.flows[id])
    ensures Tiled(s.sched.flows[id], FramesOf(s, es, id), z.sched.flows, id)
    decreases |es|
  {
    if es != [] {
      var y := Next(s, es[0]);
      StepKeepsHealth(s, es[0]);
      MovesSeq(s, es[0], id);
      if id in y.sched.flows {
        SequenceTiling(y, es[1..], z, id);
        TiledStep(s.sched.flows[id], y.sched.flows[id], FramesBy(s, es[0], id), FramesOf(y, es[1..], id),
                  z.sched.flows, id);
      } else {
        AbsentBuildsNothing(y, es[1..], z, id);
      }
    }
  }

  lemma {:induction false} AbsentBuildsNothing(s: System, es: seq<Event>, z: System, id: u32)
    requires Leads(s, es, z) && NeverReplaced(es, id) && id !in s.sched.flows
    ensures FramesOf(s, es, id) == [] && id !in z.sched.flows
    decreases |es|
  {
    if es != [] {
      AbsentStaysAbsent(s, es[0], id);
      AbsentBuildsNothing(Next(s, es[0]), es[1..], z, id);
    }
  }
}
