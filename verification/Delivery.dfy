/** From one generator to another: a frame of a tracked flow, received by a generator with a flow on the same
    connection. */
module Deliveries {
  import opened Words
  import opened TcpStates
  import opened FlowKeys
  import opened FlowIndexes
  import opened Packets
  import opened PacketProofs
  import opened FlowSchedulers
  import opened Workers
  import opened FrameRuns

  /** What the receive path reads sits in the headers, so what lies behind the frame does not matter. */
  lemma ParsePrefix(g: seq<u8>, data: seq<u8>)
    requires |g| >= L4 + TCP_SIZE && g <= data
    ensures ParseRx(data) == ParseRx(g)
  {
    assert forall i :: 0 <= i < L4 + TCP_SIZE ==> data[i] == g[i];
  }

  lemma AckSegment(g: seq<u8>, key: FlowKey, n: u32)
    requires TcpFrameOf(g, key) && g[TCP_FLAGS] == ACK_FLAG && Piece(g, n)
    ensures ParseRx(g).Some? && ParseRx(g).value.key == key.(protocol := IPPROTO_TCP)
    ensures SegmentOf(ParseRx(g).value) == Segment(false, true, false, n, Get32(g, TCP_ACK), |g| - (L4 + TCP_SIZE))
  {
    PayloadFromFields(g, key);
  }

  /** How a received data segment moves a connection: the acknowledgement is the frame's, and the receive
      number is where the frame's payload ends. */
  ghost predicate Heard(c: Conn, d: Conn, g: seq<u8>, n: u32)
    requires |g| >= L4 + TCP_SIZE
  {
    d.recvAck == Get32(g, TCP_ACK) && d.recvSeq == if |g| > L4 + TCP_SIZE then End(n, g) else c.recvSeq
  }

  lemma SegmentHeard(c: Conn, g: seq<u8>, n: u32, now: u64)
    requires |g| >= L4 + TCP_SIZE
    ensures Heard(c, Receive(c, Segment(false, true, false, n, Get32(g, TCP_ACK), |g| - (L4 + TCP_SIZE)), now), g, n)
  {
  }

  /** A frame of a tracked flow that arrives at a generator with a flow on the same connection, in either
      direction, reaches that flow, and leaves its receive number at the sender's next number and its
      acknowledgement at the sender's. */
  lemma ReceiverTracksSender(f: Flow, d: Draw, room: nat, r: Sched, id: u32, data: seq<u8>, now: u64)
    requires Sane(f) && Tracked(f) && f.spec.key.protocol == IPPROTO_TCP && Attempt(f, d, room).Some?
    requires Agrees(r) && id in r.flows && SameConnection(r.flows[id].spec.key, f.spec.key)
    requires Stateful(r.flows[id].spec) && r.flows[id].conn.Some? && Attempt(f, d, room).value.frame <= data
    ensures |data| >= L4 + TCP_SIZE
    ensures var a, t := Attempt(f, d, room).value, Dispatch(r, data, now);
            && id in t.flows && t.flows[id].conn.Some? && a.flow.conn.Some?
            && var c, e := r.flows[id].conn.value, t.flows[id].conn.value;
               && e.recvAck == f.conn.value.sendAck
               && e.recvSeq == (if |a.frame| > L4 + TCP_SIZE then a.flow.conn.value.sendSeq else c.recvSeq)
  {
    var g := Attempt(f, d, room).value.frame;
    AttemptRight(f, d, room);
    AttemptNumbers(f, d, room);
    DeliveredTo(r, id, f.spec.key, g, data, f.conn.value.sendSeq, now);
  }

  lemma DeliveredTo(r: Sched, id: u32, key: FlowKey, g: seq<u8>, data: seq<u8>, n: u32, now: u64)
    requires TcpFrameOf(g, key) && key.protocol == IPPROTO_TCP && g[TCP_FLAGS] == ACK_FLAG && Piece(g, n) && g <= data
    requires Agrees(r) && id in r.flows && SameConnection(r.flows[id].spec.key, key)
    requires Stateful(r.flows[id].spec) && r.flows[id].conn.Some?
    ensures var t := Dispatch(r, data, now);
            id in t.flows && t.flows[id].conn.Some? && Heard(r.flows[id].conn.value, t.flows[id].conn.value, g, n)
  {
    ParsePrefix(g, data);
    AckSegment(g, key, n);
    LookupIsScan(r, key);
    assert id in Owners(r, key);
    SegmentHeard(r.flows[id].conn.value, g, n, now);
  }
}
