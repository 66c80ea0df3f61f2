/** Received frames, from their bytes to the connection they move. Bytes, bits and fields are read here as section 3.1
    of RFC 791 and section 3.1 of RFC 793 lay them out, as a reference for the receive parser and the dispatch. */
module Receptions {
  import opened Words
  import opened TcpStates
  import opened Rfc793
  import opened FlowKeys
  import opened FlowIndexes
  import opened Packets
  import opened WireFormats
  import opened FlowSchedulers
  import opened Workers

  // ---------------------------------------------------------------- reading the bytes

  /** Bit `n` of a number, from the least significant. */
  predicate Bit(v: nat, n: nat)
    decreases n
  {
    if n == 0 then v % 2 == 1 else Bit(v / 2, n - 1)
  }

  /** The control bits of byte 47: FIN is bit 0, SYN bit 1, ACK bit 4. */
  predicate Fin(data: seq<u8>)
    requires |data| >= 54
  {
    Bit(data[47], 0)
  }

  predicate Syn(data: seq<u8>)
    requires |data| >= 54
  {
    Bit(data[47], 1)
  }

  predicate Ack(data: seq<u8>)
    requires |data| >= 54
  {
    Bit(data[47], 4)
  }

  /** IPv4 in the high half of byte 14 and TCP in byte 23. */
  predicate IsTcp(data: seq<u8>)
    requires |data| >= 54
  {
    data[14] / 16 == 4 && data[23] == 6
  }

  /** The connection a frame is of, as its sender names it. */
  ghost predicate From(data: seq<u8>, k: FlowKey) {
    Address(data, 26, k.srcIp) && Address(data, 30, k.dstIp) && Ports(data, k) && k.protocol == 6
  }

  /** The same connection named from its other end. */
  function OtherEnd(k: FlowKey): FlowKey {
    k.(srcIp := k.dstIp, dstIp := k.srcIp, srcPort := k.dstPort, dstPort := k.srcPort)
  }

  /** Payload bytes: the datagram's length less both headers, kept in 16 bits, and none below zero. */
  ghost predicate PayloadIs(data: seq<u8>, n: nat)
    requires |data| >= 54
  {
    exists total: u16 :: Field16(data, 16, total)
      && var segment, header := (total - 20) % 0x1_0000, data[46] / 16 * 4;
         n == if segment > header then segment - header else 0
  }

  // ---------------------------------------------------------------- the parser

  lemma BitsOf(v: u8)
    ensures Bit(v, 0) <==> v % 2 == 1
    ensures Bit(v, 1) <==> v / 2 % 2 == 1
    ensures Bit(v, 4) <==> v / 16 % 2 == 1
  {
    FourHalves(v);
    assert Bit(v, 1) == Bit(v / 2, 0);
    assert Bit(v, 4) == Bit(v / 2, 3) == Bit(v / 2 / 2, 2) == Bit(v / 2 / 2 / 2, 1) == Bit(v / 2 / 2 / 2 / 2, 0);
  }

  lemma FourHalves(v: nat)
    ensures v / 2 / 2 / 2 / 2 == v / 16
  {
  }

  /** The parser answers for TCP over IPv4 and for nothing else, with the frame's own fields. */
  lemma ParsedFrame(data: seq<u8>)
    requires |data| >= 54
    ensures ParseRx(data).Some? <==> IsTcp(data)
    ensures IsTcp(data) ==>
              var r := ParseRx(data).value;
              && From(data, r.key) && Field32(data, 38, r.seqNum) && Field32(data, 42, r.ackNum)
              && PayloadIs(data, r.payload)
              && SegmentOf(r) == Segment(Syn(data), Ack(data), Fin(data), r.seqNum, r.ackNum, r.payload)
  {
    BitsOf(data[47]);
    if IsTcp(data) {
      assert Field16(data, 16, Get16(data, TOTAL_LENGTH));
    }
  }

  lemma FromIsUnique(data: seq<u8>, j: FlowKey, k: FlowKey)
    requires From(data, j) && From(data, k)
    ensures j == k
  {
  }

  // ---------------------------------------------------------------- the connection

  /** The state after a segment with these bits: a SYN,ACK answers our SYN; otherwise the ACK is looked at first, and
      the FIN after it. */
  function StateAfter(s: TcpState, syn: bool, ack: bool, fin: bool): TcpState {
    if syn && ack then (if s == SYN_SENT then ESTABLISHED else s)
    else
      var m := if !ack then s
               else if s == SYN_RCVD then ESTABLISHED else if s == FIN_WAIT_1 then FIN_WAIT_2
               else if s == CLOSING then TIME_WAIT else if s == LAST_ACK then CLOSED else s;
      if !fin then m
      else if m == ESTABLISHED then CLOSE_WAIT else if m == FIN_WAIT_1 then CLOSING
      else if m == FIN_WAIT_2 then TIME_WAIT else m
  }

  /** How a frame moves the connection of its flow. */
  ghost predicate Moved(c: Conn, d: Conn, data: seq<u8>, now: u64)
    requires |data| >= 54
  {
    && d.state == StateAfter(c.state, Syn(data), Ack(data), Fin(data))
    && ((c.active <==> c.state != CLOSED) ==> (d.active <==> d.state != CLOSED))
    && d.sendSeq == c.sendSeq && d.sendAck == c.sendAck
    && (if Ack(data) then Field32(data, 42, d.recvAck) else d.recvAck == c.recvAck)
    && (exists n: nat, first: u32 :: PayloadIs(data, n) && Field32(data, 38, first)
          && d.recvSeq == if n > 0 then (first + n) % 0x1_0000_0000
                          else if Fin(data) || (Syn(data) && Ack(data)) then first else c.recvSeq)
    && d.lastActivity == if Ack(data) || Fin(data) then now else c.lastActivity
  }

  lemma ReceiveState(c: Conn, g: Segment, now: u64)
    ensures Receive(c, g, now).state == StateAfter(c.state, g.syn, g.ack, g.fin)
  {
    ReceiveUnfolds(c, g, now);
  }

  lemma ReceiveActivity(c: Conn, g: Segment, now: u64)
    ensures var d := Receive(c, g, now);
            && ((c.active <==> c.state != CLOSED) ==> (d.active <==> d.state != CLOSED))
            && d.sendSeq == c.sendSeq && d.sendAck == c.sendAck
            && d.lastActivity == if g.ack || g.fin then now else c.lastActivity
  {
    ReceiveUnfolds(c, g, now);
  }

  lemma ReceiveMoves(c: Conn, data: seq<u8>, r: RxTcp, g: Segment, now: u64)
    requires |data| >= 54 && Field32(data, 38, r.seqNum) && Field32(data, 42, r.ackNum) && PayloadIs(data, r.payload)
    requires g == Segment(Syn(data), Ack(data), Fin(data), r.seqNum, r.ackNum, r.payload)
    ensures Moved(c, Receive(c, g, now), data, now)
  {
    ReceiveState(c, g, now);
    ReceiveActivity(c, g, now);
  }

  /** The flow has a connection that received frames move. */
  predicate Listening(f: Flow) {
    f.spec.protocol == "tcp" && !f.spec.stateless && f.conn.Some?
  }

  /** What the dispatch of a frame does to the entry of a flow the lookup finds. */
  ghost predicate Delivered(f: Flow, g: Flow, data: seq<u8>, now: u64)
    requires |data| >= 54
  {
    if Listening(f) then
      g == f.(conn := g.conn) && g.conn.Some? && Moved(f.conn.value, g.conn.value, data, now)
    else g == f
  }

  /** Dispatch over bytes, for every frame: what is not TCP over IPv4 changes nothing; any other frame moves, as
      its bits and fields say, the connection of the flow its key resolves to, and leaves everything else
      alone. */
  lemma FrameDispatched(s: Sched, data: seq<u8>, now: u64)
    requires |data| >= 54
    ensures var t := Dispatch(s, data, now);
            && t.index == s.index && t.flows.Keys == s.flows.Keys
            && (!IsTcp(data) ==> t == s)
            && (IsTcp(data) ==>
                  exists k :: From(data, k)
                    && forall id :: id in s.flows ==>
                         if Lookup(s, k) == Some(id) then Delivered(s.flows[id], t.flows[id], data, now)
                         else t.flows[id] == s.flows[id])
  {
    ParsedFrame(data);
    if IsTcp(data) {
      var r := ParseRx(data).value;
      var found := Lookup(s, r.key);
      if found.Some? && s.flows[found.value].conn.Some? {
        ReceiveMoves(s.flows[found.value].conn.value, data, r, SegmentOf(r), now);
      }
      assert From(data, r.key);
    }
  }

  lemma OtherEndIsReverse(k: FlowKey)
    ensures Reverse(k) == OtherEnd(k)
  {
  }

  /** Where lookup and scan agree, a frame of a flow's connection, sent by either end, is delivered to that flow. */
  lemma DeliveredToOwner(s: Sched, id: u32, data: seq<u8>, now: u64)
    requires |data| >= 54 && IsTcp(data) && Agrees(s) && id in s.flows
    requires From(data, s.flows[id].spec.key) || From(data, OtherEnd(s.flows[id].spec.key))
    ensures id in Dispatch(s, data, now).flows && Delivered(s.flows[id], Dispatch(s, data, now).flows[id], data, now)
    ensures forall j :: j in s.flows && j != id ==> Dispatch(s, data, now).flows[j] == s.flows[j]
  {
    FrameDispatched(s, data, now);
    var t := Dispatch(s, data, now);
    var key := s.flows[id].spec.key;
    var k :| From(data, k)
             && forall j :: j in s.flows ==>
                  if Lookup(s, k) == Some(j) then Delivered(s.flows[j], t.flows[j], data, now)
                  else t.flows[j] == s.flows[j];
    OtherEndIsReverse(key);
    FromIsUnique(data, k, if From(data, key) then key else OtherEnd(key));
    LookupIsScan(s, k);
    assert id in Owners(s, k);
  }

  /** Where lookup and scan agree, a frame of no flow's connection changes nothing. */
  lemma StrangersChangeNothing(s: Sched, data: seq<u8>, now: u64)
    requires |data| >= 54 && Agrees(s)
    requires forall id :: id in s.flows ==>
               !From(data, s.flows[id].spec.key) && !From(data, OtherEnd(s.flows[id].spec.key))
    ensures Dispatch(s, data, now) == s
  {
    ParsedFrame(data);
    if IsTcp(data) {
      var k := ParseRx(data).value.key;
      LookupIsScan(s, k);
      forall id | id in s.flows ensures id !in Owners(s, k) {
        OtherEndIsReverse(s.flows[id].spec.key);
        OtherEndIsReverse(k);
      }
    }
  }

  // ---------------------------------------------------------------- against RFC 793

  /** The bits of a frame as a segment of the diagram. */
  function Bits(data: seq<u8>): Segment
    requires |data| >= 54
  {
    Segment(Syn(data), Ack(data), Fin(data), 0, 0, 0)
  }

  /** For all 256 values of the flag byte: a moved connection has followed at most two edges of Figure 6 that the
      frame's own bits carry, and stands where section 3.9 puts it if and only if the stated condition on state
      and bits holds. */
  lemma MovedFollowsRfc793(c: Conn, d: Conn, data: seq<u8>, now: u64)
    requires |data| >= 54 && Moved(c, d, data, now)
    ensures exists ts :: Explains(c.state, Bits(data), ts, d.state)
    ensures d.state == SegmentArrives(c.state, Bits(data)) <==> FollowsStandard(c.state, Bits(data))
  {
    ReceiveState(c, Bits(data), now);
    DispatchFollowsFigure6(c, Bits(data), now);
    DispatchMatchesSegmentArrives(c, Bits(data), now);
  }

  /** The flag bytes of a handshake and a close. */
  lemma FlagBytes(c: Conn, d: Conn, data: seq<u8>, now: u64)
    requires |data| >= 54 && Moved(c, d, data, now)
    ensures data[47] == 0x12 && c.state == SYN_SENT ==> d.state == ESTABLISHED
    ensures data[47] in {0x01, 0x11} && c.state == ESTABLISHED ==> d.state == CLOSE_WAIT
    ensures data[47] == 0x11 && c.state == FIN_WAIT_1 ==> d.state == TIME_WAIT
    ensures data[47] == 0x10 && c.state == LAST_ACK ==> d.state == CLOSED
    ensures data[47] in {0x00, 0x02, 0x04, 0x08} && PayloadIs(data, 0) ==>
              d.state == c.state && d.recvSeq == c.recvSeq && d.recvAck == c.recvAck && d.lastActivity == c.lastActivity
  {
    BitsOf(data[47]);
  }
}
