/** RFC 793: the connection state diagram (section 3.2, Figure 6) and the state changes of
    "SEGMENT ARRIVES" (section 3.9), as references for the dispatch of received segments. */
module Rfc793 {
  import opened Words
  import opened TcpStates

  datatype Trigger =
    | PassiveOpen | ActiveOpen | Send | Close | RcvSyn | RcvSynAck | RcvAckOfSyn | RcvAckOfFin | RcvFin | TwoMslTimeout

  /** The diagram's states: LISTEN besides the ten of the source. */
  datatype DiagramState = LISTEN | At(s: TcpState)

  /** Figure 6, edge by edge. */
  ghost predicate Edge(a: DiagramState, t: Trigger, b: DiagramState) {
    || (a == At(CLOSED) && t == PassiveOpen && b == LISTEN)
    || (a == At(CLOSED) && t == ActiveOpen && b == At(SYN_SENT))
    || (a == LISTEN && t == RcvSyn && b == At(SYN_RCVD))
    || (a == LISTEN && t == Send && b == At(SYN_SENT))
    || (a == LISTEN && t == Close && b == At(CLOSED))
    || (a == At(SYN_SENT) && t == Close && b == At(CLOSED))
    || (a == At(SYN_SENT) && t == RcvSyn && b == At(SYN_RCVD))
    || (a == At(SYN_SENT) && t == RcvSynAck && b == At(ESTABLISHED))
    || (a == At(SYN_RCVD) && t == RcvAckOfSyn && b == At(ESTABLISHED))
    || (a == At(SYN_RCVD) && t == Close && b == At(FIN_WAIT_1))
    || (a == At(ESTABLISHED) && t == Close && b == At(FIN_WAIT_1))
    || (a == At(ESTABLISHED) && t == RcvFin && b == At(CLOSE_WAIT))
    || (a == At(FIN_WAIT_1) && t == RcvAckOfFin && b == At(FIN_WAIT_2))
    || (a == At(FIN_WAIT_1) && t == RcvFin && b == At(CLOSING))
    || (a == At(FIN_WAIT_2) && t == RcvFin && b == At(TIME_WAIT))
    || (a == At(CLOSING) && t == RcvAckOfFin && b == At(TIME_WAIT))
    || (a == At(CLOSE_WAIT) && t == Close && b == At(LAST_ACK))
    || (a == At(LAST_ACK) && t == RcvAckOfFin && b == At(CLOSED))
    || (a == At(TIME_WAIT) && t == TwoMslTimeout && b == At(CLOSED))
  }

  ghost predicate Path(a: DiagramState, ts: seq<Trigger>, b: DiagramState)
    decreases |ts|
  {
    if ts == [] then a == b
    else exists m :: Edge(a, ts[0], m) && Path(m, ts[1..], b)
  }

  /** What an event stands for in the diagram. */
  ghost predicate Means(e: Event, t: Trigger) {
    match e
    case SEND_SYN => t == ActiveOpen
    case RECV_SYN => t == RcvSyn
    case RECV_SYN_ACK => t == RcvSynAck
    case SEND_FIN => t == Close
    case APP_CLOSE => t == Close
    case RECV_FIN => t == RcvFin
    case RECV_ACK => t == RcvAckOfSyn || t == RcvAckOfFin
    case TIMEOUT => t == TwoMslTimeout
  }

  /** A segment carries a trigger; every ACK is read as acknowledging our SYN or FIN. */
  ghost predicate Carries(g: Segment, t: Trigger) {
    match t
    case RcvSyn => g.syn && !g.ack
    case RcvSynAck => g.syn && g.ack
    case RcvAckOfSyn => g.ack
    case RcvAckOfFin => g.ack
    case RcvFin => g.fin
    case _ => false
  }

  /** Section 3.9 looks at the ACK bit before the FIN bit, and at each once. */
  ghost predicate InSegmentOrder(ts: seq<Trigger>) {
    |ts| <= 1 || (|ts| == 2 && ts[0] != RcvFin && ts[1] == RcvFin)
  }

  /** Every accepted event is an edge of Figure 6 with its own meaning. */
  lemma AcceptedEventIsAnEdge(s: TcpState, e: Event)
    requires Transition(s, e).Some?
    ensures exists t :: Means(e, t) && Edge(At(s), t, At(Transition(s, e).value))
  {
    var z := Transition(s, e).value;
    var t := match e
      case SEND_SYN => ActiveOpen
      case RECV_SYN => RcvSyn
      case RECV_SYN_ACK => RcvSynAck
      case SEND_FIN => Close
      case APP_CLOSE => Close
      case RECV_FIN => RcvFin
      case RECV_ACK => if s == SYN_RCVD then RcvAckOfSyn else RcvAckOfFin
      case TIMEOUT => TwoMslTimeout;
    assert Means(e, t) && Edge(At(s), t, At(z));
  }

  /** The edges of the diagram between the program's states that it does not take: closing a connection that is not
      established, and a bare SYN that crosses our own. */
  ghost predicate NotTaken(s: TcpState, t: Trigger) {
    (s in {SYN_SENT, SYN_RCVD} && t == Close) || (s == SYN_SENT && t == RcvSyn)
  }

  /** And every other edge of Figure 6 between the program's states is accepted as an event of its meaning: the table
      is the diagram, less those three. */
  lemma TableIsDiagram(s: TcpState, e: Event, z: TcpState)
    ensures Transition(s, e) == Some(z) <==> exists t :: Means(e, t) && Edge(At(s), t, At(z)) && !NotTaken(s, t)
  {
    if Transition(s, e) == Some(z) {
      AcceptedEventIsAnEdge(s, e);
    }
  }

  /** `ts` is a path of the diagram from s to z made of triggers the segment carries, in the order of
      section 3.9. */
  ghost predicate Explains(s: TcpState, g: Segment, ts: seq<Trigger>, z: TcpState) {
    && |ts| <= 2 && InSegmentOrder(ts)
    && (forall i :: 0 <= i < |ts| ==> Carries(g, ts[i]))
    && Path(At(s), ts, At(z))
  }

  /** Every received segment moves the connection along a path of at most two edges of Figure 6, all of
      them triggered by that segment's own flags, in the order of section 3.9. */
  lemma DispatchFollowsFigure6(c: Conn, g: Segment, now: u64)
    ensures exists ts :: Explains(c.state, g, ts, Receive(c, g, now).state)
  {
    ReceiveUnfolds(c, g, now);
    var s, z := c.state, Receive(c, g, now).state;
    var t := if s == SYN_SENT then RcvSynAck else if s == SYN_RCVD then RcvAckOfSyn else RcvAckOfFin;
    var m := if g.ack && !g.syn then Process(c, RECV_ACK, now).state else s;
    if s == z {
      assert Explains(s, g, [], z);
    } else if m == z || m == s {
      OneEdge(s, g, if m == z || (g.syn && g.ack) then t else RcvFin, z);
    } else {
      TwoEdges(s, g, t, m, z);
    }
  }

  lemma OneEdge(s: TcpState, g: Segment, t: Trigger, z: TcpState)
    requires Edge(At(s), t, At(z)) && Carries(g, t)
    ensures Explains(s, g, [t], z)
  {
    assert [t][1..] == [] && Path(At(z), [t][1..], At(z));
  }

  lemma TwoEdges(s: TcpState, g: Segment, t: Trigger, m: TcpState, z: TcpState)
    requires Edge(At(s), t, At(m)) && Edge(At(m), RcvFin, At(z)) && t != RcvFin
    requires Carries(g, t) && Carries(g, RcvFin)
    ensures Explains(s, g, [t, RcvFin], z)
  {
    OneEdge(m, g, RcvFin, z);
    assert [t, RcvFin][1..] == [RcvFin] && Path(At(m), [t, RcvFin][1..], At(z));
  }

  // ---------------------------------------------------------------- section 3.9

  /** The state after "SEGMENT ARRIVES" for an acceptable segment without RST: first the states that
      are not synchronized, then the SYN, ACK and FIN checks in that order. Every ACK acknowledges
      our SYN or FIN. */
  function SegmentArrives(s: TcpState, g: Segment): TcpState {
    if s == CLOSED then CLOSED
    else if s == SYN_SENT then
      if !g.syn then SYN_SENT
      else if !g.ack then SYN_RCVD
      else FinCheck(ESTABLISHED, g)
    else if g.syn then CLOSED
    else if !g.ack then s
    else FinCheck(AckCheck(s), g)
  }

  function AckCheck(s: TcpState): TcpState {
    match s
    case SYN_RCVD => ESTABLISHED
    case FIN_WAIT_1 => FIN_WAIT_2
    case CLOSING => TIME_WAIT
    case LAST_ACK => CLOSED
    case _ => s
  }

  function FinCheck(s: TcpState, g: Segment): TcpState {
    if !g.fin then s
    else match s
      case ESTABLISHED => CLOSE_WAIT
      case FIN_WAIT_1 => CLOSING
      case FIN_WAIT_2 => TIME_WAIT
      case _ => s
  }

  /** The segments on which the dispatch and section 3.9 agree: a bare SYN or a FIN riding on the
      SYN,ACK of the handshake is not followed, a SYN on a synchronized connection does not reset
      it, and a FIN counts even without the ACK bit. */
  predicate FollowsStandard(s: TcpState, g: Segment) {
    if s == CLOSED then true
    else if s == SYN_SENT then !g.syn || (g.ack && !g.fin)
    else !g.syn && (g.ack || !g.fin || s !in {ESTABLISHED, FIN_WAIT_1, FIN_WAIT_2})
  }

  lemma DispatchMatchesSegmentArrives(c: Conn, g: Segment, now: u64)
    ensures Receive(c, g, now).state == SegmentArrives(c.state, g) <==> FollowsStandard(c.state, g)
  {
    ReceiveUnfolds(c, g, now);
  }

  /** Simultaneous acknowledgement and close: FIN,ACK in FIN_WAIT_1 ends in TIME_WAIT, not in CLOSING. */
  lemma FinAckInFinWait1(c: Conn, g: Segment, now: u64)
    requires c.state == FIN_WAIT_1 && g.fin && g.ack && !g.syn
    ensures Receive(c, g, now).state == TIME_WAIT == SegmentArrives(FIN_WAIT_1, g)
  {
    ReceiveUnfolds(c, g, now);
  }
}
