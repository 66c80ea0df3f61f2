/** The connection state machine of stateful TCP flows, its history over every event sequence, and
    the dispatch of received segments, compared with Figure 6 (section 3.2) of RFC 793. */
module TcpStates {
  import opened Words

  datatype TcpState =
    | CLOSED | SYN_SENT | SYN_RCVD | ESTABLISHED | FIN_WAIT_1 | FIN_WAIT_2
    | CLOSE_WAIT | CLOSING | LAST_ACK | TIME_WAIT

  datatype Event = SEND_SYN | RECV_SYN | RECV_SYN_ACK | SEND_FIN | RECV_FIN | RECV_ACK | APP_CLOSE | TIMEOUT

  predicate LocalClose(e: Event) {
    e == APP_CLOSE || e == SEND_FIN
  }

  /** The transition table: the state an accepted event leads to. */
  function Transition(s: TcpState, e: Event): Option<TcpState> {
    match s
    case CLOSED => if e == SEND_SYN then Some(SYN_SENT) else None
    case SYN_SENT => if e == RECV_SYN_ACK then Some(ESTABLISHED) else None
    case SYN_RCVD => if e == RECV_ACK then Some(ESTABLISHED) else None
    case ESTABLISHED =>
      if LocalClose(e) then Some(FIN_WAIT_1) else if e == RECV_FIN then Some(CLOSE_WAIT) else None
    case FIN_WAIT_1 =>
      if e == RECV_ACK then Some(FIN_WAIT_2) else if e == RECV_FIN then Some(CLOSING) else None
    case FIN_WAIT_2 => if e == RECV_FIN then Some(TIME_WAIT) else None
    case CLOSE_WAIT => if LocalClose(e) then Some(LAST_ACK) else None
    case CLOSING => if e == RECV_ACK then Some(TIME_WAIT) else None
    case LAST_ACK => if e == RECV_ACK then Some(CLOSED) else None
    case TIME_WAIT => if e == TIMEOUT then Some(CLOSED) else None
  }

  /** The connection record (its 5-tuple copy and the unused windows are not modelled). */
  datatype Conn = Conn(state: TcpState, active: bool,
                       sendSeq: u32, sendAck: u32, recvSeq: u32, recvAck: u32, lastActivity: u64)

  const NEW_CONN := Conn(CLOSED, false, 0, 0, 0, 0, 0)

  /** One `process_event`: `active` rises with SEND_SYN and falls on the way back to CLOSED. */
  function Process(c: Conn, e: Event, now: u64): Conn {
    match Transition(c.state, e)
    case None => c.(lastActivity := now)
    case Some(s) =>
      c.(lastActivity := now, state := s,
         active := if s == CLOSED then false else if c.state == CLOSED then true else c.active)
  }

  // ---------------------------------------------------------------- histories

  /** A connection with what it has accepted so far: the completed lifecycles, and the current one. */
  datatype History = History(conn: Conn, completed: seq<seq<Event>>, current: seq<Event>)

  const NEW_HISTORY := History(NEW_CONN, [], [])

  function Advance(h: History, e: Event): History {
    var c := Process(h.conn, e, h.conn.lastActivity);
    match Transition(h.conn.state, e)
    case None => h.(conn := c)
    case Some(s) =>
      if s == CLOSED then History(c, h.completed + [h.current + [e]], [])
      else History(c, h.completed, h.current + [e])
  }

  function Replay(h: History, es: seq<Event>): History
    decreases |es|
  {
    if es == [] then h else Replay(Advance(h, es[0]), es[1..])
  }

  /** The three shapes of a lifecycle: our side closes first and is acknowledged first, both close
      at once, or the peer closes first. */
  ghost predicate ActiveClose(l: seq<Event>) {
    |l| == 6 && l[..2] == [SEND_SYN, RECV_SYN_ACK] && LocalClose(l[2]) && l[3..] == [RECV_ACK, RECV_FIN, TIMEOUT]
  }

  ghost predicate SimultaneousClose(l: seq<Event>) {
    |l| == 6 && l[..2] == [SEND_SYN, RECV_SYN_ACK] && LocalClose(l[2]) && l[3..] == [RECV_FIN, RECV_ACK, TIMEOUT]
  }

  ghost predicate PassiveClose(l: seq<Event>) {
    |l| == 5 && l[..3] == [SEND_SYN, RECV_SYN_ACK, RECV_FIN] && LocalClose(l[3]) && l[4] == RECV_ACK
  }

  ghost predicate Lifecycle(l: seq<Event>) {
    ActiveClose(l) || SimultaneousClose(l) || PassiveClose(l)
  }

  /** What has been accepted since CLOSED, for each state. */
  ghost predicate Reached(s: TcpState, l: seq<Event>) {
    match s
    case CLOSED => l == []
    case SYN_SENT => l == [SEND_SYN]
    case SYN_RCVD => false
    case ESTABLISHED => l == [SEND_SYN, RECV_SYN_ACK]
    case FIN_WAIT_1 => |l| == 3 && l[..2] == [SEND_SYN, RECV_SYN_ACK] && LocalClose(l[2])
    case FIN_WAIT_2 => |l| == 4 && l[..2] == [SEND_SYN, RECV_SYN_ACK] && LocalClose(l[2]) && l[3] == RECV_ACK
    case CLOSING => |l| == 4 && l[..2] == [SEND_SYN, RECV_SYN_ACK] && LocalClose(l[2]) && l[3] == RECV_FIN
    case CLOSE_WAIT => l == [SEND_SYN, RECV_SYN_ACK, RECV_FIN]
    case LAST_ACK => |l| == 4 && l[..3] == [SEND_SYN, RECV_SYN_ACK, RECV_FIN] && LocalClose(l[3])
    case TIME_WAIT =>
      |l| == 5 && l[..2] == [SEND_SYN, RECV_SYN_ACK] && LocalClose(l[2])
      && (l[3..] == [RECV_ACK, RECV_FIN] || l[3..] == [RECV_FIN, RECV_ACK])
  }

  ghost predicate HistoryInv(h: History) {
    && (h.conn.active <==> h.conn.state != CLOSED)
    && h.conn.state != SYN_RCVD
    && Reached(h.conn.state, h.current)
    && forall i :: 0 <= i < |h.completed| ==> Lifecycle(h.completed[i])
  }

  lemma AdvanceKeepsInv(h: History, e: Event)
    requires HistoryInv(h)
    ensures HistoryInv(Advance(h, e))
  {
    var l := h.current + [e];
    assert |h.current| >= 2 ==> l[..2] == h.current[..2];
    assert |h.current| >= 3 ==> l[..3] == h.current[..3] && l[2] == h.current[2];
    if h.conn.state == TIME_WAIT {
      assert l[3..] == h.current[3..] + [e];
    } else if h.conn.state == FIN_WAIT_2 || h.conn.state == CLOSING {
      assert l[3..] == [h.current[3], e];
    }
  }

  /** From a fresh connection and over every event sequence: `active` holds exactly outside CLOSED,
      SYN_RCVD is never reached, every completed lifecycle has one of the three shapes, and the
      accepted events of the current one are those of a path to the current state. */
  lemma {:induction false} HistoryInvariant(h: History, es: seq<Event>)
    requires HistoryInv(h)
    ensures HistoryInv(Replay(h, es))
    decreases |es|
  {
    if es != [] {
      AdvanceKeepsInv(h, es[0]);
      HistoryInvariant(Advance(h, es[0]), es[1..]);
    }
  }

  function Count(l: seq<Event>, p: Event -> bool): nat {
    if l == [] then 0 else (if p(l[0]) then 1 else 0) + Count(l[1..], p)
  }

  lemma {:induction false} CountAppend(l: seq<Event>, m: seq<Event>, p: Event -> bool)
    ensures Count(l + m, p) == Count(l, p) + Count(m, p)
  {
    if l == [] {
      assert l + m == m;
    } else {
      AppendParts(l, m);
      CountAppend(l[1..], m, p);
    }
  }

  function Is(e: Event): Event -> bool {
    x => x == e
  }

  function IsLocalClose(): Event -> bool {
    x => LocalClose(x)
  }

  /** Every lifecycle accepts exactly one SEND_SYN, one RECV_SYN_ACK, one local close, one RECV_FIN and
      one RECV_ACK, and one TIMEOUT unless it ended through LAST_ACK. */
  lemma LifecycleCounts(l: seq<Event>)
    requires Lifecycle(l)
    ensures Count(l, Is(SEND_SYN)) == Count(l, Is(RECV_SYN_ACK)) == 1
    ensures Count(l, Is(RECV_FIN)) == Count(l, Is(RECV_ACK)) == 1
    ensures Count(l, IsLocalClose()) == 1
    ensures Count(l, Is(TIMEOUT)) == (if PassiveClose(l) then 0 else 1)
    ensures Count(l, Is(RECV_SYN)) == 0
  {
    LifecycleElements(l);
    CountUnrolled(l, Is(SEND_SYN));
    CountUnrolled(l, Is(RECV_SYN_ACK));
    CountUnrolled(l, Is(RECV_FIN));
    CountUnrolled(l, Is(RECV_ACK));
    CountUnrolled(l, IsLocalClose());
    CountUnrolled(l, Is(TIMEOUT));
    CountUnrolled(l, Is(RECV_SYN));
  }

  lemma LifecycleElements(l: seq<Event>)
    requires Lifecycle(l)
    ensures |l| >= 5 && l[0] == SEND_SYN && l[1] == RECV_SYN_ACK
    ensures PassiveClose(l) ==> |l| == 5 && l[2] == RECV_FIN && LocalClose(l[3]) && l[4] == RECV_ACK
    ensures !PassiveClose(l) ==> |l| == 6 && LocalClose(l[2]) && l[5] == TIMEOUT
    ensures ActiveClose(l) ==> l[3] == RECV_ACK && l[4] == RECV_FIN
    ensures SimultaneousClose(l) ==> l[3] == RECV_FIN && l[4] == RECV_ACK
  {
    assert l[0] == l[..2][0] && l[1] == l[..2][1];
    if PassiveClose(l) {
      assert l[0] == l[..3][0] && l[1] == l[..3][1] && l[2] == l[..3][2];
    } else {
      assert l[3] == l[3..][0] && l[4] == l[3..][1] && l[5] == l[3..][2];
    }
  }

  function Indicator(p: Event -> bool, e: Event): nat {
    if p(e) then 1 else 0
  }

  lemma CountUnrolled(l: seq<Event>, p: Event -> bool)
    requires |l| == 5 || |l| == 6
    ensures Count(l, p) == Indicator(p, l[0]) + Indicator(p, l[1]) + Indicator(p, l[2]) + Indicator(p, l[3])
                           + Indicator(p, l[4]) + (if |l| == 6 then Indicator(p, l[5]) else 0)
  {
    var a, b := l[..2], l[2..];
    assert l == [l[0]] + [l[1]] + [l[2]] + [l[3]] + [l[4]] + l[5..];
    CountAppend([l[0]] + [l[1]] + [l[2]] + [l[3]] + [l[4]], l[5..], p);
    CountAppend([l[0]] + [l[1]] + [l[2]] + [l[3]], [l[4]], p);
    CountAppend([l[0]] + [l[1]] + [l[2]], [l[3]], p);
    CountAppend([l[0]] + [l[1]], [l[2]], p);
    CountAppend([l[0]], [l[1]], p);
  }

  // ---------------------------------------------------------------- lifecycles that happen

  lemma ReplayCons(h: History, e: Event, es: seq<Event>)
    ensures Replay(h, [e] + es) == Replay(Advance(h, e), es)
  {
    assert ([e] + es)[1..] == es;
  }

  /** The handshake from a fresh connection. */
  lemma HandshakeHappens(es: seq<Event>)
    ensures var c := NEW_CONN.(state := ESTABLISHED, active := true);
            Replay(NEW_HISTORY, [SEND_SYN] + ([RECV_SYN_ACK] + es))
            == Replay(History(c, [], [SEND_SYN, RECV_SYN_ACK]), es)
  {
    ReplayCons(NEW_HISTORY, SEND_SYN, [RECV_SYN_ACK] + es);
    ReplayCons(Advance(NEW_HISTORY, SEND_SYN), RECV_SYN_ACK, es);
    assert [] + [SEND_SYN] == [SEND_SYN] && [SEND_SYN] + [RECV_SYN_ACK] == [SEND_SYN, RECV_SYN_ACK];
  }

  lemma ThreeMore(h: History, a: Event, b: Event, c: Event)
    ensures Replay(h, [a] + ([b] + [c])) == Advance(Advance(Advance(h, a), b), c)
  {
    ReplayCons(h, a, [b] + [c]);
    ReplayCons(Advance(h, a), b, [c]);
    ReplayCons(Advance(Advance(h, a), b), c, []);
    assert [c] + [] == [c];
  }

  lemma PassiveHappens(l: seq<Event>)
    requires PassiveClose(l)
    ensures Replay(NEW_HISTORY, l) == History(NEW_CONN, [l], [])
  {
    LifecycleElements(l);
    var h := History(NEW_CONN.(state := ESTABLISHED, active := true), [], [SEND_SYN, RECV_SYN_ACK]);
    assert l == [SEND_SYN] + ([RECV_SYN_ACK] + ([l[2]] + ([l[3]] + [l[4]])));
    HandshakeHappens([l[2]] + ([l[3]] + [l[4]]));
    ThreeMore(h, l[2], l[3], l[4]);
    assert h.current + [l[2]] + [l[3]] + [l[4]] == l;
  }

  /** From FIN_WAIT_1, reached with `l`, the two ways home. */
  lemma OwnCloseHappens(l: seq<Event>)
    ensures var h := History(NEW_CONN.(state := FIN_WAIT_1, active := true), [], l);
            && Replay(h, [RECV_ACK] + ([RECV_FIN] + [TIMEOUT]))
               == History(NEW_CONN, [l + [RECV_ACK] + [RECV_FIN] + [TIMEOUT]], [])
            && Replay(h, [RECV_FIN] + ([RECV_ACK] + [TIMEOUT]))
               == History(NEW_CONN, [l + [RECV_FIN] + [RECV_ACK] + [TIMEOUT]], [])
  {
    var h := History(NEW_CONN.(state := FIN_WAIT_1, active := true), [], l);
    ThreeMore(h, RECV_ACK, RECV_FIN, TIMEOUT);
    ThreeMore(h, RECV_FIN, RECV_ACK, TIMEOUT);
  }

  lemma SixParts(l: seq<Event>)
    requires |l| == 6
    ensures l == [l[0]] + ([l[1]] + ([l[2]] + ([l[3]] + ([l[4]] + [l[5]]))))
    ensures l == [l[0], l[1]] + [l[2]] + [l[3]] + [l[4]] + [l[5]]
  {
  }

  lemma CloseHappens(c: Event, rest: seq<Event>)
    requires LocalClose(c)
    ensures Replay(NEW_HISTORY, [SEND_SYN] + ([RECV_SYN_ACK] + ([c] + rest)))
            == Replay(History(NEW_CONN.(state := FIN_WAIT_1, active := true), [], [SEND_SYN, RECV_SYN_ACK] + [c]), rest)
  {
    HandshakeHappens([c] + rest);
    ReplayCons(History(NEW_CONN.(state := ESTABLISHED, active := true), [], [SEND_SYN, RECV_SYN_ACK]), c, rest);
  }

  lemma ActiveHappens(l: seq<Event>)
    requires ActiveClose(l) || SimultaneousClose(l)
    ensures Replay(NEW_HISTORY, l) == History(NEW_CONN, [l], [])
  {
    LifecycleElements(l);
    SixParts(l);
    CloseHappens(l[2], [l[3]] + ([l[4]] + [l[5]]));
    OwnCloseHappens([SEND_SYN, RECV_SYN_ACK] + [l[2]]);
  }

  /** Every lifecycle really happens: offered to a fresh connection, its events are all accepted, and it is closed again
      with just that lifecycle behind it. */
  lemma LifecyclesHappen(l: seq<Event>)
    requires Lifecycle(l)
    ensures Replay(NEW_HISTORY, l) == History(NEW_CONN, [l], [])
  {
    if PassiveClose(l) {
      PassiveHappens(l);
    } else {
      ActiveHappens(l);
    }
  }

  /** Every event, accepted or not, is the connection's last activity. */
  lemma {:induction false} ActivityIsLastEvent(c: Conn, es: seq<Event>, now: u64)
    ensures ProcessAll(c, es, now).lastActivity == if es == [] then c.lastActivity else now
    decreases |es|
  {
    if es != [] {
      ActivityIsLastEvent(Process(c, es[0], now), es[1..], now);
    }
  }

  // ---------------------------------------------------------------- accepted events

  /** The events of a run that caused a transition, read off the connection alone. */
  function Accepted(c: Conn, es: seq<Event>): seq<Event>
    decreases |es|
  {
    if es == [] then []
    else
      (if Transition(c.state, es[0]).Some? then [es[0]] else [])
      + Accepted(Process(c, es[0], c.lastActivity), es[1..])
  }

  function Flatten(ls: seq<seq<Event>>): seq<Event> {
    if ls == [] then [] else Flatten(ls[..|ls| - 1]) + ls[|ls| - 1]
  }

  /** The lifecycles partition the accepted events, in order. */
  lemma {:induction false} LifecyclesPartitionAccepted(h: History, es: seq<Event>)
    ensures var z := Replay(h, es);
            Flatten(z.completed) + z.current == Flatten(h.completed) + h.current + Accepted(h.conn, es)
    decreases |es|
  {
    if es != [] {
      var e := es[0];
      var a := Advance(h, e);
      LifecyclesPartitionAccepted(a, es[1..]);
      var step := if Transition(h.conn.state, e).Some? then [e] else [];
      if a.completed != h.completed {
        assert a.completed[..|a.completed| - 1] == h.completed;
      }
      assert Flatten(a.completed) + a.current == Flatten(h.completed) + h.current + step;
      assert Accepted(h.conn, es) == step + Accepted(a.conn, es[1..]);
    }
  }

  lemma {:induction false} CompletedCounts(ls: seq<seq<Event>>)
    requires forall i :: 0 <= i < |ls| ==> Lifecycle(ls[i])
    ensures Count(Flatten(ls), Is(SEND_SYN)) == |ls|
    ensures |Flatten(ls)| <= 6 * |ls|
  {
    if ls != [] {
      var front, l := ls[..|ls| - 1], ls[|ls| - 1];
      CompletedCounts(front);
      CountAppend(Flatten(front), l, Is(SEND_SYN));
      LifecycleCounts(l);
      LifecycleElements(l);
    }
  }

  lemma CurrentCounts(s: TcpState, l: seq<Event>)
    requires Reached(s, l)
    ensures |l| <= 5
    ensures Count(l, Is(SEND_SYN)) == if s == CLOSED then 0 else 1
  {
    if s != CLOSED {
      assert l[0] == SEND_SYN by {
        assert |l| >= 2 ==> l[..2][0] == l[0];
        assert |l| >= 3 ==> l[..3][0] == l[0];
      }
      ReachedElements(s, l);
      NoLaterSyn(l[1..]);
    }
  }

  lemma ReachedElements(s: TcpState, l: seq<Event>)
    requires Reached(s, l) && s != CLOSED
    ensures forall i :: 1 <= i < |l| ==> l[i] != SEND_SYN
  {
    forall i | 1 <= i < |l| ensures l[i] != SEND_SYN {
      assert i < 2 && |l| >= 2 ==> l[..2][i] == l[i];
      assert i < 3 && |l| >= 3 ==> l[..3][i] == l[i];
      assert i >= 3 ==> l[3..][i - 3] == l[i];
    }
  }

  lemma {:induction false} NoLaterSyn(l: seq<Event>)
    requires forall i :: 0 <= i < |l| ==> l[i] != SEND_SYN
    ensures Count(l, Is(SEND_SYN)) == 0
  {
    if l != [] {
      NoLaterSyn(l[1..]);
    }
  }

  /** Over every event sequence a fresh connection accepts at most six events per SEND_SYN accepted. */
  lemma AtMostSixPerSyn(es: seq<Event>)
    ensures |Accepted(NEW_CONN, es)| <= 6 * Count(Accepted(NEW_CONN, es), Is(SEND_SYN))
  {
    HistoryInvariant(NEW_HISTORY, es);
    LifecyclesPartitionAccepted(NEW_HISTORY, es);
    var z := Replay(NEW_HISTORY, es);
    assert Flatten([]) == [];
    assert Accepted(NEW_CONN, es) == Flatten(z.completed) + z.current;
    CompletedCounts(z.completed);
    CurrentCounts(z.conn.state, z.current);
    CountAppend(Flatten(z.completed), z.current, Is(SEND_SYN));
  }

  // ---------------------------------------------------------------- received segments

  datatype Segment = Segment(syn: bool, ack: bool, fin: bool, seqNum: u32, ackNum: u32, payload: nat)

  /** The events `handle_tcp_rx` raises for a segment, in order. */
  function EventsOf(g: Segment): seq<Event> {
    if g.syn && g.ack then [RECV_SYN_ACK]
    else (if g.ack then [RECV_ACK] else []) + (if g.fin then [RECV_FIN] else [])
  }

  function ProcessAll(c: Conn, es: seq<Event>, now: u64): Conn
    decreases |es|
  {
    if es == [] then c else ProcessAll(Process(c, es[0], now), es[1..], now)
  }

  /** The whole effect of a received segment on the connection of the flow it resolves to. */
  function Receive(c: Conn, g: Segment, now: u64): Conn {
    var d := ProcessAll(c, EventsOf(g), now);
    d.(recvAck := if g.ack then g.ackNum else c.recvAck,
       recvSeq := if g.payload > 0 then (g.seqNum + g.payload) % TWO_32
                  else if (g.syn && g.ack) || g.fin then g.seqNum else c.recvSeq)
  }

  // ---------------------------------------------------------------- the class

  /** The connection record updated in place by the state machine. */
  class TcpConnection {
    var state: TcpState
    var active: bool
    var sendSeq: u32
    var sendAck: u32
    var recvSeq: u32
    var recvAck: u32
    var lastActivity: u64
    ghost const flow: nat  // the flow this connection was made for

    ghost function View(): Conn
      reads this
    {
      Conn(state, active, sendSeq, sendAck, recvSeq, recvAck, lastActivity)
    }

    constructor (ghost flowId: nat)
      ensures View() == NEW_CONN && flow == flowId
    {
      flow := flowId;
      state, active, sendSeq, sendAck, recvSeq, recvAck, lastActivity := CLOSED, false, 0, 0, 0, 0, 0;
    }

    /** Returns true exactly when the event caused a transition. */
    method ProcessEvent(e: Event, now: u64) returns (moved: bool)
      modifies this
      ensures View() == Process(old(View()), e, now)
      ensures moved <==> Transition(old(state), e).Some?
    {
      lastActivity := now;
      match state {
        case CLOSED =>
          if e == SEND_SYN {
            state, active := SYN_SENT, true;
            return true;
          }
        case SYN_SENT =>
          if e == RECV_SYN_ACK {
            state := ESTABLISHED;
            return true;
          }
        case SYN_RCVD =>
          if e == RECV_ACK {
            state := ESTABLISHED;
            return true;
          }
        case ESTABLISHED =>
          if e == APP_CLOSE || e == SEND_FIN {
            state := FIN_WAIT_1;
            return true;
          }
          if e == RECV_FIN {
            state := CLOSE_WAIT;
            return true;
          }
        case FIN_WAIT_1 =>
          if e == RECV_ACK {
            state := FIN_WAIT_2;
            return true;
          }
          if e == RECV_FIN {
            state := CLOSING;
            return true;
          }
        case FIN_WAIT_2 =>
          if e == RECV_FIN {
            state := TIME_WAIT;
            return true;
          }
        case CLOSE_WAIT =>
          if e == APP_CLOSE || e == SEND_FIN {
            state := LAST_ACK;
            return true;
          }
        case CLOSING =>
          if e == RECV_ACK {
            state := TIME_WAIT;
            return true;
          }
        case LAST_ACK =>
          if e == RECV_ACK {
            state, active := CLOSED, false;
            return true;
          }
        case TIME_WAIT =>
          if e == TIMEOUT {
            state, active := CLOSED, false;
            return true;
          }
      }
      return false;
    }

    /** The part of `handle_tcp_rx` after the flow has been found. */
    method ReceiveSegment(g: Segment, now: u64)
      modifies this
      ensures View() == Receive(old(View()), g, now)
    {
      ghost var c := View();
      if g.syn && g.ack {
        recvSeq := g.seqNum;
        recvAck := g.ackNum;
        var _ := ProcessEvent(RECV_SYN_ACK, now);
      } else {
        if g.ack {
          recvAck := g.ackNum;
          var _ := ProcessEvent(RECV_ACK, now);
        }
        if g.fin {
          recvSeq := g.seqNum;
          var _ := ProcessEvent(RECV_FIN, now);
        }
      }
      if g.payload > 0 {
        recvSeq := (g.seqNum + g.payload) % TWO_32;
      }
      ReceiveUnfolds(c, g, now);
    }
  }

  lemma ReceiveUnfolds(c: Conn, g: Segment, now: u64)
    ensures var c1 := if g.ack && !g.syn then Process(c, RECV_ACK, now) else c;
            var c2 := if g.fin && !(g.syn && g.ack) then Process(c1, RECV_FIN, now) else c1;
            ProcessAll(c, EventsOf(g), now) == if g.syn && g.ack then Process(c, RECV_SYN_ACK, now) else c2
  {
    var es := EventsOf(g);
    if |es| == 1 {
      assert es[1..] == [];
    } else if |es| == 2 {
      var c1 := Process(c, RECV_ACK, now);
      assert es[1..] == [RECV_FIN] && [RECV_FIN][1..] == [];
      assert ProcessAll(c1, [RECV_FIN], now) == Process(c1, RECV_FIN, now);
    }
  }
}
