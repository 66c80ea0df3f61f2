/** The 5-tuple index and the connections over every run of the whole generator. */
module TableRuns {
  import opened Words
  import opened TcpStates
  import opened FlowKeys
  import opened FlowIndexes
  import opened Packets
  import opened FlowSchedulers
  import opened Workers
  import opened Pipelines
  import opened RateBounds

  // ---------------------------------------------------------------- the index

  /** What a control event does to table and index. */
  function CallOf(s: System, e: Pipelines.Event): TableCall
    requires TableEvent(e)
  {
    match e
    case AddFlow(spec, now) => Add(spec, s.mac, now)
    case RemoveFlow(id) => Remove(id)
    case _ => Clear
  }

  lemma TableEventApplies(s: System, e: Pipelines.Event)
    requires Enabled(s, e) && TableEvent(e)
    ensures Next(s, e).sched == Apply(s.sched, CallOf(s, e))
  {
  }

  lemma OtherEventsKeepScan(s: System, e: Pipelines.Event)
    requires Enabled(s, e) && !TableEvent(e)
    ensures Next(s, e).sched.index == s.sched.index
    ensures Agrees(Next(s, e).sched) <==> Agrees(s.sched)
    ensures forall k :: Lookup(s.sched, k) == Lookup(Next(s, e).sched, k)
  {
    OtherEventsKeepTable(s, e);
    SameKeysSameScan(s.sched, Next(s, e).sched);
  }

  /** In every reachable state, whatever calls and traffic came before, the index is closed under key
      reversal and maps both directions to one id. */
  lemma {:induction false} SymmetricOnAllRuns(s: System, es: seq<Pipelines.Event>, z: System)
    requires Symmetric(s.sched.index) && Leads(s, es, z)
    ensures Symmetric(z.sched.index)
    decreases |es|
  {
    if es != [] {
      if TableEvent(es[0]) {
        TableEventApplies(s, es[0]);
        IndexSymmetricOnAllRuns(s.sched, [CallOf(s, es[0])]);
        AppliedOnce(s.sched, CallOf(s, es[0]));
      } else {
        OtherEventsKeepScan(s, es[0]);
      }
      SymmetricOnAllRuns(Next(s, es[0]), es[1..], z);
    }
  }

  lemma AppliedOnce(s: Sched, c: TableCall)
    ensures ApplyAll(s, [c]) == Apply(s, c)
  {
    assert [c][1..] == [];
    assert ApplyAll(Apply(s, c), []) == Apply(s, c);
  }

  /** An event's caller does its part: adds are safe or refused. */
  ghost predicate Careful(s: System, e: Pipelines.Event) {
    e.AddFlow? ==> NewFlow(e.spec, s.mac, e.now).None? || SafeAdd(s.sched, e.spec)
  }

  lemma AgreementStepIff(s: System, e: Pipelines.Event)
    requires Enabled(s, e) && Agrees(s.sched)
    ensures Agrees(Next(s, e).sched) <==> Careful(s, e)
  {
    match e {
      case AddFlow(spec, now) => AddAgreesIff(s.sched, spec, s.mac, now);
      case RemoveFlow(id) => RemoveKeepsAgreement(s.sched, id);
      case ClearFlows => ClearAgrees(s.sched);
      case _ => OtherEventsKeepScan(s, e);
    }
  }

  ghost predicate CarefulRun(s: System, es: seq<Pipelines.Event>)
    decreases |es|
  {
    es == [] || (Enabled(s, es[0]) && Careful(s, es[0]) && CarefulRun(Next(s, es[0]), es[1..]))
  }

  /** The lookup agrees with the scan now and after every event of the run. */
  ghost predicate AgreesThroughout(s: System, es: seq<Pipelines.Event>)
    decreases |es|
  {
    Agrees(s.sched) && (es == [] || (Enabled(s, es[0]) && AgreesThroughout(Next(s, es[0]), es[1..])))
  }

  lemma {:induction false} AgreementRunIff(s: System, es: seq<Pipelines.Event>, z: System)
    requires Agrees(s.sched) && Leads(s, es, z)
    ensures AgreesThroughout(s, es) <==> CarefulRun(s, es)
    decreases |es|
  {
    if es != [] {
      AgreementStepIff(s, es[0]);
      if Careful(s, es[0]) {
        AgreementRunIff(Next(s, es[0]), es[1..], z);
      }
    }
  }

  /** Over every run from the start, workers' passes and received traffic interleaved with adds, removes and
      clears: the receive path's lookup agrees with a plain scan throughout if and only if every accepted
      add was safe. */
  lemma IndexRefinesScanOnRunsIff(first: System, es: seq<Pipelines.Event>, z: System)
    requires Initial(first) && Leads(first, es, z)
    ensures AgreesThroughout(first, es) <==> CarefulRun(first, es)
  {
    EmptyAgrees();
    AgreementRunIff(first, es, z);
  }

  // ---------------------------------------------------------------- what a caller can do

  predicate Accepts(s: System, e: Pipelines.Event) {
    e.AddFlow? && NewFlow(e.spec, s.mac, e.now).Some?
  }

  /** Every accepted add of the run brings an id never accepted before and a connection no present flow is on. */
  ghost predicate FreshAdds(s: System, es: seq<Pipelines.Event>, ids: set<u32>)
    decreases |es|
  {
    es == []
    || (Enabled(s, es[0])
        && if Accepts(s, es[0]) then
             FreshAdd(s.sched, es[0].spec, ids) && FreshAdds(Next(s, es[0]), es[1..], ids + {es[0].spec.id})
           else FreshAdds(Next(s, es[0]), es[1..], ids))
  }

  lemma OnlyAddsIndex(s: System, e: Pipelines.Event, ids: set<u32>)
    requires Enabled(s, e) && IndexesOnly(s.sched, ids)
    ensures IndexesOnly(Next(s, e).sched, if Accepts(s, e) then ids + {e.spec.id} else ids)
  {
    if TableEvent(e) {
      TableEventApplies(s, e);
    } else {
      OtherEventsKeepScan(s, e);
    }
  }

  lemma {:induction false} FreshIsCareful(s: System, es: seq<Pipelines.Event>, ids: set<u32>)
    requires IndexesOnly(s.sched, ids) && FreshAdds(s, es, ids)
    ensures CarefulRun(s, es)
    decreases |es|
  {
    if es != [] {
      OnlyAddsIndex(s, es[0], ids);
      if Accepts(s, es[0]) {
        FreshAddIsSafe(s.sched, es[0].spec, ids);
        FreshIsCareful(Next(s, es[0]), es[1..], ids + {es[0].spec.id});
      } else {
        FreshIsCareful(Next(s, es[0]), es[1..], ids);
      }
    }
  }

  /** Fresh ids on unused connections keep the receive path's lookup and a plain scan in agreement over every run
      of the whole machine, whatever is removed, cleared, sent and received. */
  lemma FreshIdsAgreeOnRuns(first: System, es: seq<Pipelines.Event>, z: System)
    requires Initial(first) && Leads(first, es, z) && FreshAdds(first, es, {})
    ensures AgreesThroughout(first, es)
  {
    FreshIsCareful(first, es, {});
    IndexRefinesScanOnRunsIff(first, es, z);
  }

  /** No table with flows is cleared. */
  ghost predicate NothingCleared(s: System, es: seq<Pipelines.Event>)
    decreases |es|
  {
    es == []
    || (Enabled(s, es[0]) && (es[0].ClearFlows? ==> s.sched.flows == map[]) && NothingCleared(Next(s, es[0]), es[1..]))
  }

  /** Every accepted add meets the condition the table shows. */
  ghost predicate TableSafeAdds(s: System, es: seq<Pipelines.Event>)
    decreases |es|
  {
    es == []
    || (Enabled(s, es[0]) && (Accepts(s, es[0]) ==> TableSafe(s.sched, es[0].spec))
        && TableSafeAdds(Next(s, es[0]), es[1..]))
  }

  lemma EventLeavesNoStale(s: System, e: Pipelines.Event)
    requires Enabled(s, e) && Agrees(s.sched) && NoStale(s.sched) && (e.ClearFlows? ==> s.sched.flows == map[])
    ensures NoStale(Next(s, e).sched)
  {
    if TableEvent(e) {
      TableEventApplies(s, e);
      CallLeavesNoStale(s.sched, CallOf(s, e));
    } else {
      OtherEventsKeepTable(s, e);
    }
  }

  lemma {:induction false} TableDecidesRun(s: System, es: seq<Pipelines.Event>)
    requires Agrees(s.sched) && NoStale(s.sched) && NothingCleared(s, es)
    ensures AgreesThroughout(s, es) <==> TableSafeAdds(s, es)
    decreases |es|
  {
    if es != [] {
      AgreementStepIff(s, es[0]);
      EventLeavesNoStale(s, es[0]);
      if Accepts(s, es[0]) {
        SafeAddWithoutStale(s.sched, es[0].spec);
      }
      if Careful(s, es[0]) {
        TableDecidesRun(Next(s, es[0]), es[1..]);
      }
    }
  }

  /** Where no table with flows is cleared, what the table shows at each add decides: lookup and scan agree
      throughout the run if and only if every accepted add was on a connection of its own, under an id that was
      new or already stood for it. */
  lemma TableDecidesOnRunsIff(first: System, es: seq<Pipelines.Event>)
    requires Initial(first) && NothingCleared(first, es)
    ensures AgreesThroughout(first, es) <==> TableSafeAdds(first, es)
  {
    EmptyAgrees();
    TableDecidesRun(first, es);
  }

  // ---------------------------------------------------------------- connections

  /** The part of a connection its history determines. */
  ghost predicate SamePhase(c: Conn, d: Conn) {
    c.state == d.state && c.active == d.active
  }

  lemma {:induction false} ReplayFollows(h: History, c: Conn, es: seq<TcpStates.Event>, now: u64)
    requires SamePhase(h.conn, c)
    ensures SamePhase(Replay(h, es).conn, ProcessAll(c, es, now))
    decreases |es|
  {
    if es != [] {
      assert SamePhase(Advance(h, es[0]).conn, Process(c, es[0], now));
      ReplayFollows(Advance(h, es[0]), Process(c, es[0], now), es[1..], now);
    }
  }

  lemma {:induction false} ReplayAppend(h: History, a: seq<TcpStates.Event>, b: seq<TcpStates.Event>)
    ensures Replay(h, a + b) == Replay(Replay(h, a), b)
    decreases |a|
  {
    if a == [] {
      assert a + b == b;
    } else {
      AppendParts(a, b);
      ReplayAppend(Advance(h, a[0]), a[1..], b);
    }
  }

  /** The events a received frame raises on a flow's connection. */
  function HeardFrom(s: Sched, data: seq<u8>, id: u32): seq<TcpStates.Event>
    requires |data| >= L4 + TCP_SIZE
  {
    match ParseRx(data)
    case None => []
    case Some(r) => if Lookup(s, r.key) == Some(id) && Stateful(s.flows[id].spec) then EventsOf(SegmentOf(r)) else []
  }

  function HeardInBatch(x: Rx, batch: seq<RxSlot>, i: nat, now: u64, id: u32): seq<TcpStates.Event>
    requires Parsable(batch) && i <= |batch|
    decreases |batch| - i
  {
    if i == |batch| then []
    else HeardFrom(x.sched, batch[i].data, id) + HeardInBatch(ReceiveStep(x, batch[i], now), batch, i + 1, now, id)
  }

  /** All events an event of the system raises on a flow's connection. */
  function RaisedBy(s: System, e: Pipelines.Event, id: u32): seq<TcpStates.Event> {
    match e
    case Connection(j, ev, _) => if j == id then [ev] else []
    case ReceiveBatch(w, batch, now) =>
      if forall k :: 0 <= k < |batch| ==> |batch[k].data| >= L4 + TCP_SIZE
      then HeardInBatch(Rx(s.sched, s.free, [], 0), batch, 0, now, id) else []
    case _ => []
  }

  ghost function RaisedOn(s: System, es: seq<Pipelines.Event>, id: u32): seq<TcpStates.Event>
    decreases |es|
  {
    if es == [] || !Enabled(s, es[0]) then [] else RaisedBy(s, es[0], id) + RaisedOn(Next(s, es[0]), es[1..], id)
  }

  /** A flow whose connection stands where a history ends. */
  ghost predicate StandsAt(f: Flow, h: History) {
    f.conn.Some? && Stateful(f.spec) && SamePhase(h.conn, f.conn.value)
  }

  lemma DispatchReplays(s: Sched, data: seq<u8>, now: u64, id: u32, h: History)
    requires |data| >= L4 + TCP_SIZE && id in s.flows && StandsAt(s.flows[id], h)
    ensures var t := Dispatch(s, data, now);
            id in t.flows && StandsAt(t.flows[id], Replay(h, HeardFrom(s, data, id)))
  {
    match ParseRx(data)
    case None =>
    case Some(r) => ReplayFollows(h, s.flows[id].conn.value, EventsOf(SegmentOf(r)), now);
  }

  lemma {:induction false} BatchReplays(x: Rx, batch: seq<RxSlot>, i: nat, now: u64, id: u32, h: History)
    requires Parsable(batch) && i <= |batch| && id in x.sched.flows && StandsAt(x.sched.flows[id], h)
    ensures var z := ReceiveAll(x, batch, i, now);
            id in z.sched.flows && StandsAt(z.sched.flows[id], Replay(h, HeardInBatch(x, batch, i, now, id)))
    decreases |batch| - i
  {
    if i < |batch| {
      var y, now1 := ReceiveStep(x, batch[i], now), HeardFrom(x.sched, batch[i].data, id);
      DispatchReplays(x.sched, batch[i].data, now, id, h);
      BatchReplays(y, batch, i + 1, now, id, Replay(h, now1));
      ReplayAppend(h, now1, HeardInBatch(y, batch, i + 1, now, id));
    }
  }

  lemma ConnectionReplays(s: System, e: Pipelines.Event, id: u32, h: History)
    requires Enabled(s, e) && e.Connection? && id in s.sched.flows && StandsAt(s.sched.flows[id], h)
    ensures id in Next(s, e).sched.flows && StandsAt(Next(s, e).sched.flows[id], Replay(h, RaisedBy(s, e, id)))
  {
    if e.id == id {
      assert [e.e][1..] == [];
      assert Replay(h, [e.e]) == Replay(Advance(h, e.e), []) == Advance(h, e.e);
    }
  }

  lemma QuietReplays(s: System, e: Pipelines.Event, id: u32, h: History)
    requires Enabled(s, e) && !e.Connection? && !e.ReceiveBatch? && !Replaces(e, id)
    requires id in s.sched.flows && StandsAt(s.sched.flows[id], h)
    ensures id in Next(s, e).sched.flows ==> StandsAt(Next(s, e).sched.flows[id], Replay(h, RaisedBy(s, e, id)))
  {
    if e.Poll? {
      PollPending(s, e, id);
    }
  }

  /** Where a tracked flow's connection stands after a run is where the connection machine gets to on the
      events the run raised on it, by the environment and by received segments. */
  lemma {:induction false} RunReplays(s: System, es: seq<Pipelines.Event>, z: System, id: u32, h: History)
    requires Leads(s, es, z) && NeverReplaced(es, id)
    requires id in s.sched.flows && StandsAt(s.sched.flows[id], h) && id in z.sched.flows
    ensures StandsAt(z.sched.flows[id], Replay(h, RaisedOn(s, es, id)))
    decreases |es|
  {
    if es != [] {
      var y, e := Next(s, es[0]), es[0];
      if id !in y.sched.flows {
        AbsentAtEnd(y, es[1..], z, id);
      }
      if e.ReceiveBatch? {
        BatchReplays(Rx(s.sched, s.free, [], 0), e.batch, 0, e.now, id, h);
      } else if e.Connection? {
        ConnectionReplays(s, e, id, h);
      } else {
        QuietReplays(s, e, id, h);
      }
      RunReplays(y, es[1..], z, id, Replay(h, RaisedBy(s, e, id)));
      ReplayAppend(h, RaisedBy(s, e, id), RaisedOn(y, es[1..], id));
    }
  }

  lemma AddStartsHistory(s: System, spec: FlowSpec, now: u64)
    requires Enabled(s, Pipelines.AddFlow(spec, now)) && NewFlow(spec, s.mac, now).Some? && Stateful(spec)
    ensures var y := Next(s, Pipelines.AddFlow(spec, now));
            spec.id in y.sched.flows && StandsAt(y.sched.flows[spec.id], NEW_HISTORY)
  {
  }

  // ---------------------------------------------------------------- every connection of every run

  /** A new entry takes the flow's place. */
  predicate Renews(s: System, e: Pipelines.Event, id: u32) {
    Replaces(e, id) && NewFlow(e.spec, s.mac, e.now).Some?
  }

  /** A flow's history over an event: started afresh when the flow is, carried on otherwise. */
  function Carried(s: System, e: Pipelines.Event, id: u32, h: History): History {
    if Renews(s, e, id) then NEW_HISTORY else Replay(h, RaisedBy(s, e, id))
  }

  /** The history of what a run raised on a flow since its last accepted add. */
  ghost function HistoryOf(s: System, es: seq<Pipelines.Event>, id: u32, h: History): History
    decreases |es|
  {
    if es == [] || !Enabled(s, es[0]) then h
    else HistoryOf(Next(s, es[0]), es[1..], id, Carried(s, es[0], id, h))
  }

  /** If the flow has a connection, it stands where the history ends. */
  ghost predicate Follows(s: System, id: u32, h: History) {
    && HistoryInv(h)
    && (id in s.sched.flows ==> (s.sched.flows[id].conn.Some? <==> Stateful(s.sched.flows[id].spec)))
    && (id in s.sched.flows && s.sched.flows[id].conn.Some? ==> StandsAt(s.sched.flows[id], h))
  }

  lemma RenewedFollows(s: System, e: Pipelines.Event, id: u32)
    requires Enabled(s, e) && Renews(s, e, id)
    ensures Follows(Next(s, e), id, NEW_HISTORY)
  {
    if Stateful(e.spec) {
      AddStartsHistory(s, e.spec, e.now);
    }
  }

  lemma RefusedChangesNothing(s: System, e: Pipelines.Event, id: u32)
    requires Enabled(s, e) && Replaces(e, id) && !Renews(s, e, id)
    ensures Next(s, e) == s && RaisedBy(s, e, id) == []
  {
  }

  /** One event on a flow that has a connection. */
  lemma TrackedCarries(s: System, e: Pipelines.Event, id: u32, h: History)
    requires Enabled(s, e) && !Replaces(e, id) && id in s.sched.flows && StandsAt(s.sched.flows[id], h)
    ensures id in Next(s, e).sched.flows ==> StandsAt(Next(s, e).sched.flows[id], Replay(h, RaisedBy(s, e, id)))
  {
    if e.ReceiveBatch? {
      BatchReplays(Rx(s.sched, s.free, [], 0), e.batch, 0, e.now, id, h);
    } else if e.Connection? {
      ConnectionReplays(s, e, id, h);
    } else {
      QuietReplays(s, e, id, h);
    }
  }

  /** An event neither gives a flow a connection nor takes it away, unless it replaces the flow. */
  lemma ConnectionKept(s: System, e: Pipelines.Event, id: u32)
    requires Enabled(s, e) && !Replaces(e, id) && id in Next(s, e).sched.flows
    ensures id in s.sched.flows && Next(s, e).sched.flows[id].spec == s.sched.flows[id].spec
    ensures Next(s, e).sched.flows[id].conn.Some? <==> s.sched.flows[id].conn.Some?
  {
    if id !in s.sched.flows {
      AbsentStaysAbsent(s, e, id);
    } else if !TableEvent(e) {
      OtherEventsKeepTable(s, e);
    }
  }

  lemma KeptFollows(s: System, e: Pipelines.Event, id: u32, h: History)
    requires Enabled(s, e) && !Replaces(e, id) && Follows(s, id, h)
    ensures Follows(Next(s, e), id, Replay(h, RaisedBy(s, e, id)))
  {
    HistoryInvariant(h, RaisedBy(s, e, id));
    if id in Next(s, e).sched.flows {
      ConnectionKept(s, e, id);
      if s.sched.flows[id].conn.Some? {
        TrackedCarries(s, e, id, h);
      }
    }
  }

  lemma StepFollows(s: System, e: Pipelines.Event, id: u32, h: History)
    requires Enabled(s, e) && Follows(s, id, h)
    ensures Follows(Next(s, e), id, Carried(s, e, id, h))
  {
    if Renews(s, e, id) {
      RenewedFollows(s, e, id);
    } else if Replaces(e, id) {
      RefusedChangesNothing(s, e, id);
      assert Replay(h, []) == h;
    } else {
      KeptFollows(s, e, id, h);
    }
  }

  lemma {:induction false} RunFollows(s: System, es: seq<Pipelines.Event>, z: System, id: u32, h: History)
    requires Leads(s, es, z) && Follows(s, id, h)
    ensures Follows(z, id, HistoryOf(s, es, id, h))
    decreases |es|
  {
    if es != [] {
      StepFollows(s, es[0], id, h);
      RunFollows(Next(s, es[0]), es[1..], z, id, Carried(s, es[0], id, h));
    }
  }

  /** The history invariant end to end: in every reachable state every connection stands where the machine
      gets to on the events raised since the flow was last added, by the environment and by received
      segments; SYN_RCVD is never reached, `active` holds exactly outside CLOSED, and what the connection
      has accepted since is completed lifecycles and a path to its current state. */
  lemma EveryConnectionFollows(first: System, es: seq<Pipelines.Event>, z: System, id: u32)
    requires Initial(first) && Leads(first, es, z) && id in z.sched.flows && z.sched.flows[id].conn.Some?
    ensures var c, h := z.sched.flows[id].conn.value, HistoryOf(first, es, id, NEW_HISTORY);
            && StandsAt(z.sched.flows[id], h) && HistoryInv(h) && Reached(c.state, h.current)
            && c.state != SYN_RCVD && (c.active <==> c.state != CLOSED)
  {
    RunFollows(first, es, z, id, NEW_HISTORY);
  }
}
