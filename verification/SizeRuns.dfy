/** That a flow whose size overruns the 16-bit append is served like any other: a run to a copy that writes
    behind its buffer. */
module SizeRuns {
  import opened Words
  import opened TokenBuckets
  import opened FlowSchedulers
  import opened PacketProofs
  import opened Workers
  import opened Pipelines
  import opened RateExactness

  /** Worker `w` is about to copy flow `id` behind the end of buffer `h`, whatever else is drawn. */
  ghost predicate AboutToSpill(s: System, w: nat, id: u32, h: nat) {
    && w < |s.workers| && s.workers[w].ready == [id] && s.workers[w].burst == []
    && forall d: Draw :: d.handle == Some(h) ==> Spilling(s.sched.flows, s.free, id, d, s.room)
  }

  lemma AddedAlone(s: System, spec: FlowSpec, now: u64) returns (y: System)
    requires Initial(s) && NewFlow(spec, s.mac, now).Some?
    ensures Enabled(s, AddFlow(spec, now)) && y == Next(s, AddFlow(spec, now))
    ensures y.sched.flows == map[spec.id := NewFlow(spec, s.mac, now).value]
    ensures y.workers == s.workers && y.free == s.free && y.room == s.room && y.burstSize == s.burstSize
  {
    y := Next(s, AddFlow(spec, now));
  }

  lemma StartedAlone(s: System, id: u32, f: Flow, now: u64) returns (y: System)
    requires s.sched.flows == map[id := f]
    ensures Enabled(s, StartFlow(id, now, now)) && y == Next(s, StartFlow(id, now, now))
    ensures y.sched.flows == map[id := Started(f, now, now)]
    ensures y.workers == s.workers && y.free == s.free && y.room == s.room && y.burstSize == s.burstSize
  {
    y := Next(s, StartFlow(id, now, now));
  }

  lemma PolledAlone(s: System, w: nat, id: u32, f: Flow, now: u64) returns (e: Event, y: System)
    requires s.sched.flows == map[id := f] && Idle(s, w) && s.burstSize > 0
    requires f.active && f.startTime == now && f.bucket.last == now && f.bucket.tokens > 0
    ensures Enabled(s, e) && y == Next(s, e)
    ensures id in y.sched.flows && y.sched.flows[id].active && y.sched.flows[id].spec == f.spec
    ensures w < |y.workers| && y.workers[w].ready == [id] && y.workers[w].burst == []
    ensures y.free == s.free && y.room == s.room
  {
    var order := [id];
    assert IsListing(order, s.sched.flows.Keys);
    FirstPolled(s.sched.flows, order, id, now, now, s.burstSize);
    ReadyLoopLength(s.sched.flows, order, 0, now, Readings(1, now), s.burstSize, []);
    e := Event.Poll(w, order, now, Readings(1, now));
    y := Next(s, e);
  }

  /** From every start with an idle worker and a free buffer, adding, starting and polling a flow leads to a
      copy behind the buffer, if the flow is accepted, its size overruns the append and its rate is not in
      1..9. */
  lemma OverrunIsReached(first: System, w: nat, h: nat, spec: FlowSpec, now: u64) returns (es: seq<Event>, z: System)
    requires Initial(first) && w < |first.workers| && h in first.free && first.burstSize > 0
    requires NewFlow(spec, first.mac, now).Some? && Overruns(spec.packetSize, first.room) && !(1 <= spec.pps <= 9)
    ensures Leads(first, es, z) && AboutToSpill(z, w, spec.id, h)
  {
    var y1 := AddedAlone(first, spec, now);
    var f := NewFlow(spec, first.mac, now).value;
    var y2 := StartedAlone(y1, spec.id, f, now);
    var e;
    e, z := PolledAlone(y2, w, spec.id, Started(f, now, now), now);
    ThreeSteps(first, AddFlow(spec, now), y1, StartFlow(spec.id, now, now), y2, e, z);
    es := [AddFlow(spec, now), StartFlow(spec.id, now, now), e];
  }

  lemma ThreeSteps(a: System, e1: Event, b: System, e2: Event, c: System, e3: Event, d: System)
    requires Enabled(a, e1) && b == Next(a, e1) && Enabled(b, e2) && c == Next(b, e2) && Enabled(c, e3)
    requires d == Next(c, e3)
    ensures Leads(a, [e1, e2, e3], d)
  {
    assert [e1, e2, e3][1..] == [e2, e3] && [e2, e3][1..] == [e3] && [e3][1..] == [];
    assert Leads(d, [], d);
    assert Leads(c, [e3], d);
    assert Leads(b, [e2, e3], d);
  }
}
