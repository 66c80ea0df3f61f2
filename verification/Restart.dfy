/** When no grant is in flight, in terms of the calls made and of idle workers: a first start always meets the
    nominal bound, and so does a restart once every worker has had nothing waiting since the flow was
    stopped. */
module Restarts {
  import opened Words
  import opened FlowSchedulers
  import opened Workers
  import opened Pipelines
  import opened RateBounds

  /** No run of the flow is on: it is not in the table, or not active. */
  ghost predicate Stopped(s: System, id: u32) {
    id in s.sched.flows ==> !s.sched.flows[id].active
  }

  predicate Starts(e: Event, id: u32) {
    e.StartFlow? && e.id == id
  }

  ghost predicate NeverStarted(es: seq<Event>, id: u32) {
    forall i :: 0 <= i < |es| ==> !Starts(es[i], id)
  }

  lemma StoppedPoll(flows: map<u32, Flow>, order: seq<u32>, now: u64, ticks: seq<u64>, max: nat, id: u32)
    requires IsListing(order, flows.Keys) && |ticks| == |order| && (id in flows ==> !flows[id].active)
    ensures var r := ReadyLoop(flows, order, 0, now, ticks, max, []);
            id !in r.ids && (id in r.flows ==> !r.flows[id].active)
  {
    ReadyLoopGrants(flows, order, 0, now, ticks, max, []);
    if id in flows {
      ReadyLoopCharges(flows, order, 0, now, ticks, max, [], id);
      assert Times([], id) == 0;
    }
  }

  lemma BuildKeepsActive(s: System, e: Event, id: u32)
    requires Enabled(s, e) && e.Build? && Stopped(s, id)
    ensures Stopped(Next(s, e), id)
  {
  }

  /** Nothing but a start makes a flow active. */
  lemma StaysStopped(s: System, e: Event, id: u32)
    requires Enabled(s, e) && Stopped(s, id) && !Starts(e, id)
    ensures Stopped(Next(s, e), id)
  {
    if e.Poll? {
      StoppedPoll(s.sched.flows, e.order, e.now, e.ticks, s.burstSize, id);
    } else if e.Build? {
      BuildKeepsActive(s, e, id);
    } else if e.ReceiveBatch? {
      ReceiveAllOnlyHears(Rx(s.sched, s.free, [], 0), e.batch, 0, e.now);
    }
  }

  /** A worker gets no grant of a stopped flow, and keeps none it does not have. */
  lemma GetsNoGrant(s: System, e: Event, id: u32, w: nat)
    requires Enabled(s, e) && Stopped(s, id) && w < |s.workers| && id !in s.workers[w].ready
    ensures w < |Next(s, e).workers| && id !in Next(s, e).workers[w].ready
  {
    if e.Poll? {
      StoppedPoll(s.sched.flows, e.order, e.now, e.ticks, s.burstSize, id);
    }
  }

  lemma {:induction false} HoldsNone(s: System, es: seq<Event>, z: System, id: u32, w: nat)
    requires Leads(s, es, z) && NeverStarted(es, id) && Stopped(s, id)
    requires w < |s.workers| && id !in s.workers[w].ready
    ensures w < |z.workers| && id !in z.workers[w].ready
    decreases |es|
  {
    if es != [] {
      StaysStopped(s, es[0], id);
      GetsNoGrant(s, es[0], id, w);
      HoldsNone(Next(s, es[0]), es[1..], z, id, w);
    }
  }

  /** At some point of the run the worker has nothing waiting. */
  ghost predicate SeenIdle(s: System, es: seq<Event>, w: nat)
    decreases |es|
  {
    w < |s.workers|
    && (s.workers[w].ready == [] || (es != [] && Enabled(s, es[0]) && SeenIdle(Next(s, es[0]), es[1..], w)))
  }

  lemma {:induction false} IdleHoldsNone(s: System, es: seq<Event>, z: System, id: u32, w: nat)
    requires Leads(s, es, z) && NeverStarted(es, id) && Stopped(s, id) && SeenIdle(s, es, w)
    ensures w < |z.workers| && id !in z.workers[w].ready
    decreases |es|
  {
    if s.workers[w].ready == [] {
      HoldsNone(s, es, z, id, w);
    } else {
      StaysStopped(s, es[0], id);
      IdleHoldsNone(Next(s, es[0]), es[1..], z, id, w);
    }
  }

  lemma {:induction false} SameCrew(s: System, es: seq<Event>, z: System)
    requires Leads(s, es, z)
    ensures |z.workers| == |s.workers|
    decreases |es|
  {
    if es != [] {
      SameCrew(Next(s, es[0]), es[1..], z);
    }
  }

  lemma {:induction false} NoneHeld(ws: seq<WorkerState>, id: u32)
    requires forall w :: 0 <= w < |ws| ==> id !in ws[w].ready
    ensures Pending(ws, id) == 0
  {
    if ws != [] {
      NoneHeld(ws[1..], id);
    }
  }

  /** Once the flow is stopped and every worker has had nothing waiting since, no grant of it is in flight,
      until it is started again. */
  lemma NoGrantInFlight(y: System, between: seq<Event>, s: System, id: u32)
    requires Leads(y, between, s) && Stopped(y, id) && NeverStarted(between, id)
    requires forall w :: 0 <= w < |y.workers| ==> SeenIdle(y, between, w)
    ensures Pending(s.workers, id) == 0
  {
    SameCrew(y, between, s);
    forall w | 0 <= w < |s.workers| ensures id !in s.workers[w].ready {
      IdleHoldsNone(y, between, s, id, w);
    }
    NoneHeld(s.workers, id);
  }

  /** Before its first start a flow has no grant in flight, however often it was added, stopped or removed and
      whatever the workers do. */
  lemma NoGrantBeforeFirstStart(first: System, before: seq<Event>, s: System, id: u32)
    requires Initial(first) && Leads(first, before, s) && NeverStarted(before, id)
    ensures Pending(s.workers, id) == 0
  {
    NoGrantInFlight(first, before, s, id);
  }

  /** The first start of an id always meets the nominal bound: burst plus rate times time, nothing added. */
  lemma FirstStartIsNominal(first: System, before: seq<Event>, s: System, id: u32, now: u64, t0: u64, es: seq<Event>,
                            t: nat)
    requires Initial(first) && Leads(first, before, s) && NeverStarted(before, id) && id in s.sched.flows && t0 <= t
    requires Period(Next(s, StartFlow(id, now, t0)), es, id, t)
    ensures |FramesOf(Next(s, StartFlow(id, now, t0)), es, id)| <= Nominal(s.sched.flows[id].spec.pps, t - t0)
  {
    NoGrantBeforeFirstStart(first, before, s, id);
    EndToEndRateBound(first, before, s, id, now, t0, es, t);
  }

  /** So does a restart, if the flow was stopped and every worker had nothing waiting at some point between the
      stop and the start. */
  lemma RestartIsNominal(first: System, before: seq<Event>, x: System, between: seq<Event>, s: System, id: u32,
                         now: u64, t0: u64, es: seq<Event>, t: nat)
    requires Initial(first) && Leads(first, before, x)
    requires Leads(Next(x, StopFlow(id)), between, s) && NeverStarted(between, id)
    requires forall w :: 0 <= w < |x.workers| ==> SeenIdle(Next(x, StopFlow(id)), between, w)
    requires id in s.sched.flows && t0 <= t && Period(Next(s, StartFlow(id, now, t0)), es, id, t)
    ensures |FramesOf(Next(s, StartFlow(id, now, t0)), es, id)| <= Nominal(s.sched.flows[id].spec.pps, t - t0)
  {
    var y := Next(x, StopFlow(id));
    StopStops(x, id);
    NoGrantInFlight(y, between, s, id);
    RunThrough(first, before, x, StopFlow(id), between, s);
    EndToEndRateBound(first, before + ([StopFlow(id)] + between), s, id, now, t0, es, t);
  }

  lemma StopStops(x: System, id: u32)
    ensures Stopped(Next(x, StopFlow(id)), id) && Next(x, StopFlow(id)).workers == x.workers
  {
  }

  lemma RunThrough(first: System, before: seq<Event>, x: System, e: Event, between: seq<Event>, s: System)
    requires Leads(first, before, x) && Enabled(x, e) && Leads(Next(x, e), between, s)
    ensures Leads(first, before + ([e] + between), s)
  {
    assert ([e] + between)[1..] == between;
    LeadsAppend(first, before, x, [e] + between, s);
  }
}
