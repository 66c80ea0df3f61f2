/** End-to-end rate bounds: how many frames a flow gets built after a start, over every run of any number
    of workers, and exactly when the nominal bound holds. */
module RateBounds {
  import opened Words
  import opened TokenBuckets
  import opened FlowSchedulers
  import opened Workers
  import opened Pipelines

  /** Grants of a flow that workers still hold: polled, charged, and not yet looked at. */
  function Pending(ws: seq<WorkerState>, id: u32): nat {
    if ws == [] then 0 else Times(ws[0].ready, id) + Pending(ws[1..], id)
  }

  lemma {:induction false} PendingUpdate(ws: seq<WorkerState>, w: nat, v: WorkerState, id: u32)
    requires w < |ws|
    ensures Pending(ws[w := v], id) == Pending(ws, id) - Times(ws[w].ready, id) + Times(v.ready, id)
    ensures Times(ws[w].ready, id) <= Pending(ws, id)
  {
    if w == 0 {
      assert ws[w := v][1..] == ws[1..];
    } else {
      assert ws[w := v][1..] == ws[1..][w - 1 := v];
      PendingUpdate(ws[1..], w - 1, v, id);
    }
  }

  predicate Replaces(e: Event, id: u32) {
    e.AddFlow? && e.spec.id == id
  }

  lemma AbsentStaysAbsent(s: System, e: Event, id: u32)
    requires Enabled(s, e) && !Replaces(e, id) && id !in s.sched.flows
    ensures id !in Next(s, e).sched.flows && FramesBy(s, e, id) == []
  {
    if !TableEvent(e) {
      OtherEventsKeepTable(s, e);
    }
  }

  /** Adds and starts of this flow begin a new period. */
  predicate Uninterrupted(e: Event, id: u32) {
    !Replaces(e, id) && !(e.StartFlow? && e.id == id)
  }

  /** If the event charges the flow's bucket, it reads the bucket's clock at `t` at the latest. */
  ghost predicate ReadsBy(s: System, e: Event, id: u32, t: nat) {
    e.Poll? && id in s.sched.flows && s.sched.flows[id].active && !Expired(s.sched.flows[id], e.now)
    ==> forall k :: 0 <= k < |e.order| && k < |e.ticks| && e.order[k] == id ==> e.ticks[k] <= t
  }

  /** One period of a flow: no add or start of it, and every charge reads the clock by `t`. */
  ghost predicate Period(s: System, es: seq<Event>, id: u32, t: nat)
    decreases |es|
  {
    es == []
    || (Enabled(s, es[0]) && Uninterrupted(es[0], id) && ReadsBy(s, es[0], id, t)
        && Period(Next(s, es[0]), es[1..], id, t))
  }

  function TokensOf(s: System, id: u32): nat {
    if id in s.sched.flows then s.sched.flows[id].bucket.tokens else 0
  }

  /** Where the flow's bucket stamp stands after an event, as long as the flow is there. */
  function StampAfter(s: System, z: System, id: u32): u64
    requires id in s.sched.flows
  {
    if id in z.sched.flows then z.sched.flows[id].bucket.last else s.sched.flows[id].bucket.last
  }

  /** One poll of a flow is paid for by its tokens and the time its stamp moves over. */
  lemma ChargePaid(f: Flow, g: Flow, now: u64, order: seq<u32>, ticks: seq<u64>, id: u32, grants: int, t: nat)
    requires |order| == |ticks| && ChargedOnce(f, g, now, order, ticks, id, grants)
    requires f.active && !Expired(f, now) ==> forall k :: 0 <= k < |order| && order[k] == id ==> ticks[k] <= t
    requires f.bucket.last <= t
    ensures f.bucket.last <= g.bucket.last <= t
    ensures grants + g.bucket.tokens <= f.bucket.tokens + Owed(f.bucket.rate, g.bucket.last - f.bucket.last)
  {
    if g != f || grants != 0 {
      var k :| 0 <= k < |order| && order[k] == id && g == PollFlow(f, now, ticks[k]).flow
               && grants == (if PollFlow(f, now, ticks[k]).granted then 1 else 0);
      StepFacts(f.bucket, ticks[k], 1);
    }
  }

  lemma PollPending(s: System, e: Event, id: u32)
    requires Enabled(s, e) && e.Poll? && id in s.sched.flows
    ensures var z, n := Next(s, e), Pending(Next(s, e).workers, id) - Pending(s.workers, id);
            && id in z.sched.flows && FramesBy(s, e, id) == []
            && ChargedOnce(s.sched.flows[id], z.sched.flows[id], e.now, e.order, e.ticks, id, n)
  {
    var r := ReadyLoop(s.sched.flows, e.order, 0, e.now, e.ticks, s.burstSize, []);
    ReadyLoopCharges(s.sched.flows, e.order, 0, e.now, e.ticks, s.burstSize, [], id);
    PendingUpdate(s.workers, e.w, s.workers[e.w].(ready := r.ids), id);
    assert Times([], id) == 0;
  }

  lemma TimesOfRest(ids: seq<u32>, id: u32)
    requires ids != []
    ensures Times(ids, id) == Times(ids[1..], id) + if ids[0] == id then 1 else 0
  {
    assert ids == [ids[0]] + ids[1..];
  }

  lemma BuildPending(s: System, e: Event, id: u32)
    requires Enabled(s, e) && e.Build?
    ensures |FramesBy(s, e, id)| + Pending(Next(s, e).workers, id) <= Pending(s.workers, id)
  {
    var me, z := s.workers[e.w], Next(s, e);
    PendingUpdate(s.workers, e.w, z.workers[e.w], id);
    TimesOfRest(me.ready, id);
  }

  lemma BuildKeepsBucket(s: System, e: Event, id: u32)
    requires Enabled(s, e) && e.Build? && id in s.sched.flows
    ensures id in Next(s, e).sched.flows && Next(s, e).sched.flows[id].bucket == s.sched.flows[id].bucket
  {
  }

  lemma OtherPotential(s: System, e: Event, id: u32)
    requires Enabled(s, e) && !e.Poll? && !e.Build? && Uninterrupted(e, id) && id in s.sched.flows
    ensures var z := Next(s, e);
            && FramesBy(s, e, id) == [] && Pending(z.workers, id) == Pending(s.workers, id)
            && (id in z.sched.flows ==> z.sched.flows[id].bucket == s.sched.flows[id].bucket)
  {
    if e.Send? {
      PendingUpdate(s.workers, e.w, s.workers[e.w].(burst := []), id);
    } else if e.ReceiveBatch? {
      ReceiveAllOnlyHears(Rx(s.sched, s.free, [], 0), e.batch, 0, e.now);
    }
  }

  lemma {:induction false} NoFlowNoFrames(s: System, es: seq<Event>, id: u32, t: nat)
    requires id !in s.sched.flows && Period(s, es, id, t)
    ensures FramesOf(s, es, id) == []
    decreases |es|
  {
    if es != [] {
      AbsentStaysAbsent(s, es[0], id);
      NoFlowNoFrames(Next(s, es[0]), es[1..], id, t);
    }
  }

  /** Grants held and tokens left. */
  function Budget(s: System, id: u32): nat {
    Pending(s.workers, id) + TokensOf(s, id)
  }

  lemma PollPotential(s: System, e: Event, id: u32, t: nat)
    requires Enabled(s, e) && e.Poll? && ReadsBy(s, e, id, t)
    requires id in s.sched.flows && s.sched.flows[id].bucket.last <= t
    ensures s.sched.flows[id].bucket.last <= StampAfter(s, Next(s, e), id) <= t
    ensures |FramesBy(s, e, id)| + Budget(Next(s, e), id)
            <= Budget(s, id) + Owed(s.sched.flows[id].bucket.rate,
                                    StampAfter(s, Next(s, e), id) - s.sched.flows[id].bucket.last)
  {
    var z := Next(s, e);
    PollPending(s, e, id);
    PollPays(s, e, id, z, Pending(z.workers, id) - Pending(s.workers, id), t);
  }

  lemma PollPays(s: System, e: Event, id: u32, z: System, grants: int, t: nat)
    requires e.Poll? && ReadsBy(s, e, id, t) && |e.ticks| == |e.order| && id in s.sched.flows && id in z.sched.flows
    requires s.sched.flows[id].bucket.last <= t && grants == Pending(z.workers, id) - Pending(s.workers, id)
    requires ChargedOnce(s.sched.flows[id], z.sched.flows[id], e.now, e.order, e.ticks, id, grants)
    ensures s.sched.flows[id].bucket.last <= StampAfter(s, z, id) <= t
    ensures Budget(z, id)
            <= Budget(s, id) + Owed(s.sched.flows[id].bucket.rate, StampAfter(s, z, id) - s.sched.flows[id].bucket.last)
  {
    ChargePaid(s.sched.flows[id], z.sched.flows[id], e.now, e.order, e.ticks, id, grants, t);
    BudgetMoves(s, z, id, grants);
  }

  lemma BudgetMoves(s: System, z: System, id: u32, grants: int)
    requires id in s.sched.flows && id in z.sched.flows && grants == Pending(z.workers, id) - Pending(s.workers, id)
    requires s.sched.flows[id].bucket.last <= z.sched.flows[id].bucket.last
    requires grants + z.sched.flows[id].bucket.tokens
             <= s.sched.flows[id].bucket.tokens
                + Owed(s.sched.flows[id].bucket.rate, z.sched.flows[id].bucket.last - s.sched.flows[id].bucket.last)
    ensures Budget(z, id)
            <= Budget(s, id) + Owed(s.sched.flows[id].bucket.rate, StampAfter(s, z, id) - s.sched.flows[id].bucket.last)
  {
  }

  lemma StepPotential(s: System, e: Event, id: u32, t: nat)
    requires Enabled(s, e) && Uninterrupted(e, id) && ReadsBy(s, e, id, t)
    requires id in s.sched.flows && s.sched.flows[id].bucket.last <= t
    ensures s.sched.flows[id].bucket.last <= StampAfter(s, Next(s, e), id) <= t
    ensures |FramesBy(s, e, id)| + Budget(Next(s, e), id)
            <= Budget(s, id) + Owed(s.sched.flows[id].bucket.rate,
                                    StampAfter(s, Next(s, e), id) - s.sched.flows[id].bucket.last)
  {
    if e.Poll? {
      PollPotential(s, e, id, t);
    } else if e.Build? {
      BuildPending(s, e, id);
      BuildKeepsBucket(s, e, id);
    } else {
      OtherPotential(s, e, id);
    }
  }

  lemma RateKept(s: System, e: Event, id: u32)
    requires Enabled(s, e) && Uninterrupted(e, id) && id in s.sched.flows && id in Next(s, e).sched.flows
    ensures SameFlow(s.sched.flows[id], Next(s, e).sched.flows[id])
  {
    if !TableEvent(e) {
      OtherEventsKeepTable(s, e);
    }
  }

  /** What a period starting at `from` and ending by `to` may get built at most. */
  ghost predicate Covered(s: System, es: seq<Event>, id: u32, rate: nat, from: nat, to: nat)
    requires from <= to
  {
    |FramesOf(s, es, id)| <= Budget(s, id) + Owed(rate, to - from)
  }

  /** Potential argument over a period: what is built for the flow is covered by the grants held when the
      period began, the tokens in its bucket then, and the time its clock moved over. */
  lemma {:induction false} PeriodPotential(s: System, es: seq<Event>, id: u32, t: nat)
    requires id in s.sched.flows && s.sched.flows[id].bucket.last <= t && Period(s, es, id, t)
    ensures Covered(s, es, id, s.sched.flows[id].bucket.rate, s.sched.flows[id].bucket.last, t)
    decreases |es|
  {
    if es != [] {
      var z := Next(s, es[0]);
      StepPotential(s, es[0], id, t);
      if id in z.sched.flows {
        PeriodPotential(z, es[1..], id, t);
        RateKept(s, es[0], id);
      } else {
        NoFlowNoFrames(z, es[1..], id, t);
        NothingIsCovered(z, es[1..], id, s.sched.flows[id].bucket.rate, StampAfter(s, z, id), t);
      }
      CoverStep(s, es, id, z, t);
    }
  }

  lemma NothingIsCovered(s: System, es: seq<Event>, id: u32, rate: nat, from: nat, to: nat)
    requires from <= to && FramesOf(s, es, id) == []
    ensures Covered(s, es, id, rate, from, to)
  {
  }

  lemma CoverStep(s: System, es: seq<Event>, id: u32, z: System, t: nat)
    requires es != [] && Enabled(s, es[0]) && z == Next(s, es[0])
    requires Uninterrupted(es[0], id) && ReadsBy(s, es[0], id, t)
    requires id in s.sched.flows && s.sched.flows[id].bucket.last <= StampAfter(s, z, id) <= t
    requires Covered(z, es[1..], id, s.sched.flows[id].bucket.rate, StampAfter(s, z, id), t)
    ensures Covered(s, es, id, s.sched.flows[id].bucket.rate, s.sched.flows[id].bucket.last, t)
  {
    StepPotential(s, es[0], id, t);
    OneMore(s, es, id, z, s.sched.flows[id].bucket.rate, s.sched.flows[id].bucket.last, StampAfter(s, z, id), t);
  }

  lemma OneMore(s: System, es: seq<Event>, id: u32, z: System, rate: nat, from: nat, next: nat, to: nat)
    requires es != [] && Enabled(s, es[0]) && z == Next(s, es[0]) && from <= next <= to
    requires |FramesBy(s, es[0], id)| + Budget(z, id) <= Budget(s, id) + Owed(rate, next - from)
    requires Covered(z, es[1..], id, rate, next, to)
    ensures Covered(s, es, id, rate, from, to)
  {
    FramesUnfold(s, es, id);
    OwedSplit(rate, next - from, to - next);
  }

  lemma FramesUnfold(s: System, es: seq<Event>, id: u32)
    requires es != [] && Enabled(s, es[0])
    ensures |FramesOf(s, es, id)| == |FramesBy(s, es[0], id)| + |FramesOf(Next(s, es[0]), es[1..], id)|
  {
  }

  // ---------------------------------------------------------------- per start

  /** A state in which `start_flow` has just been called: a full bucket stamped `t0`. */
  ghost predicate JustStarted(y: System, id: u32, now: u64, t0: u64) {
    && id in y.sched.flows
    && var f := y.sched.flows[id];
       f.bucket == Full(f.spec.pps, BurstFor(f.spec.pps), t0) && f.startTime == now && f.active
  }

  lemma HealthyStart(s: System, id: u32, now: u64, t0: u64, y: System)
    requires AllHealthy(s) && id in s.sched.flows && y == Next(s, StartFlow(id, now, t0))
    ensures JustStarted(y, id, now, t0) && y.workers == s.workers
    ensures y.sched.flows[id] == Started(s.sched.flows[id], now, t0)
  {
  }

  lemma StartOpensPeriod(first: System, before: seq<Event>, s: System, id: u32, now: u64, t0: u64)
    requires Initial(first) && Leads(first, before, s) && id in s.sched.flows
    ensures var y := Next(s, StartFlow(id, now, t0));
            && JustStarted(y, id, now, t0) && y.workers == s.workers
            && y.sched.flows[id] == Started(s.sched.flows[id], now, t0)
  {
    ReachableHealthy(first, before, s);
    HealthyStart(s, id, now, t0, Next(s, StartFlow(id, now, t0)));
  }

  /** The nominal bound of a period opened by a start, beyond the grants in flight. */
  function Nominal(pps: u64, elapsed: nat): nat {
    BurstFor(pps) + Owed(pps, elapsed)
  }

  lemma CoveredIsNominal(y: System, id: u32, now: u64, t0: u64, es: seq<Event>, t: nat)
    requires JustStarted(y, id, now, t0) && t0 <= t && Covered(y, es, id, y.sched.flows[id].spec.pps, t0, t)
    ensures |FramesOf(y, es, id)| <= Pending(y.workers, id) + Nominal(y.sched.flows[id].spec.pps, t - t0)
  {
  }

  lemma PeriodBound(y: System, id: u32, now: u64, t0: u64, es: seq<Event>, t: nat)
    requires JustStarted(y, id, now, t0) && t0 <= t && Period(y, es, id, t)
    ensures |FramesOf(y, es, id)| <= Pending(y.workers, id) + Nominal(y.sched.flows[id].spec.pps, t - t0)
  {
    PeriodPotential(y, es, id, t);
    CoveredIsNominal(y, id, now, t0, es, t);
  }

  /** The rate bound end to end: over every interleaving of any number of workers with control calls and
      receptions, what a flow gets built after a start is at most the grants that were in flight at
      the start, plus the burst, plus the rate's worth of the bucket's clock since. */
  lemma EndToEndRateBound(first: System, before: seq<Event>, s: System, id: u32, now: u64, t0: u64, es: seq<Event>,
                          t: nat)
    requires Initial(first) && Leads(first, before, s) && id in s.sched.flows && t0 <= t
    requires Period(Next(s, StartFlow(id, now, t0)), es, id, t)
    ensures |FramesOf(Next(s, StartFlow(id, now, t0)), es, id)|
            <= Pending(s.workers, id) + Nominal(s.sched.flows[id].spec.pps, t - t0)
  {
    StartOpensPeriod(first, before, s, id, now, t0);
    PeriodBound(Next(s, StartFlow(id, now, t0)), id, now, t0, es, t);
  }

  // ---------------------------------------------------------------- the counters

  function TotalLength(fs: seq<seq<u8>>): nat {
    if fs == [] then 0 else |fs[0]| + TotalLength(fs[1..])
  }

  ghost predicate NeverReplaced(es: seq<Event>, id: u32) {
    forall i :: 0 <= i < |es| ==> !Replaces(es[i], id)
  }

  ghost predicate Counts(f: Flow, g: Flow, fs: seq<seq<u8>>) {
    && g.packetsSent == (f.packetsSent + |fs|) % TWO_64
    && g.bytesSent == (f.bytesSent + TotalLength(fs)) % TWO_64
  }

  lemma CountsNothing(f: Flow, g: Flow)
    requires f.packetsSent == g.packetsSent && f.bytesSent == g.bytesSent
    ensures Counts(f, g, [])
  {
  }

  lemma PollCounts(s: System, e: Event, id: u32)
    requires Enabled(s, e) && e.Poll? && id in s.sched.flows
    ensures id in Next(s, e).sched.flows && Counts(s.sched.flows[id], Next(s, e).sched.flows[id], FramesBy(s, e, id))
  {
    PollPending(s, e, id);
    CountsNothing(s.sched.flows[id], Next(s, e).sched.flows[id]);
  }

  lemma ShapeCounts(f: Flow, b: Build)
    requires Shaped(f, b)
    ensures Counts(f, b.flow, [b.frame])
  {
    var g :| b == Build.Build(ChargedFor(f, g), Outgoing(f, g));
    assert TotalLength([b.frame]) == |b.frame| + TotalLength([]);
  }

  lemma AttemptCounts(f: Flow, d: Draw, room: nat)
    ensures var a := Attempt(f, d, room);
            a.Some? ==> Counts(f, a.value.flow, [a.value.frame])
  {
    AttemptShaped(f, d, room);
    if Attempt(f, d, room).Some? {
      ShapeCounts(f, Attempt(f, d, room).value);
    }
  }

  lemma StepOfBuild(flows: map<u32, Flow>, free: set<nat>, ready: u32, d: Draw, room: nat, id: u32)
    requires id in flows
    ensures var t := Step(flows, free, ready, d, room);
            id in t.flows
            && Counts(flows[id], t.flows[id],
                      if t.slot.Some? && t.slot.value.flow == id then [t.slot.value.frame] else [])
  {
    CountsNothing(flows[id], flows[id]);
    AttemptCounts(flows[id], d, room);
  }

  lemma BuildCounts(s: System, e: Event, id: u32)
    requires Enabled(s, e) && e.Build? && id in s.sched.flows
    ensures id in Next(s, e).sched.flows && Counts(s.sched.flows[id], Next(s, e).sched.flows[id], FramesBy(s, e, id))
  {
    CountsNothing(s.sched.flows[id], s.sched.flows[id]);
    StepOfBuild(s.sched.flows, s.free, s.workers[e.w].ready[0], e.d, s.room, id);
  }

  lemma OtherCounts(s: System, e: Event, id: u32)
    requires Enabled(s, e) && !e.Poll? && !e.Build? && !Replaces(e, id) && id in s.sched.flows
    requires id in Next(s, e).sched.flows
    ensures FramesBy(s, e, id) == [] && Counts(s.sched.flows[id], Next(s, e).sched.flows[id], [])
  {
    if e.ReceiveBatch? {
      ReceiveAllOnlyHears(Rx(s.sched, s.free, [], 0), e.batch, 0, e.now);
    }
    CountsNothing(s.sched.flows[id], Next(s, e).sched.flows[id]);
  }

  lemma StepCounts(s: System, e: Event, id: u32)
    requires Enabled(s, e) && !Replaces(e, id) && id in s.sched.flows && id in Next(s, e).sched.flows
    ensures Counts(s.sched.flows[id], Next(s, e).sched.flows[id], FramesBy(s, e, id))
  {
    if e.Poll? {
      PollCounts(s, e, id);
    } else if e.Build? {
      BuildCounts(s, e, id);
    } else {
      OtherCounts(s, e, id);
    }
  }

  /** The flow's own counters count exactly the frames built for it, and their bytes, modulo 2^64. */
  lemma {:induction false} CountersCountFrames(s: System, es: seq<Event>, z: System, id: u32)
    requires Leads(s, es, z) && NeverReplaced(es, id) && id in s.sched.flows && id in z.sched.flows
    ensures Counts(s.sched.flows[id], z.sched.flows[id], FramesOf(s, es, id))
    decreases |es|
  {
    if es == [] {
      CountsNothing(s.sched.flows[id], s.sched.flows[id]);
    } else {
      var y := Next(s, es[0]);
      if id !in y.sched.flows {
        AbsentAtEnd(y, es[1..], z, id);
      }
      StepCounts(s, es[0], id);
      CountersCountFrames(y, es[1..], z, id);
      CountOn(s.sched.flows[id], y.sched.flows[id], z.sched.flows[id], FramesBy(s, es[0], id),
              FramesOf(y, es[1..], id));
    }
  }

  lemma CountOn(f: Flow, g: Flow, h: Flow, a: seq<seq<u8>>, b: seq<seq<u8>>)
    requires Counts(f, g, a) && Counts(g, h, b)
    ensures Counts(f, h, a + b)
  {
    SumModMod(f.packetsSent + |a|, |b|);
    SumModMod(f.bytesSent + TotalLength(a), TotalLength(b));
    LengthsAdd(a, b);
  }

  lemma {:induction false} LengthsAdd(a: seq<seq<u8>>, b: seq<seq<u8>>)
    ensures TotalLength(a + b) == TotalLength(a) + TotalLength(b)
  {
    if a == [] {
      assert a + b == b;
    } else {
      AppendParts(a, b);
      LengthsAdd(a[1..], b);
    }
  }

  lemma {:induction false} AbsentAtEnd(s: System, es: seq<Event>, z: System, id: u32)
    requires Leads(s, es, z) && NeverReplaced(es, id) && id !in s.sched.flows
    ensures id !in z.sched.flows
    decreases |es|
  {
    if es != [] {
      AbsentStaysAbsent(s, es[0], id);
      AbsentAtEnd(Next(s, es[0]), es[1..], z, id);
    }
  }

  lemma {:induction false} PeriodNeverReplaces(s: System, es: seq<Event>, id: u32, t: nat)
    requires Period(s, es, id, t)
    ensures NeverReplaced(es, id)
    decreases |es|
  {
    if es != [] {
      PeriodNeverReplaces(Next(s, es[0]), es[1..], id, t);
      forall i | 0 <= i < |es| ensures !Replaces(es[i], id) {
        if i > 0 { assert es[i] == es[1..][i - 1]; }
      }
    }
  }

  lemma SentInPeriod(y: System, id: u32, es: seq<Event>, z: System, t: nat)
    requires Period(y, es, id, t) && Leads(y, es, z) && id in y.sched.flows && id in z.sched.flows
    ensures (z.sched.flows[id].packetsSent - y.sched.flows[id].packetsSent) % TWO_64 <= |FramesOf(y, es, id)|
  {
    PeriodNeverReplaces(y, es, id, t);
    SentByFrames(y, es, z, id, FramesOf(y, es, id));
  }

  lemma SentByFrames(y: System, es: seq<Event>, z: System, id: u32, fs: seq<seq<u8>>)
    requires Leads(y, es, z) && NeverReplaced(es, id) && id in y.sched.flows && id in z.sched.flows
    requires fs == FramesOf(y, es, id)
    ensures (z.sched.flows[id].packetsSent - y.sched.flows[id].packetsSent) % TWO_64 <= |fs|
  {
    CountersCountFrames(y, es, z, id);
    CountedRise(y.sched.flows[id], z.sched.flows[id], fs);
  }

  lemma SentBound(y: System, id: u32, now: u64, t0: u64, es: seq<Event>, z: System, t: nat)
    requires JustStarted(y, id, now, t0) && t0 <= t && Period(y, es, id, t)
    requires Leads(y, es, z) && id in z.sched.flows
    ensures (z.sched.flows[id].packetsSent - y.sched.flows[id].packetsSent) % TWO_64
            <= Pending(y.workers, id) + Nominal(y.sched.flows[id].spec.pps, t - t0)
  {
    PeriodBound(y, id, now, t0, es, t);
    SentInPeriod(y, id, es, z, t);
  }

  lemma SentFrom(f: Flow, held: nat, id: u32, now: u64, t0: u64, y: System, es: seq<Event>, z: System, t: nat)
    requires JustStarted(y, id, now, t0) && t0 <= t && Period(y, es, id, t) && Leads(y, es, z) && id in z.sched.flows
    requires y.sched.flows[id] == Started(f, now, t0) && held == Pending(y.workers, id)
    ensures (z.sched.flows[id].packetsSent - f.packetsSent) % TWO_64 <= held + Nominal(f.spec.pps, t - t0)
  {
    SentBound(y, id, now, t0, es, z, t);
  }

  /** The same bound on the flow's `packets_sent`: what it has risen by since the start, modulo 2^64. `f` is the flow
      and `held` its grants in flight before the start, `y` the state right after it. */
  lemma SentSinceStart(first: System, before: seq<Event>, s: System, id: u32, f: Flow, held: nat, now: u64, t0: u64,
                       y: System, es: seq<Event>, z: System, t: nat)
    requires Initial(first) && Leads(first, before, s) && id in s.sched.flows && t0 <= t
    requires f == s.sched.flows[id] && held == Pending(s.workers, id)
    requires y == Next(s, StartFlow(id, now, t0)) && Period(y, es, id, t) && Leads(y, es, z) && id in z.sched.flows
    ensures (z.sched.flows[id].packetsSent - f.packetsSent) % TWO_64 <= held + Nominal(f.spec.pps, t - t0)
  {
    StartOpensPeriod(first, before, s, id, now, t0);
    SentFrom(f, held, id, now, t0, y, es, z, t);
  }

  lemma CountedRise(f: Flow, g: Flow, fs: seq<seq<u8>>)
    requires Counts(f, g, fs)
    ensures (g.packetsSent - f.packetsSent) % TWO_64 <= |fs|
  {
    Rise(f.packetsSent, g.packetsSent, |fs|);
  }

  lemma Rise(a: nat, b: nat, n: nat)
    requires b == (a + n) % TWO_64
    ensures (b - a) % TWO_64 <= n
  {
    var q := (a + n) / TWO_64;
    assert b - a == n - TWO_64 * q;
    assert (b - a) % TWO_64 == n % TWO_64;
    ModAtMost(n, TWO_64);
  }

  // ---------------------------------------------------------------- durations

  /** Every poll makes one reading, used for expiry and charging alike, and the clock does not go back
      behind `from`. */
  ghost predicate OneReading(es: seq<Event>, from: nat) {
    forall i :: 0 <= i < |es| && es[i].Poll? ==>
      from <= es[i].now && forall k :: 0 <= k < |es[i].ticks| ==> es[i].ticks[k] == es[i].now
  }

  ghost predicate AllPossible(s: System, es: seq<Event>, id: u32)
    decreases |es|
  {
    es == [] || (Enabled(s, es[0]) && Uninterrupted(es[0], id) && AllPossible(Next(s, es[0]), es[1..], id))
  }

  lemma StartKept(s: System, e: Event, id: u32)
    requires Enabled(s, e) && Uninterrupted(e, id) && id in s.sched.flows && id in Next(s, e).sched.flows
    ensures Next(s, e).sched.flows[id].startTime == s.sched.flows[id].startTime
  {
    if e.Poll? {
      PollPending(s, e, id);
    } else if e.ReceiveBatch? {
      ReceiveAllOnlyHears(Rx(s.sched, s.free, [], 0), e.batch, 0, e.now);
    }
  }

  /** A flow with a duration is charged only before it ends. */
  lemma {:induction false} ChargedBeforeExpiry(s: System, es: seq<Event>, id: u32, from: u64, d: u32, end: nat)
    requires AllPossible(s, es, id) && OneReading(es, from) && from > 0 && d > 0 && end == from + d * NANOS - 1
    requires id in s.sched.flows ==> s.sched.flows[id].startTime == from && s.sched.flows[id].spec.duration == d
    ensures Period(s, es, id, end)
    decreases |es|
  {
    if es != [] {
      var z := Next(s, es[0]);
      if id in s.sched.flows && id in z.sched.flows {
        StartKept(s, es[0], id);
        RateKept(s, es[0], id);
      } else if id !in s.sched.flows {
        AbsentStaysAbsent(s, es[0], id);
      }
      assert OneReading(es[1..], from);
      ChargedBeforeExpiry(z, es[1..], id, from, d, end);
    }
  }

  lemma NominalOfDuration(y: System, id: u32, now: u64, es: seq<Event>, end: nat)
    requires JustStarted(y, id, now, now) && y.sched.flows[id].spec.duration > 0 && y.sched.flows[id].spec.pps > 0
    requires end == now + y.sched.flows[id].spec.duration * NANOS - 1 && Period(y, es, id, end)
    ensures var spec := y.sched.flows[id].spec;
            |FramesOf(y, es, id)| <= Pending(y.workers, id) + spec.pps / 10 + spec.pps * spec.duration
  {
    var spec := y.sched.flows[id].spec;
    PeriodBound(y, id, now, now, es, end);
    OwedWithin(|FramesOf(y, es, id)|, Pending(y.workers, id), spec.pps, spec.duration, now, end);
  }

  lemma DurationPeriod(y: System, id: u32, now: u64, es: seq<Event>, end: nat)
    requires JustStarted(y, id, now, now) && now > 0 && y.sched.flows[id].spec.duration > 0
    requires end == now + y.sched.flows[id].spec.duration * NANOS - 1
    requires AllPossible(y, es, id) && OneReading(es, now)
    ensures Period(y, es, id, end)
  {
    ChargedBeforeExpiry(y, es, id, now, y.sched.flows[id].spec.duration, end);
  }

  /** With one clock reading per poll, a flow of duration d > 0 started at a reading after the clock's
      origin gets at most pps / 10 + pps * d frames per start, beyond the grants in flight. */
  lemma DurationBound(first: System, before: seq<Event>, s: System, id: u32, now: u64, es: seq<Event>)
    requires Initial(first) && Leads(first, before, s) && id in s.sched.flows
    requires s.sched.flows[id].spec.duration > 0 && s.sched.flows[id].spec.pps > 0 && now > 0
    requires AllPossible(Next(s, StartFlow(id, now, now)), es, id) && OneReading(es, now)
    ensures var spec := s.sched.flows[id].spec;
            |FramesOf(Next(s, StartFlow(id, now, now)), es, id)|
            <= Pending(s.workers, id) + spec.pps / 10 + spec.pps * spec.duration
  {
    StartOpensPeriod(first, before, s, id, now, now);
    var end := now + s.sched.flows[id].spec.duration * NANOS - 1;
    DurationPeriod(Next(s, StartFlow(id, now, now)), id, now, es, end);
    NominalOfDuration(Next(s, StartFlow(id, now, now)), id, now, es, end);
  }

  lemma OwedWithin(n: nat, held: nat, pps: u64, d: nat, from: nat, to: nat)
    requires pps > 0 && d > 0 && to == from + d * NANOS - 1
    requires n <= held + Nominal(pps, to - from)
    ensures n <= held + pps / 10 + pps * d
  {
    OwedMonotone(pps, d * NANOS - 1, d * NANOS);
    assert pps * (d * NANOS) == (pps * d) * NANOS;
  }

  /** A flow of rate zero gets its 1000 tokens per start, however long it runs. */
  lemma RateZeroBound(first: System, before: seq<Event>, s: System, id: u32, now: u64, t0: u64, es: seq<Event>)
    requires Initial(first) && Leads(first, before, s) && id in s.sched.flows && s.sched.flows[id].spec.pps == 0
    requires AllPossible(Next(s, StartFlow(id, now, t0)), es, id)
    ensures |FramesOf(Next(s, StartFlow(id, now, t0)), es, id)| <= Pending(s.workers, id) + 1000
  {
    AnyRunIsAPeriod(Next(s, StartFlow(id, now, t0)), es, id);
    EndToEndRateBound(first, before, s, id, now, t0, es, TWO_64);
  }

  lemma {:induction false} AnyRunIsAPeriod(s: System, es: seq<Event>, id: u32)
    requires AllPossible(s, es, id)
    ensures Period(s, es, id, TWO_64)
    decreases |es|
  {
    if es != [] {
      AnyRunIsAPeriod(Next(s, es[0]), es[1..], id);
    }
  }
}
