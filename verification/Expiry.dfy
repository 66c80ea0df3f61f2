/** How long a started flow runs: exactly until a look at it at or after its end, and what that is worth in
    frames. The deadline is written out, in nanoseconds, as a reference for the scheduler's expiry test. */
module Expiries {
  import opened Words
  import opened TokenBuckets
  import opened FlowSchedulers
  import opened Workers
  import opened Pipelines
  import opened RateBounds
  import opened Restarts
  import opened RateFloors

  /** The flow is neither replaced, removed, started nor stopped. */
  predicate Undisturbed(e: Event, id: u32) {
    Uninterrupted(e, id) && !(e.StopFlow? && e.id == id) && !(e.RemoveFlow? && e.id == id) && !e.ClearFlows?
  }

  ghost predicate UndisturbedRun(s: System, es: seq<Event>, id: u32)
    decreases |es|
  {
    es == [] || (Enabled(s, es[0]) && Undisturbed(es[0], id) && UndisturbedRun(Next(s, es[0]), es[1..], id))
  }

  /** No poll reads the clock before `from`. */
  ghost predicate NotBefore(es: seq<Event>, from: nat) {
    forall i :: 0 <= i < |es| && es[i].Poll? ==> from <= es[i].now
  }

  /** The event is a poll whose ready loop gets to the flow. */
  ghost predicate Looks(s: System, e: Event, id: u32)
    requires Enabled(s, e)
  {
    e.Poll? && exists k: nat :: At(s, e, id, k)
  }

  /** Some look of the run comes at the deadline or later. */
  ghost predicate LateLook(s: System, es: seq<Event>, id: u32, deadline: nat)
    decreases |es|
  {
    es != [] && Enabled(s, es[0])
    && ((Looks(s, es[0], id) && es[0].now >= deadline) || LateLook(Next(s, es[0]), es[1..], id, deadline))
  }

  /** The end of a flow started at `now`, if it has one: a duration of 0, like a start at the clock's origin, means
      that it has none. */
  function Deadline(spec: FlowSpec, now: u64): Option<nat> {
    if spec.duration == 0 || now == 0 then None else Some(now + spec.duration * 1_000_000_000)
  }

  // ---------------------------------------------------------------- one event

  /** What a look leaves of the flow. */
  lemma LookedAt(s: System, e: Event, id: u32, k: nat)
    requires Enabled(s, e) && e.Poll? && id in s.sched.flows && At(s, e, id, k)
    ensures id in Next(s, e).sched.flows
    ensures Next(s, e).sched.flows[id] == PollFlow(s.sched.flows[id], e.now, e.ticks[k]).flow
  {
    ReachedOnce(s.sched.flows, e.order, 0, e.now, e.ticks, s.burstSize, [], id, k);
  }

  lemma NotLookedAt(s: System, e: Event, id: u32)
    requires Enabled(s, e) && e.Poll? && id in s.sched.flows && !Looks(s, e, id)
    ensures id in Next(s, e).sched.flows && Next(s, e).sched.flows[id] == s.sched.flows[id]
  {
    forall k | 0 <= k < Reach(s.sched.flows, e.order, 0, e.now, e.ticks, s.burstSize, []) ensures e.order[k] != id {
      assert !At(s, e, id, k);
    }
    NotReached(s.sched.flows, e.order, 0, e.now, e.ticks, s.burstSize, [], id);
  }

  /** A running flow with its settings. */
  ghost predicate Running(s: System, id: u32, spec: FlowSpec, now: u64) {
    id in s.sched.flows && s.sched.flows[id].active && s.sched.flows[id].startTime == now
    && s.sched.flows[id].spec == spec
  }

  lemma ExpiredAt(f: Flow, now: u64)
    requires f.startTime <= now
    ensures Expired(f, now) <==> Deadline(f.spec, f.startTime).Some? && now >= Deadline(f.spec, f.startTime).value
  {
    var elapsed := now - f.startTime;
    assert elapsed % TWO_64 == elapsed;
  }

  lemma LookEnds(s: System, e: Event, id: u32, spec: FlowSpec, now: u64)
    requires Enabled(s, e) && Looks(s, e, id) && Running(s, id, spec, now) && now <= e.now
    ensures var end := Deadline(spec, now);
            if end.Some? && e.now >= end.value then id in Next(s, e).sched.flows && !Next(s, e).sched.flows[id].active
            else Running(Next(s, e), id, spec, now)
  {
    var k: nat :| At(s, e, id, k);
    LookedAt(s, e, id, k);
    ExpiredAt(s.sched.flows[id], e.now);
  }

  lemma OthersKeepRunning(s: System, e: Event, id: u32, spec: FlowSpec, now: u64)
    requires Enabled(s, e) && Undisturbed(e, id) && Running(s, id, spec, now) && !e.Poll?
    ensures Running(Next(s, e), id, spec, now)
  {
    if e.ReceiveBatch? {
      ReceiveAllOnlyHears(Rx(s.sched, s.free, [], 0), e.batch, 0, e.now);
    }
  }

  /** One undisturbed event ends the flow exactly if it is a look at the deadline or later. */
  lemma StepEnds(s: System, e: Event, id: u32, spec: FlowSpec, now: u64)
    requires Enabled(s, e) && Undisturbed(e, id) && Running(s, id, spec, now) && (e.Poll? ==> now <= e.now)
    ensures var end := Deadline(spec, now);
            if Looks(s, e, id) && end.Some? && e.now >= end.value
            then id in Next(s, e).sched.flows && !Next(s, e).sched.flows[id].active
            else Running(Next(s, e), id, spec, now)
  {
    if !e.Poll? {
      OthersKeepRunning(s, e, id, spec, now);
    } else if Looks(s, e, id) {
      LookEnds(s, e, id, spec, now);
    } else {
      NotLookedAt(s, e, id);
    }
  }

  lemma StaysThere(s: System, e: Event, id: u32)
    requires Enabled(s, e) && Undisturbed(e, id) && id in s.sched.flows
    ensures id in Next(s, e).sched.flows
  {
    if !TableEvent(e) {
      OtherEventsKeepTable(s, e);
    }
  }

  lemma {:induction false} EndedStays(s: System, es: seq<Event>, z: System, id: u32)
    requires UndisturbedRun(s, es, id) && Leads(s, es, z) && id in s.sched.flows && !s.sched.flows[id].active
    ensures id in z.sched.flows && !z.sched.flows[id].active
    decreases |es|
  {
    if es != [] {
      StaysThere(s, es[0], id);
      StaysStopped(s, es[0], id);
      EndedStays(Next(s, es[0]), es[1..], z, id);
    }
  }

  // ---------------------------------------------------------------- whole runs

  lemma {:induction false} RunsUntilDeadline(s: System, es: seq<Event>, z: System, id: u32, spec: FlowSpec, now: u64)
    requires UndisturbedRun(s, es, id) && Leads(s, es, z) && NotBefore(es, now) && Running(s, id, spec, now)
    ensures id in z.sched.flows
    ensures z.sched.flows[id].active
            <==> Deadline(spec, now).None? || !LateLook(s, es, id, Deadline(spec, now).value)
    decreases |es|
  {
    if es != [] {
      var y := Next(s, es[0]);
      StepEnds(s, es[0], id, spec, now);
      assert NotBefore(es[1..], now);
      if y.sched.flows[id].active {
        RunsUntilDeadline(y, es[1..], z, id, spec, now);
      } else {
        EndedStays(y, es[1..], z, id);
      }
    }
  }

  lemma StartRuns(s: System, id: u32, now: u64, t0: u64)
    requires id in s.sched.flows
    ensures Running(Next(s, StartFlow(id, now, t0)), id, s.sched.flows[id].spec, now)
  {
  }

  lemma DeadlineIs(spec: FlowSpec, now: u64, end: nat)
    requires now > 0 && end == now + spec.duration * 1_000_000_000
    ensures Deadline(spec, now) == if spec.duration == 0 then None else Some(end)
  {
  }

  /** A flow started at a reading after the clock's origin and left alone is active if and only if it has no duration
      or no poll has looked at it at `end`, the start plus the duration, or later: it ends no earlier and no later. */
  lemma ActiveUntilDeadline(s: System, id: u32, now: u64, t0: u64, y: System, es: seq<Event>, z: System, end: nat)
    requires id in s.sched.flows && now > 0 && y == Next(s, StartFlow(id, now, t0))
    requires end == now + s.sched.flows[id].spec.duration * 1_000_000_000
    requires UndisturbedRun(y, es, id) && Leads(y, es, z) && NotBefore(es, now)
    ensures id in z.sched.flows
    ensures z.sched.flows[id].active <==> s.sched.flows[id].spec.duration == 0 || !LateLook(y, es, id, end)
  {
    StartRuns(s, id, now, t0);
    DeadlineIs(s.sched.flows[id].spec, now, end);
    RunsUntilDeadline(y, es, z, id, s.sched.flows[id].spec, now);
  }

  // ---------------------------------------------------------------- frames of a flow with a duration

  /** The looks at a flow, with the readings its bucket is offered. */
  ghost function LooksBy(s: System, e: Event, id: u32): seq<TokenBuckets.Poll>
    requires Enabled(s, e)
  {
    if Looks(s, e, id) then
      var k: nat :| At(s, e, id, k);
      [TokenBuckets.Poll(e.ticks[k], 1)]
    else []
  }

  ghost function LooksOf(s: System, es: seq<Event>, id: u32): seq<TokenBuckets.Poll>
    decreases |es|
  {
    if es == [] || !Enabled(s, es[0]) then [] else LooksBy(s, es[0], id) + LooksOf(Next(s, es[0]), es[1..], id)
  }

  lemma OnePlace(s: System, e: Event, id: u32, j: nat, k: nat)
    requires Enabled(s, e) && e.Poll? && At(s, e, id, j) && At(s, e, id, k)
    ensures j == k
  {
  }

  /** A look at a running flow before its deadline polls its bucket. */
  lemma EarlyLookPolls(s: System, e: Event, id: u32, spec: FlowSpec, now: u64)
    requires Enabled(s, e) && Running(s, id, spec, now) && (e.Poll? ==> now <= e.now)
    requires Looks(s, e, id) && Deadline(spec, now).Some? ==> e.now < Deadline(spec, now).value
    ensures PollsBy(s, e, id) == LooksBy(s, e, id)
  {
    if Looks(s, e, id) {
      ExpiredAt(s.sched.flows[id], e.now);
      var j: nat :| At(s, e, id, j);
      forall k: nat | At(s, e, id, k) ensures k == j {
        OnePlace(s, e, id, j, k);
      }
    }
  }

  lemma {:induction false} EarlyLooksPoll(s: System, es: seq<Event>, id: u32, spec: FlowSpec, now: u64)
    requires UndisturbedRun(s, es, id) && NotBefore(es, now) && Running(s, id, spec, now)
    requires Deadline(spec, now).Some? ==> !LateLook(s, es, id, Deadline(spec, now).value)
    ensures PollsOf(s, es, id) == LooksOf(s, es, id)
    decreases |es|
  {
    if es != [] {
      StepEnds(s, es[0], id, spec, now);
      EarlyLookPolls(s, es[0], id, spec, now);
      assert NotBefore(es[1..], now);
      EarlyLooksPoll(Next(s, es[0]), es[1..], id, spec, now);
    }
  }

  lemma {:induction false} UndisturbedIsPossible(s: System, es: seq<Event>, id: u32)
    requires UndisturbedRun(s, es, id)
    ensures AllPossible(s, es, id)
    decreases |es|
  {
    if es != [] {
      UndisturbedIsPossible(Next(s, es[0]), es[1..], id);
    }
  }

  /** Looked at once per token's time up to its deadline, with one clock for starting and charging, no grant dropped
      and the workers idle in the end, a flow started for the first time gets at least half of rate times duration,
      less half a frame. `DurationBound` is the other side. */
  lemma DurationFloor(first: System, before: seq<Event>, s: System, id: u32, spec: FlowSpec, now: u64, y: System,
                      es: seq<Event>, z: System, a: Account, end: nat)
    requires Initial(first) && Leads(first, before, s) && NeverStarted(before, id)
    requires id in s.sched.flows && spec == s.sched.flows[id].spec && spec.pps >= 10 && spec.duration > 0 && now > 0
    requires y == Next(s, StartFlow(id, now, now)) && UndisturbedRun(y, es, id) && Leads(y, es, z) && NotBefore(es, now)
    requires id in z.sched.flows && id in y.sched.flows && a == AccountOf(y, es, z, id) && a.drops == 0
    requires forall w :: 0 <= w < |z.workers| ==> z.workers[w].ready == []
    requires end == now + spec.duration * 1_000_000_000 && !LateLook(y, es, id, end)
    requires Frequent(LooksOf(y, es, id), now, spec.pps) && ReachesEnd(LooksOf(y, es, id), now, spec)
    ensures spec.pps * spec.duration <= 2 * a.frames + 1 && a.frames == |FramesOf(y, es, id)|
  {
    StartRuns(s, id, now, now);
    DeadlineIs(spec, now, end);
    EarlyLooksPoll(y, es, id, spec, now);
    UndisturbedIsPossible(y, es, id);
    ServedForDuration(first, before, s, id, spec, now, y, es, z, a);
  }

  lemma ServedForDuration(first: System, before: seq<Event>, s: System, id: u32, spec: FlowSpec, now: u64, y: System,
                          es: seq<Event>, z: System, a: Account)
    requires Initial(first) && Leads(first, before, s) && NeverStarted(before, id)
    requires id in s.sched.flows && spec == s.sched.flows[id].spec && spec.pps >= 10
    requires y == Next(s, StartFlow(id, now, now)) && AllPossible(y, es, id) && Leads(y, es, z)
    requires id in z.sched.flows && id in y.sched.flows && a == AccountOf(y, es, z, id) && a.drops == 0
    requires forall w :: 0 <= w < |z.workers| ==> z.workers[w].ready == []
    requires Frequent(PollsOf(y, es, id), now, spec.pps) && ReachesEnd(PollsOf(y, es, id), now, spec)
    ensures spec.pps * spec.duration <= 2 * a.frames + 1 && a.frames == |FramesOf(y, es, id)|
  {
    StartOpensPeriod(first, before, s, id, now, now);
    AccountOfStart(y, id, now, es, z, a);
    FirstStartGetsHalf(first, before, s, id, now, now, y, es, z, a);
    HalfOfDuration(a, spec, now);
  }

  /** The last look comes within a token's time of the end. */
  ghost predicate ReachesEnd(ps: seq<TokenBuckets.Poll>, now: u64, spec: FlowSpec) {
    spec.pps * (now + spec.duration * 1_000_000_000 - LastReading(ps, now)) <= 1_000_000_000
  }

  lemma AccountOfStart(y: System, id: u32, now: u64, es: seq<Event>, z: System, a: Account)
    requires JustStarted(y, id, now, now) && a == AccountOf(y, es, z, id)
    ensures a.from == now && a.polls == PollsOf(y, es, id) && a.rate == y.sched.flows[id].spec.pps
    ensures a.frames == |FramesOf(y, es, id)|
  {
  }

  lemma HalfOfDuration(a: Account, spec: FlowSpec, now: u64)
    requires FramesAtLeastHalf(a) && a.rate == spec.pps && a.from == now && ReachesEnd(a.polls, now, spec)
    ensures spec.pps * spec.duration <= 2 * a.frames + 1
  {
    var r := LastReading(a.polls, now);
    SpanOf(spec.pps, now, r, now + spec.duration * 1_000_000_000);
    assert spec.pps * (spec.duration * 1_000_000_000) == (spec.pps * spec.duration) * 1_000_000_000;
  }

  lemma SpanOf(rate: nat, a: int, b: int, c: int)
    ensures rate * (c - a) == rate * (b - a) + rate * (c - b)
  {
  }
}
