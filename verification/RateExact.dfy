/** When the nominal rate bound holds without a term for grants in flight: exactly when no worker holds a
    grant of the flow at the start. The other direction builds a run that breaks it. */
module RateExactness {
  import opened Words
  import opened TokenBuckets
  import opened FlowSchedulers
  import opened Workers
  import opened Pipelines
  import opened RateBounds

  // ---------------------------------------------------------------- what every reachable worker holds

  /** Grants and frames together never exceed the burst size. */
  ghost predicate Bounded(s: System) {
    forall w :: 0 <= w < |s.workers| ==>
      |s.workers[w].ready| + |s.workers[w].burst| <= if s.burstSize == 0 then 1 else s.burstSize
  }

  lemma StepKeepsBounded(s: System, e: Event)
    requires Enabled(s, e) && Bounded(s)
    ensures Bounded(Next(s, e))
  {
    if e.Poll? {
      ReadyLoopCap(s.sched.flows, e.order, 0, e.now, e.ticks, s.burstSize, []);
    }
  }

  lemma {:induction false} ReachableBounded(s: System, es: seq<Event>, z: System)
    requires Bounded(s) && Leads(s, es, z)
    ensures Bounded(z)
    decreases |es|
  {
    if es != [] {
      StepKeepsBounded(s, es[0]);
      ReachableBounded(Next(s, es[0]), es[1..], z);
    }
  }

  // ---------------------------------------------------------------- composing runs

  lemma Joined(s: System, es: seq<Event>, y: System, fs: seq<Event>, z: System, id: u32, t: nat)
    requires Leads(s, es, y) && Leads(y, fs, z) && Period(s, es, id, t) && Period(y, fs, id, t)
    ensures Leads(s, es + fs, z) && Period(s, es + fs, id, t)
    ensures FramesOf(s, es + fs, id) == FramesOf(s, es, id) + FramesOf(y, fs, id)
  {
    LeadsAppend(s, es, y, fs, z);
    PeriodAppend(s, es, y, fs, id, t);
    FramesAppend(s, es, y, fs, id);
  }

  lemma {:induction false} PeriodAppend(s: System, es: seq<Event>, y: System, fs: seq<Event>, id: u32, t: nat)
    requires Leads(s, es, y) && Period(s, es, id, t) && Period(y, fs, id, t)
    ensures Period(s, es + fs, id, t)
    decreases |es|
  {
    if es == [] {
      assert es + fs == fs;
    } else {
      AppendParts(es, fs);
      PeriodAppend(Next(s, es[0]), es[1..], y, fs, id, t);
    }
  }

  lemma OneEvent(s: System, e: Event, z: System, id: u32, t: nat)
    requires Enabled(s, e) && z == Next(s, e) && Uninterrupted(e, id) && ReadsBy(s, e, id, t)
    ensures Leads(s, [e], z) && Period(s, [e], id, t) && FramesOf(s, [e], id) == FramesBy(s, e, id)
  {
    assert [e][0] == e && [e][1..] == [];
  }

  // ---------------------------------------------------------------- serving a grant

  /** A worker's pass with no buffer to be had drops the grants before position `n`. */
  lemma {:induction false} SkipGrants(s: System, w: nat, n: nat, id: u32, t: nat) returns (es: seq<Event>, z: System)
    requires w < |s.workers| && n <= |s.workers[w].ready| && (n > 0 ==> |s.workers[w].burst| < s.burstSize)
    ensures Leads(s, es, z) && FramesOf(s, es, id) == [] && Period(s, es, id, t)
    ensures z == s.(workers := s.workers[w := s.workers[w].(ready := s.workers[w].ready[n..])])
    decreases n
  {
    var me := s.workers[w];
    if n == 0 {
      es, z := [], s;
      assert s.workers[w := me.(ready := me.ready[0..])] == s.workers;
    } else {
      var e := Event.Build(w, Draw(None, None, 0, 0));
      var y := Next(s, e);
      assert y == s.(workers := s.workers[w := me.(ready := me.ready[1..])]);
      var fs;
      fs, z := SkipGrants(y, w, n - 1, id, t);
      es := [e] + fs;
      assert es[0] == e && es[1..] == fs;
      assert me.ready[1..][n - 1..] == me.ready[n..];
    }
  }

  /** The environment's side: flow `id` runs since `now` with a bucket stamped `t0` that holds `tokens`,
      a buffer is free for the draw, and the frame fits. */
  ghost predicate Runs(s: System, id: u32, d: Draw, now: u64, t0: u64, tokens: nat) {
    && s.burstSize > 0 && id in s.sched.flows && ImixContract(d.imixSize)
    && d.handle.Some? && d.handle.value in s.free
    && var f := s.sched.flows[id];
       && f.active && f.startTime == now && f.bucket.last == t0 && f.bucket.tokens == tokens
       && CanBuild(f, ChosenSize(f.spec, d.imixSize), s.room)
  }

  ghost predicate Idle(s: System, w: nat) {
    w < |s.workers| && s.workers[w].ready == [] && s.workers[w].burst == []
  }

  /** A worker whose first grant is the flow's builds a frame for it. */
  lemma BuildFirst(s: System, w: nat, id: u32, d: Draw, now: u64, t0: u64, tokens: nat) returns (z: System)
    requires Runs(s, id, d, now, t0, tokens) && w < |s.workers|
    requires s.workers[w].ready != [] && s.workers[w].ready[0] == id && |s.workers[w].burst| < s.burstSize
    ensures Enabled(s, Event.Build(w, d)) && z == Next(s, Event.Build(w, d))
    ensures |FramesBy(s, Event.Build(w, d), id)| == 1
    ensures w < |z.workers| && z.workers[w].ready == s.workers[w].ready[1..]
    ensures |z.workers[w].burst| == |s.workers[w].burst| + 1
    ensures z.workers[w].burst[|s.workers[w].burst|].handle == d.handle.value
    ensures Runs(z.(free := z.free + {d.handle.value}), id, d, now, t0, tokens) && z.burstSize == s.burstSize
  {
    z := Next(s, Event.Build(w, d));
  }

  /** Sending a burst leaves the worker idle; a buffer of the burst can come back to the pool. */
  lemma SendAll(s: System, w: nat, id: u32, h: nat, t: nat) returns (es: seq<Event>, z: System)
    requires w < |s.workers| && s.workers[w].ready == [] && 0 < |s.workers[w].burst| < TWO_16
    requires exists k :: 0 <= k < |s.workers[w].burst| && s.workers[w].burst[k].handle == h
    ensures Leads(s, es, z) && FramesOf(s, es, id) == [] && Period(s, es, id, t)
    ensures Idle(z, w) && h in z.free && z.sched == s.sched && z.room == s.room && z.burstSize == s.burstSize
  {
    var me := s.workers[w];
    var e := Send(w, |me.burst|);
    var y := Next(s, e);
    assert me.burst[..|me.burst|] == me.burst;
    assert h in y.sending;
    z := Next(y, NicReleases(h));
    OneEvent(s, e, y, id, t);
    OneEvent(y, NicReleases(h), z, id, t);
    Joined(s, [e], y, [NicReleases(h)], z, id, t);
    es := [e] + [NicReleases(h)];
  }

  /** A worker holding a grant of a running flow can be led to build one frame for it and be idle again,
      with the flow running on unchanged tokens. */
  lemma ServeGrant(s: System, w: nat, id: u32, d: Draw, now: u64, t0: u64, tokens: nat, t: nat)
    returns (es: seq<Event>, z: System)
    requires Runs(s, id, d, now, t0, tokens) && w < |s.workers| && id in s.workers[w].ready
    requires |s.workers[w].ready| + |s.workers[w].burst| <= s.burstSize
    ensures Leads(s, es, z) && |FramesOf(s, es, id)| == 1 && Period(s, es, id, t)
    ensures Runs(z, id, d, now, t0, tokens) && Idle(z, w)
  {
    var k :| 0 <= k < |s.workers[w].ready| && s.workers[w].ready[k] == id;
    var a, y1 := SkipGrants(s, w, k, id, t);
    var y2 := BuildFirst(y1, w, id, d, now, t0, tokens);
    var e := Event.Build(w, d);
    var b, y3 := SkipGrants(y2, w, |y2.workers[w].ready|, id, t);
    var c, y4 := SendAll(y3, w, id, d.handle.value, t);
    OneEvent(y1, e, y2, id, t);
    Joined(s, a, y1, [e], y2, id, t);
    Joined(s, a + [e], y2, b, y3, id, t);
    Joined(s, a + [e] + b, y3, c, y4, id, t);
    es, z := a + [e] + b + c, y4;
  }

  // ---------------------------------------------------------------- draining the bucket

  lemma {:induction false} ListingOf(ids: set<u32>) returns (order: seq<u32>)
    ensures IsListing(order, ids)
    decreases |ids|
  {
    if ids == {} {
      order := [];
    } else {
      var id :| id in ids;
      var rest := ListingOf(ids - {id});
      order := [id] + rest;
    }
  }

  function Readings(n: nat, t: u64): (ticks: seq<u64>)
    ensures |ticks| == n && forall k :: 0 <= k < n ==> ticks[k] == t
  {
    seq(n, _ => t)
  }

  /** Polled first and at the start's own readings, a running flow with a token is granted it. */
  lemma FirstPolled(flows: map<u32, Flow>, order: seq<u32>, id: u32, now: u64, t0: u64, max: nat)
    requires IsListing(order, flows.Keys) && order != [] && order[0] == id && max > 0
    requires flows[id].active && flows[id].startTime == now && flows[id].bucket.last == t0
    requires flows[id].bucket.tokens > 0
    ensures var r, f := ReadyLoop(flows, order, 0, now, Readings(|order|, t0), max, []), flows[id];
            && id in r.ids && id in r.flows && r.flows[id] == f.(bucket := f.bucket.(tokens := f.bucket.tokens - 1))
  {
    var ticks, f := Readings(|order|, t0), flows[id];
    var p := PollFlow(f, now, t0);
    assert p == Polled(f.(bucket := f.bucket.(tokens := f.bucket.tokens - 1)), true, false);
    ReadyLoopStep(flows, order, 0, now, ticks, max, [], p);
    assert [] + [id] == [id] && Times([id], id) == 1;
    if max > 1 {
      ReadyLoopKeeps(flows[id := p.flow], order, 1, now, ticks, max, [id], id);
    }
  }

  lemma PollGrants(s: System, w: nat, id: u32, d: Draw, now: u64, t0: u64, tokens: nat) returns (e: Event, z: System)
    requires Runs(s, id, d, now, t0, tokens) && tokens > 0 && Idle(s, w)
    ensures Enabled(s, e) && e.Poll? && z == Next(s, e) && ReadsBy(s, e, id, t0)
    ensures Runs(z, id, d, now, t0, tokens - 1)
    ensures w < |z.workers| && id in z.workers[w].ready && |z.workers[w].ready| + |z.workers[w].burst| <= z.burstSize
  {
    var rest := ListingOf(s.sched.flows.Keys - {id});
    var order := [id] + rest;
    e := Event.Poll(w, order, now, Readings(|order|, t0));
    z := Next(s, e);
    FirstPolled(s.sched.flows, order, id, now, t0, s.burstSize);
    ReadyLoopCap(s.sched.flows, order, 0, now, Readings(|order|, t0), s.burstSize, []);
  }

  /** Polling and serving again and again turns every token of the bucket into a frame. */
  lemma {:induction false} DrainBucket(s: System, w: nat, id: u32, d: Draw, now: u64, t0: u64, tokens: nat)
    returns (es: seq<Event>, z: System)
    requires Runs(s, id, d, now, t0, tokens) && Idle(s, w)
    ensures Leads(s, es, z) && Period(s, es, id, t0) && |FramesOf(s, es, id)| == tokens
    decreases tokens
  {
    if tokens == 0 {
      es, z := [], s;
    } else {
      var e, y1 := PollGrants(s, w, id, d, now, t0, tokens);
      var a, y2 := ServeGrant(y1, w, id, d, now, t0, tokens - 1, t0);
      var b;
      b, z := DrainBucket(y2, w, id, d, now, t0, tokens - 1);
      OneEvent(s, e, y1, id, t0);
      Joined(s, [e], y1, a, y2, id, t0);
      Joined(s, [e] + a, y2, b, z, id, t0);
      es := [e] + a + b;
    }
  }

  // ---------------------------------------------------------------- the exact condition

  lemma {:induction false} HolderOf(ws: seq<WorkerState>, id: u32) returns (w: nat)
    requires Pending(ws, id) > 0
    ensures w < |ws| && id in ws[w].ready
  {
    if id in ws[0].ready {
      w := 0;
    } else {
      var v := HolderOf(ws[1..], id);
      w := v + 1;
    }
  }

  /** A grant in flight at the start becomes a frame on top of the whole burst, in no time at all. */
  lemma InFlightBreaksBound(y: System, id: u32, d: Draw, now: u64, t0: u64, burst: nat) returns (es: seq<Event>)
    requires Runs(y, id, d, now, t0, burst) && Bounded(y) && Pending(y.workers, id) > 0
    ensures Period(y, es, id, t0) && |FramesOf(y, es, id)| == burst + 1
  {
    var w := HolderOf(y.workers, id);
    var a, y1 := ServeGrant(y, w, id, d, now, t0, burst, t0);
    var b, z := DrainBucket(y1, w, id, d, now, t0, burst);
    Joined(y, a, y1, b, z, id, t0);
    es := a + b;
  }

  /** The nominal bound holds for every continuation. */
  ghost predicate NominalAlways(y: System, id: u32, pps: u64, t0: u64) {
    forall es, t :: t0 <= t && Period(y, es, id, t) ==> |FramesOf(y, es, id)| <= Nominal(pps, t - t0)
  }

  /** Where a buffer is free and the frame fits: after a start the flow's frames stay within burst plus
      rate times time in every continuation if and only if no worker held a grant of it at the start. */
  lemma NominalBoundIff(first: System, before: seq<Event>, s: System, id: u32, d: Draw, now: u64, t0: u64)
    requires Initial(first) && Leads(first, before, s) && id in s.sched.flows
    requires s.burstSize > 0 && ImixContract(d.imixSize) && d.handle.Some? && d.handle.value in s.free
    requires CanBuild(s.sched.flows[id], ChosenSize(s.sched.flows[id].spec, d.imixSize), s.room)
    ensures NominalAlways(Next(s, StartFlow(id, now, t0)), id, s.sched.flows[id].spec.pps, t0)
            <==> Pending(s.workers, id) == 0
  {
    var y, pps := Next(s, StartFlow(id, now, t0)), s.sched.flows[id].spec.pps;
    if Pending(s.workers, id) == 0 {
      forall es, t | t0 <= t && Period(y, es, id, t) ensures |FramesOf(y, es, id)| <= Nominal(pps, t - t0) {
        EndToEndRateBound(first, before, s, id, now, t0, es, t);
      }
    } else {
      ReachableBounded(first, before, s);
      StartOpensPeriod(first, before, s, id, now, t0);
      var es := InFlightBreaksBound(y, id, d, now, t0, BurstFor(pps));
      assert Owed(pps, t0 - t0) == 0;
      assert |FramesOf(y, es, id)| > Nominal(pps, t0 - t0);
    }
  }

  // ---------------------------------------------------------------- progress

  /** A flow of the table with an empty bucket that can hold nothing, and no grant in flight. */
  ghost predicate Starved(s: System, id: u32) {
    Pending(s.workers, id) == 0
    && (id in s.sched.flows ==> s.sched.flows[id].bucket.burst == 0 && s.sched.flows[id].bucket.tokens == 0)
  }

  lemma StaysStarved(s: System, e: Event, id: u32)
    requires Enabled(s, e) && Uninterrupted(e, id) && Starved(s, id)
    ensures Starved(Next(s, e), id) && FramesBy(s, e, id) == []
  {
    if id !in s.sched.flows {
      AbsentStaysStarved(s, e, id);
    } else if e.Poll? {
      PollPending(s, e, id);
      ChargeNothing(s.sched.flows[id], Next(s, e).sched.flows[id], e.now, e.order, e.ticks, id,
                    Pending(Next(s, e).workers, id) - Pending(s.workers, id));
    } else if e.Build? {
      BuildPending(s, e, id);
      BuildKeepsBucket(s, e, id);
    } else {
      OtherPotential(s, e, id);
    }
  }

  lemma AbsentStaysStarved(s: System, e: Event, id: u32)
    requires Enabled(s, e) && Uninterrupted(e, id) && Starved(s, id) && id !in s.sched.flows
    ensures Starved(Next(s, e), id) && FramesBy(s, e, id) == []
  {
    AbsentStaysAbsent(s, e, id);
    if e.Poll? {
      var r := ReadyLoop(s.sched.flows, e.order, 0, e.now, e.ticks, s.burstSize, []);
      ReadyLoopGrants(s.sched.flows, e.order, 0, e.now, e.ticks, s.burstSize, []);
      PendingUpdate(s.workers, e.w, s.workers[e.w].(ready := r.ids), id);
      assert id !in r.ids;
    } else if e.Build? {
      BuildPending(s, e, id);
    } else if e.Send? {
      PendingUpdate(s.workers, e.w, s.workers[e.w].(burst := []), id);
    }
  }

  lemma ChargeNothing(f: Flow, g: Flow, now: u64, order: seq<u32>, ticks: seq<u64>, id: u32, grants: int)
    requires |order| == |ticks| && ChargedOnce(f, g, now, order, ticks, id, grants)
    requires f.bucket.burst == 0 && f.bucket.tokens == 0
    ensures grants == 0 && g.bucket.burst == 0 && g.bucket.tokens == 0
  {
    if g != f || grants != 0 {
      var k :| 0 <= k < |order| && order[k] == id && g == PollFlow(f, now, ticks[k]).flow
               && grants == (if PollFlow(f, now, ticks[k]).granted then 1 else 0);
      StepFacts(f.bucket, ticks[k], 1);
    }
  }

  lemma {:induction false} StarvedGetsNothing(s: System, es: seq<Event>, id: u32)
    requires Starved(s, id) && AllPossible(s, es, id)
    ensures FramesOf(s, es, id) == []
    decreases |es|
  {
    if es != [] {
      StaysStarved(s, es[0], id);
      StarvedGetsNothing(Next(s, es[0]), es[1..], id);
    }
  }

  ghost predicate CanBeServed(y: System, id: u32) {
    exists es :: AllPossible(y, es, id) && FramesOf(y, es, id) != []
  }

  lemma {:induction false} PeriodIsPossible(s: System, es: seq<Event>, id: u32, t: nat)
    requires Period(s, es, id, t)
    ensures AllPossible(s, es, id)
    decreases |es|
  {
    if es != [] {
      PeriodIsPossible(Next(s, es[0]), es[1..], id, t);
    }
  }

  /** Progress end to end: a flow started with no grant in flight can ever get a frame if and only if its
      rate is not in 1..9, given an idle worker, a free buffer and a frame that fits. */
  lemma ProgressIff(first: System, before: seq<Event>, s: System, id: u32, w: nat, d: Draw, now: u64, t0: u64)
    requires Initial(first) && Leads(first, before, s) && id in s.sched.flows && Pending(s.workers, id) == 0
    requires Idle(s, w)
    requires s.burstSize > 0 && ImixContract(d.imixSize) && d.handle.Some? && d.handle.value in s.free
    requires CanBuild(s.sched.flows[id], ChosenSize(s.sched.flows[id].spec, d.imixSize), s.room)
    ensures CanBeServed(Next(s, StartFlow(id, now, t0)), id) <==> !(1 <= s.sched.flows[id].spec.pps <= 9)
  {
    var y, pps := Next(s, StartFlow(id, now, t0)), s.sched.flows[id].spec.pps;
    StartOpensPeriod(first, before, s, id, now, t0);
    if 1 <= pps <= 9 {
      forall es | AllPossible(y, es, id) ensures FramesOf(y, es, id) == [] {
        StarvedGetsNothing(y, es, id);
      }
    } else {
      var es, z := DrainBucket(y, w, id, d, now, t0, BurstFor(pps));
      PeriodIsPossible(y, es, id, t0);
    }
  }

  /** A start is worth a tenth of a second of frames at once, or 1000 at rate zero: an idle worker with a free
      buffer and frames that fit can build exactly that many at the start's own reading. */
  lemma BurstIsServed(first: System, before: seq<Event>, s: System, id: u32, w: nat, d: Draw, now: u64, t0: u64)
    returns (es: seq<Event>)
    requires Initial(first) && Leads(first, before, s) && id in s.sched.flows && Idle(s, w)
    requires s.burstSize > 0 && ImixContract(d.imixSize) && d.handle.Some? && d.handle.value in s.free
    requires CanBuild(s.sched.flows[id], ChosenSize(s.sched.flows[id].spec, d.imixSize), s.room)
    ensures Period(Next(s, StartFlow(id, now, t0)), es, id, t0)
    ensures var pps := s.sched.flows[id].spec.pps;
            |FramesOf(Next(s, StartFlow(id, now, t0)), es, id)| == if pps > 0 then pps / 10 else 1000
  {
    var y, pps := Next(s, StartFlow(id, now, t0)), s.sched.flows[id].spec.pps;
    StartOpensPeriod(first, before, s, id, now, t0);
    var z;
    es, z := DrainBucket(y, w, id, d, now, t0, BurstFor(pps));
  }
}
