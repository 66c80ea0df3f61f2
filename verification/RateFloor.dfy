/** The other side of the rate bounds: what a flow is served at least. Every token its bucket hands out over a
    period is a frame, a dropped grant, or a grant still held, and frequent polls get half of the rate. */
module RateFloors {
  import opened Words
  import opened TokenBuckets
  import opened FlowSchedulers
  import opened Workers
  import opened Pipelines
  import opened RateBounds
  import opened Restarts

  // ---------------------------------------------------------------- the polls of one flow

  /** Where the ready loop stops: the positions before have been looked at. */
  function Reach(flows: map<u32, Flow>, order: seq<u32>, i: nat, now: u64, ticks: seq<u64>, max: nat,
                 ids: seq<u32>): (n: nat)
    requires i <= |order| == |ticks| && forall id :: id in order ==> id in flows
    ensures i <= n <= |order|
    decreases |order| - i
  {
    if i == |order| then i
    else
      var p := PollFlow(flows[order[i]], now, ticks[i]);
      var ids' := if p.granted then ids + [order[i]] else ids;
      if !p.passedOver && |ids'| >= max then i + 1
      else Reach(flows[order[i] := p.flow], order, i + 1, now, ticks, max, ids')
  }

  lemma {:induction false} NotReached(flows: map<u32, Flow>, order: seq<u32>, i: nat, now: u64, ticks: seq<u64>,
                                      max: nat, ids: seq<u32>, id: u32)
    requires i <= |order| == |ticks| && (forall j :: j in order ==> j in flows) && id in flows
    requires forall k :: i <= k < Reach(flows, order, i, now, ticks, max, ids) ==> order[k] != id
    ensures var r := ReadyLoop(flows, order, i, now, ticks, max, ids);
            id in r.flows && r.flows[id] == flows[id] && Times(r.ids, id) == Times(ids, id)
    decreases |order| - i
  {
    if i < |order| {
      var p := PollFlow(flows[order[i]], now, ticks[i]);
      var flows', ids' := flows[order[i] := p.flow], if p.granted then ids + [order[i]] else ids;
      assert Times(ids + [order[i]], id) == Times(ids, id) + if order[i] == id then 1 else 0;
      if p.passedOver || |ids'| < max {
        NotReached(flows', order, i + 1, now, ticks, max, ids', id);
      }
    }
  }

  lemma {:induction false} ReachedOnce(flows: map<u32, Flow>, order: seq<u32>, i: nat, now: u64, ticks: seq<u64>,
                                       max: nat, ids: seq<u32>, id: u32, k: nat)
    requires i <= |order| == |ticks| && (forall j :: j in order ==> j in flows) && id in flows
    requires forall j, l :: 0 <= j < l < |order| ==> order[j] != order[l]
    requires i <= k < Reach(flows, order, i, now, ticks, max, ids) && order[k] == id
    ensures var r, p := ReadyLoop(flows, order, i, now, ticks, max, ids), PollFlow(flows[id], now, ticks[k]);
            id in r.flows && r.flows[id] == p.flow && Times(r.ids, id) == Times(ids, id) + if p.granted then 1 else 0
    decreases |order| - i
  {
    var p := PollFlow(flows[order[i]], now, ticks[i]);
    var flows', ids' := flows[order[i] := p.flow], if p.granted then ids + [order[i]] else ids;
    assert Times(ids + [order[i]], id) == Times(ids, id) + if order[i] == id then 1 else 0;
    if p.passedOver || |ids'| < max {
      if k == i {
        ReadyLoopKeeps(flows', order, i + 1, now, ticks, max, ids', id);
      } else {
        ReachedOnce(flows', order, i + 1, now, ticks, max, ids', id, k);
      }
    }
  }

  /** The loop looks at every flow unless its list is full. */
  lemma {:induction false} LooksAtAllUnlessFull(flows: map<u32, Flow>, order: seq<u32>, i: nat, now: u64,
                                                ticks: seq<u64>, max: nat, ids: seq<u32>)
    requires i <= |order| == |ticks| && forall id :: id in order ==> id in flows
    ensures |ReadyLoop(flows, order, i, now, ticks, max, ids).ids| < max ==>
              Reach(flows, order, i, now, ticks, max, ids) == |order|
    decreases |order| - i
  {
    if i < |order| {
      var p := PollFlow(flows[order[i]], now, ticks[i]);
      var ids' := if p.granted then ids + [order[i]] else ids;
      if p.passedOver || |ids'| < max {
        LooksAtAllUnlessFull(flows[order[i] := p.flow], order, i + 1, now, ticks, max, ids');
      }
    }
  }

  /** The poll of the flow's bucket that an event makes, if it makes one. */
  ghost function PollsBy(s: System, e: Event, id: u32): seq<TokenBuckets.Poll>
    requires Enabled(s, e)
  {
    if e.Poll? && id in s.sched.flows && s.sched.flows[id].active && !Expired(s.sched.flows[id], e.now)
       && exists k: nat :: At(s, e, id, k)
    then
      var k: nat :| At(s, e, id, k);
      [TokenBuckets.Poll(e.ticks[k], 1)]
    else []
  }

  /** The ready loop reaches the flow at position `k`. */
  ghost predicate At(s: System, e: Event, id: u32, k: nat)
    requires Enabled(s, e) && e.Poll?
  {
    k < Reach(s.sched.flows, e.order, 0, e.now, e.ticks, s.burstSize, []) && e.order[k] == id
  }

  ghost function PollsOf(s: System, es: seq<Event>, id: u32): seq<TokenBuckets.Poll>
    decreases |es|
  {
    if es == [] || !Enabled(s, es[0]) then [] else PollsBy(s, es[0], id) + PollsOf(Next(s, es[0]), es[1..], id)
  }

  /** Grants of the flow that an event drops: the rest of the list behind a full burst, or one whose flow is gone or
      stopped, finds no buffer, or does not fit. */
  ghost function DropsBy(s: System, e: Event, id: u32): nat
    requires Enabled(s, e)
  {
    if !e.Build? then 0
    else if |s.workers[e.w].burst| >= s.burstSize then Times(s.workers[e.w].ready, id)
    else if s.workers[e.w].ready[0] == id && FramesBy(s, e, id) == [] then 1 else 0
  }

  ghost function DropsOf(s: System, es: seq<Event>, id: u32): nat
    decreases |es|
  {
    if es == [] || !Enabled(s, es[0]) then 0 else DropsBy(s, es[0], id) + DropsOf(Next(s, es[0]), es[1..], id)
  }

  // ---------------------------------------------------------------- one event

  /** Bucket and grants move together: the polls are the bucket's, and what they hand out is accounted for. */
  ghost predicate Served(f: Bucket, g: Bucket, ps: seq<TokenBuckets.Poll>, frames: nat, drops: nat, held: nat,
                         left: nat)
  {
    g == After(f, ps) && frames + drops + left == held + Handed(f, ps)
  }

  lemma NoPoll(f: Bucket, held: nat)
    ensures Served(f, f, [], 0, 0, held, held)
  {
  }

  lemma OnePoll(f: Bucket, tick: u64, held: nat, left: nat)
    requires left == held + if Granted(f, tick, 1) > 0 then 1 else 0
    ensures Served(f, Consume(f, tick, 1), [TokenBuckets.Poll(tick, 1)], 0, 0, held, left)
  {
    var ps := [TokenBuckets.Poll(tick, 1)];
    assert ps[1..] == [];
    assert After(Consume(f, tick, 1), []) == Consume(f, tick, 1) && Handed(Consume(f, tick, 1), []) == 0;
  }

  lemma ServedOn(f: Bucket, g: Bucket, h: Bucket, ps: seq<TokenBuckets.Poll>, qs: seq<TokenBuckets.Poll>,
                 a: nat, b: nat, m: nat, n: nat, held: nat, next: nat, left: nat)
    requires Served(f, g, ps, a, m, held, next) && Served(g, h, qs, b, n, next, left)
    ensures Served(f, h, ps + qs, a + b, m + n, held, left)
  {
    AfterConcat(f, ps, qs);
  }

  lemma {:induction false} AfterConcat(b: Bucket, ps: seq<TokenBuckets.Poll>, qs: seq<TokenBuckets.Poll>)
    ensures After(b, ps + qs) == After(After(b, ps), qs)
    ensures Handed(b, ps + qs) == Handed(b, ps) + Handed(After(b, ps), qs)
    decreases |ps|
  {
    if ps == [] {
      assert ps + qs == qs;
    } else {
      AppendParts(ps, qs);
      AfterConcat(Consume(b, ps[0].now, ps[0].requested), ps[1..], qs);
    }
  }

  lemma LoopServes(flows: map<u32, Flow>, order: seq<u32>, now: u64, ticks: seq<u64>, max: nat, id: u32,
                   ps: seq<TokenBuckets.Poll>, held: nat)
    requires IsListing(order, flows.Keys) && |ticks| == |order| && id in flows
    requires var n := Reach(flows, order, 0, now, ticks, max, []);
             if flows[id].active && !Expired(flows[id], now) && exists k :: 0 <= k < n && order[k] == id
             then exists k :: 0 <= k < n && order[k] == id && ps == [TokenBuckets.Poll(ticks[k], 1)] else ps == []
    ensures var r := ReadyLoop(flows, order, 0, now, ticks, max, []);
            id in r.flows && Served(flows[id].bucket, r.flows[id].bucket, ps, 0, 0, held, held + Times(r.ids, id))
  {
    var n := Reach(flows, order, 0, now, ticks, max, []);
    assert Times([], id) == 0;
    if exists k :: 0 <= k < n && order[k] == id {
      var k :| 0 <= k < n && order[k] == id && (ps != [] ==> ps == [TokenBuckets.Poll(ticks[k], 1)]);
      ReachedOnce(flows, order, 0, now, ticks, max, [], id, k);
      if ps == [] {
        NoPoll(flows[id].bucket, held);
      } else {
        OnePoll(flows[id].bucket, ticks[k], held,
                held + Times(ReadyLoop(flows, order, 0, now, ticks, max, []).ids, id));
      }
    } else {
      NotReached(flows, order, 0, now, ticks, max, [], id);
      NoPoll(flows[id].bucket, held);
    }
  }

  lemma PollServes(s: System, e: Event, id: u32, z: System)
    requires Enabled(s, e) && e.Poll? && id in s.sched.flows && z == Next(s, e)
    ensures id in z.sched.flows && FramesBy(s, e, id) == []
    ensures Served(s.sched.flows[id].bucket, z.sched.flows[id].bucket, PollsBy(s, e, id), 0, 0,
                   Pending(s.workers, id), Pending(z.workers, id))
  {
    var r := ReadyLoop(s.sched.flows, e.order, 0, e.now, e.ticks, s.burstSize, []);
    PollIsReached(s, e, id);
    LoopServes(s.sched.flows, e.order, e.now, e.ticks, s.burstSize, id, PollsBy(s, e, id), Pending(s.workers, id));
    PendingUpdate(s.workers, e.w, s.workers[e.w].(ready := r.ids), id);
    assert Times([], id) == 0;
  }

  lemma PollIsReached(s: System, e: Event, id: u32)
    requires Enabled(s, e) && e.Poll? && id in s.sched.flows
    ensures var n, f := Reach(s.sched.flows, e.order, 0, e.now, e.ticks, s.burstSize, []), s.sched.flows[id];
            if f.active && !Expired(f, e.now) && exists k :: 0 <= k < n && e.order[k] == id
            then exists k :: 0 <= k < n && e.order[k] == id && PollsBy(s, e, id) == [TokenBuckets.Poll(e.ticks[k], 1)]
            else PollsBy(s, e, id) == []
  {
    var n := Reach(s.sched.flows, e.order, 0, e.now, e.ticks, s.burstSize, []);
    if j :| 0 <= j < n && e.order[j] == id {
      assert At(s, e, id, j);
    }
  }

  lemma BuildServes(s: System, e: Event, id: u32)
    requires Enabled(s, e) && e.Build?
    ensures |FramesBy(s, e, id)| + DropsBy(s, e, id) + Pending(Next(s, e).workers, id) == Pending(s.workers, id)
  {
    var me, z := s.workers[e.w], Next(s, e);
    PendingUpdate(s.workers, e.w, z.workers[e.w], id);
    TimesOfRest(me.ready, id);
    assert Times([], id) == 0;
  }

  lemma EventServes(s: System, e: Event, id: u32, z: System)
    requires Enabled(s, e) && Uninterrupted(e, id) && z == Next(s, e) && id in s.sched.flows && id in z.sched.flows
    ensures Served(s.sched.flows[id].bucket, z.sched.flows[id].bucket, PollsBy(s, e, id), |FramesBy(s, e, id)|,
                   DropsBy(s, e, id), Pending(s.workers, id), Pending(z.workers, id))
  {
    if e.Poll? {
      PollServes(s, e, id, z);
    } else if e.Build? {
      BuildServes(s, e, id);
      BuildKeepsBucket(s, e, id);
    } else {
      OtherPotential(s, e, id);
    }
  }

  // ---------------------------------------------------------------- a whole period

  lemma {:induction false} NeverReplacedIn(s: System, es: seq<Event>, id: u32)
    requires AllPossible(s, es, id)
    ensures NeverReplaced(es, id)
    decreases |es|
  {
    if es != [] {
      NeverReplacedIn(Next(s, es[0]), es[1..], id);
      forall i | 0 <= i < |es| ensures !Replaces(es[i], id) {
        if i > 0 { assert es[i] == es[1..][i - 1]; }
      }
    }
  }

  /** Over every period of a flow, however workers interleave: its bucket is the sequential bucket after the polls the
      run made of it, and every token handed out, like every grant held at the beginning, is a frame, a dropped
      grant, or still held. */
  lemma {:induction false} TokensBecomeFrames(s: System, es: seq<Event>, z: System, id: u32)
    requires AllPossible(s, es, id) && Leads(s, es, z) && id in s.sched.flows && id in z.sched.flows
    ensures Served(s.sched.flows[id].bucket, z.sched.flows[id].bucket, PollsOf(s, es, id), |FramesOf(s, es, id)|,
                   DropsOf(s, es, id), Pending(s.workers, id), Pending(z.workers, id))
    decreases |es|
  {
    if es == [] {
      NoPoll(s.sched.flows[id].bucket, Pending(s.workers, id));
    } else {
      var y := Next(s, es[0]);
      if id !in y.sched.flows {
        NeverReplacedIn(y, es[1..], id);
        AbsentAtEnd(y, es[1..], z, id);
      }
      EventServes(s, es[0], id, y);
      TokensBecomeFrames(y, es[1..], z, id);
      FramesUnfold(s, es, id);
      ServedOn(s.sched.flows[id].bucket, y.sched.flows[id].bucket, z.sched.flows[id].bucket,
               PollsBy(s, es[0], id), PollsOf(y, es[1..], id), |FramesBy(s, es[0], id)|, |FramesOf(y, es[1..], id)|,
               DropsBy(s, es[0], id), DropsOf(y, es[1..], id),
               Pending(s.workers, id), Pending(y.workers, id), Pending(z.workers, id));
    }
  }

  // ---------------------------------------------------------------- at least half the rate

  /** What a period comes to for one flow: its rate, its bucket's stamp at the beginning, the polls of the bucket, the
      frames built, the grants dropped, and the grants held at the beginning and at the end. */
  datatype Account = Account(rate: u64, from: u64, polls: seq<TokenBuckets.Poll>, frames: nat, drops: nat, held: nat,
                             left: nat)

  ghost function AccountOf(y: System, es: seq<Event>, z: System, id: u32): Account
    requires id in y.sched.flows
  {
    Account(y.sched.flows[id].bucket.rate, y.sched.flows[id].bucket.last, PollsOf(y, es, id), |FramesOf(y, es, id)|,
            DropsOf(y, es, id), Pending(y.workers, id), Pending(z.workers, id))
  }

  /** Polled at least once per token's time from the beginning on. */
  ghost predicate KeptUp(a: Account) {
    Frequent(a.polls, a.from, a.rate)
  }

  /** Up to the last poll, frames, drops and grants held, less those held at the beginning, are worth at least half of
      the rate, up to half a token. */
  predicate AtLeastHalf(a: Account) {
    a.rate * (LastReading(a.polls, a.from) - a.from) < 2 * NANOS * (a.frames + a.drops + a.left - a.held) + NANOS
  }

  /** The frames alone are. */
  predicate FramesAtLeastHalf(a: Account) {
    a.rate * (LastReading(a.polls, a.from) - a.from) < 2 * NANOS * a.frames + NANOS
  }

  lemma HalfOfServed(b: Bucket, g: Bucket, a: Account)
    requires Served(b, g, a.polls, a.frames, a.drops, a.held, a.left) && a.rate == b.rate && a.from == b.last
    requires b.rate > 0 && 0 < b.tokens == b.burst < TWO_64 - 1 && KeptUp(a)
    ensures AtLeastHalf(a)
  {
    FrequentPollsGetHalf(b, a.polls);
  }

  lemma ServedAccount(y: System, es: seq<Event>, z: System, id: u32, a: Account)
    requires AllPossible(y, es, id) && Leads(y, es, z) && id in y.sched.flows && id in z.sched.flows
    requires a == AccountOf(y, es, z, id)
    ensures Served(y.sched.flows[id].bucket, z.sched.flows[id].bucket, a.polls, a.frames, a.drops, a.held, a.left)
  {
    TokensBecomeFrames(y, es, z, id);
  }

  lemma HalfAfterStart(y: System, id: u32, now: u64, t0: u64, es: seq<Event>, z: System, a: Account)
    requires JustStarted(y, id, now, t0) && y.sched.flows[id].spec.pps >= 10
    requires AllPossible(y, es, id) && Leads(y, es, z) && id in z.sched.flows
    requires a == AccountOf(y, es, z, id) && KeptUp(a)
    ensures AtLeastHalf(a)
  {
    ServedAccount(y, es, z, id, a);
    HalfOfServed(y.sched.flows[id].bucket, z.sched.flows[id].bucket, a);
  }

  /** The lower bound end to end: whatever else the machine does, a flow of a rate that can be served and whose bucket
      is polled at least once per token's time since its start is granted at least half of its rate. `y` is the state
      right after the start. */
  lemma EndToEndRateFloor(first: System, before: seq<Event>, s: System, id: u32, now: u64, t0: u64, y: System,
                          es: seq<Event>, z: System, a: Account)
    requires Initial(first) && Leads(first, before, s) && id in s.sched.flows && s.sched.flows[id].spec.pps >= 10
    requires y == Next(s, StartFlow(id, now, t0)) && AllPossible(y, es, id) && Leads(y, es, z) && id in z.sched.flows
    requires a == AccountOf(y, es, z, id) && KeptUp(a)
    ensures a.rate == s.sched.flows[id].spec.pps && a.from == t0 && a.held == Pending(s.workers, id)
    ensures AtLeastHalf(a)
  {
    StartOpensPeriod(first, before, s, id, now, t0);
    HalfAfterStart(y, id, now, t0, es, z, a);
  }

  /** So a flow started for the first time, with no grant dropped and every worker idle in the end, has got frames for
      at least half of its rate, up to half a frame. */
  lemma FirstStartGetsHalf(first: System, before: seq<Event>, s: System, id: u32, now: u64, t0: u64, y: System,
                           es: seq<Event>, z: System, a: Account)
    requires Initial(first) && Leads(first, before, s) && NeverStarted(before, id)
    requires id in s.sched.flows && s.sched.flows[id].spec.pps >= 10
    requires y == Next(s, StartFlow(id, now, t0)) && AllPossible(y, es, id) && Leads(y, es, z) && id in z.sched.flows
    requires a == AccountOf(y, es, z, id) && KeptUp(a) && a.drops == 0
    requires forall w :: 0 <= w < |z.workers| ==> z.workers[w].ready == []
    ensures a.rate == s.sched.flows[id].spec.pps && a.from == t0 && a.frames == |FramesOf(y, es, id)|
    ensures FramesAtLeastHalf(a)
  {
    NoGrantBeforeFirstStart(first, before, s, id);
    NoneHeld(z.workers, id);
    EndToEndRateFloor(first, before, s, id, now, t0, y, es, z, a);
    NothingHeld(a);
  }

  lemma NothingHeld(a: Account)
    requires AtLeastHalf(a) && a.drops == a.held == a.left == 0
    ensures FramesAtLeastHalf(a)
  {
  }
}
