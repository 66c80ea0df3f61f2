/** Any number of worker threads calling `try_consume` on one bucket, interleaved at single loads,
    stores and compare-and-swap steps. With `guarded` the calls are made as `get_ready_flows` makes
    them, under the scheduler's mutex; without it the bare bucket is exercised.
    `polls` is a history variable: the calls in the order they took effect. */
module BucketThreads {
  import opened Words
  import opened TokenBuckets

  /** Program counter of a thread, with the locals that are live there. */
  datatype PC =
    | Idle
    | TakeBucketMutex(req: u32)
    | ReadClock(req: u32)
    | LoadStamp(req: u32, now: u64)
    | StampOnly(req: u32, now: u64)
    | LoadTokens(req: u32, now: u64, add: u64)
    | StoreTokens(req: u32, now: u64, total: u64)
    | StoreStamp(req: u32, now: u64)
    | DropBucketMutex(req: u32, now: u64)
    | LoadForConsume(req: u32, now: u64)
    | Swap(req: u32, now: u64, expected: u64)
    | Return(granted: u32)

  datatype State = State(
    guarded: bool,
    rate: u64, burst: u64, tokens: u64, stamp: u64, clock: u64,
    schedulerMutex: Option<nat>, bucketMutex: Option<nat>,
    threads: seq<PC>, handed: seq<nat>,
    polls: seq<Poll>)

  datatype Action = Tick(now: u64) | Call(thread: nat, req: u32) | Step(thread: nat)

  ghost predicate WellFormed(s: State) {
    |s.threads| == |s.handed|
  }

  predicate Enabled(s: State, a: Action) {
    match a
    case Tick(now) => s.clock <= now
    case Call(t, _) => t < |s.threads| && s.threads[t].Idle? && (s.guarded ==> s.schedulerMutex.None?)
    case Step(t) => t < |s.threads| && !s.threads[t].Idle? && (s.threads[t].TakeBucketMutex? ==> s.bucketMutex.None?)
  }

  function Goto(s: State, t: nat, pc: PC): State
    requires t < |s.threads|
  {
    s.(threads := s.threads[t := pc])
  }

  function Exec(s: State, a: Action): State
    requires WellFormed(s) && Enabled(s, a)
  {
    match a
    case Tick(now) => s.(clock := now)
    case Call(t, req) =>
      Goto(if s.guarded then s.(schedulerMutex := Some(t)) else s, t, TakeBucketMutex(req))
    case Step(t) =>
      match s.threads[t]
      case TakeBucketMutex(req) => Goto(s.(bucketMutex := Some(t)), t, ReadClock(req))
      case ReadClock(req) => Goto(s, t, LoadStamp(req, s.clock))
      case LoadStamp(req, now) =>
        if now <= s.stamp then Goto(s, t, DropBucketMutex(req, now))
        else if s.rate == 0 then Goto(s, t, StampOnly(req, now))
        else
          var add := Owed(s.rate, now - s.stamp) % TWO_64;
          Goto(s, t, if add > 0 then LoadTokens(req, now, add) else DropBucketMutex(req, now))
      case StampOnly(req, now) => Goto(s.(stamp := now), t, DropBucketMutex(req, now))
      case LoadTokens(req, now, add) => Goto(s, t, StoreTokens(req, now, Min((s.tokens + add) % TWO_64, s.burst)))
      case StoreTokens(req, now, v) => Goto(s.(tokens := v), t, StoreStamp(req, now))
      case StoreStamp(req, now) => Goto(s.(stamp := now), t, DropBucketMutex(req, now))
      case DropBucketMutex(req, now) => Goto(s.(bucketMutex := None), t, LoadForConsume(req, now))
      case LoadForConsume(req, now) =>
        if s.tokens == 0 then Goto(s.(polls := s.polls + [Poll(now, req)]), t, Return(0))
        else Goto(s, t, Swap(req, now, s.tokens))
      case Swap(req, now, expected) =>
        if s.tokens == expected then
          var consumed := Min(req, expected);
          Goto(s.(tokens := expected - consumed, polls := s.polls + [Poll(now, req)]), t, Return(consumed))
        else if s.tokens == 0 then Goto(s.(polls := s.polls + [Poll(now, req)]), t, Return(0))
        else Goto(s, t, Swap(req, now, s.tokens))
      case Return(granted) =>
        Goto(if s.guarded then s.(schedulerMutex := None) else s, t, Idle)
          .(handed := s.handed[t := s.handed[t] + granted])
  }

  /** Runs of the machine: each action is enabled where it happens. */
  ghost predicate Runs(s: State, acts: seq<Action>, z: State)
    requires WellFormed(s)
    decreases |acts|
  {
    if acts == [] then z == s
    else Enabled(s, acts[0]) && WellFormed(Exec(s, acts[0])) && Runs(Exec(s, acts[0]), acts[1..], z)
  }

  function Start(guarded: bool, rate: u64, burst: u64, now: u64, n: nat): (s: State)
    ensures WellFormed(s)
  {
    State(guarded, rate, burst, burst, now, now, None, None, seq(n, _ => Idle), seq(n, _ => 0), [])
  }

  // ---------------------------------------------------------------- the guarded machine

  /** What a thread between call and return has been granted but not yet returned with. */
  function Carried(pc: PC): nat {
    if pc.Return? then pc.granted else 0
  }

  function CarriedAll(ts: seq<PC>): nat {
    if ts == [] then 0 else Carried(ts[0]) + CarriedAll(ts[1..])
  }

  predicate InRefill(pc: PC) {
    pc.ReadClock? || pc.LoadStamp? || pc.StampOnly? || pc.LoadTokens? || pc.StoreTokens? || pc.StoreStamp?
    || pc.DropBucketMutex?
  }

  /** How the memory of the machine relates to the sequential bucket `b`, given where the holder of
      the scheduler mutex is. */
  predicate MemoryMatches(s: State, pc: PC, b: Bucket) {
    && s.rate == b.rate && s.burst == b.burst
    && match pc
       case Idle => s.tokens == b.tokens && s.stamp == b.last
       case TakeBucketMutex(_) => s.tokens == b.tokens && s.stamp == b.last
       case ReadClock(_) => s.tokens == b.tokens && s.stamp == b.last
       case LoadStamp(_, now) => s.tokens == b.tokens && s.stamp == b.last
       case StampOnly(_, now) =>
         s.tokens == b.tokens && s.stamp == b.last < now && b.rate == 0
       case LoadTokens(_, now, add) =>
         s.tokens == b.tokens && s.stamp == b.last < now && b.rate != 0 && add == Credit(b, now) > 0
       case StoreTokens(_, now, v) =>
         s.tokens == b.tokens && s.stamp == b.last
         && Refill(b, now) == b.(tokens := v, last := now)
       case StoreStamp(_, now) => s.stamp == b.last && Refill(b, now) == b.(tokens := s.tokens, last := now)
       case DropBucketMutex(_, now) => Refill(b, now) == b.(tokens := s.tokens, last := s.stamp)
       case LoadForConsume(_, now) => Refill(b, now) == b.(tokens := s.tokens, last := s.stamp)
       case Swap(_, now, expected) =>
         Refill(b, now) == b.(tokens := s.tokens, last := s.stamp) && 0 < expected == s.tokens
       case Return(_) => s.tokens == b.tokens && s.stamp == b.last
  }

  function HolderPC(s: State): PC {
    if s.schedulerMutex.Some? && s.schedulerMutex.value < |s.threads| then s.threads[s.schedulerMutex.value] else Idle
  }

  /** The clock reading the holder works with, once it has made one. */
  function Reading(pc: PC, clock: u64): u64 {
    if pc.Idle? || pc.TakeBucketMutex? || pc.ReadClock? || pc.Return? then clock else pc.now
  }

  /** Invariant of the guarded machine, relative to the bucket `b0` it started from: one thread at
      a time is past the scheduler mutex, memory is that of the sequential run of `polls`, and what
      was handed out is what that sequential run hands out. */
  ghost predicate Inv(s: State, b0: Bucket) {
    && WellFormed(s) && s.guarded
    && (forall t :: 0 <= t < |s.threads| && s.schedulerMutex != Some(t) ==> s.threads[t].Idle?)
    && (s.schedulerMutex.Some? ==> s.schedulerMutex.value < |s.threads| && !HolderPC(s).Idle?)
    && s.bucketMutex == (if InRefill(HolderPC(s)) then s.schedulerMutex else None)
    && MemoryMatches(s, HolderPC(s), After(b0, s.polls))
    && Sum(s.handed) + Carried(HolderPC(s)) == Handed(b0, s.polls)
    && Monotone(s.polls) && Within(s.polls, 0, Reading(HolderPC(s), s.clock))
    && Reading(HolderPC(s), s.clock) <= s.clock
  }

  lemma {:induction false} StartInv(rate: u64, burst: u64, now: u64, n: nat)
    ensures Inv(Start(true, rate, burst, now, n), Full(rate, burst, now))
  {
    ZeroSum(n);
  }

  lemma {:induction false} ZeroSum(n: nat)
    ensures Sum(seq(n, _ => 0)) == 0
  {
    if n > 0 {
      assert seq(n, _ => 0)[1..] == seq(n - 1, _ => 0);
      ZeroSum(n - 1);
    }
  }

  /** The steps at which a call takes effect. */
  lemma EffectStep(s: State, t: nat, b0: Bucket)
    requires Inv(s, b0) && Enabled(s, Step(t)) && (s.threads[t].LoadForConsume? || s.threads[t].Swap?)
    ensures Inv(Exec(s, Step(t)), b0)
  {
    var pc := s.threads[t];
    var b, z := After(b0, s.polls), Exec(s, Step(t));
    assert s.schedulerMutex == Some(t) && HolderPC(s) == pc && HolderPC(z) == z.threads[t];
    if z.polls != s.polls {
      var p := Poll(pc.now, pc.req);
      assert z.polls == s.polls + [p];
      AfterAppend(b0, s.polls, p);
      assert Carried(z.threads[t]) == Granted(b, p.now, p.requested);
    }
  }

  lemma RefillStep(s: State, t: nat, b0: Bucket)
    requires Inv(s, b0) && Enabled(s, Step(t))
    requires s.threads[t].TakeBucketMutex? || InRefill(s.threads[t])
    ensures Inv(Exec(s, Step(t)), b0)
  {
    var z := Exec(s, Step(t));
    assert s.schedulerMutex == Some(t) && HolderPC(s) == s.threads[t] && HolderPC(z) == z.threads[t];
    assert z.polls == s.polls && z.handed == s.handed && z.clock == s.clock;
    assert Carried(HolderPC(s)) == Carried(HolderPC(z)) == 0;
    RefillMatches(s, t, After(b0, s.polls));
  }

  lemma RefillMatches(s: State, t: nat, b: Bucket)
    requires WellFormed(s) && Enabled(s, Step(t)) && MemoryMatches(s, s.threads[t], b)
    requires s.threads[t].TakeBucketMutex? || InRefill(s.threads[t])
    ensures MemoryMatches(Exec(s, Step(t)), Exec(s, Step(t)).threads[t], b)
  {
  }

  lemma ReturnStep(s: State, t: nat, b0: Bucket)
    requires Inv(s, b0) && Enabled(s, Step(t)) && s.threads[t].Return?
    ensures Inv(Exec(s, Step(t)), b0)
  {
    assert s.schedulerMutex == Some(t) && HolderPC(s) == s.threads[t];
    SumUpdate(s.handed, t, s.handed[t] + s.threads[t].granted);
  }

  lemma OutsideStep(s: State, a: Action, b0: Bucket)
    requires Inv(s, b0) && Enabled(s, a) && !a.Step?
    ensures Inv(Exec(s, a), b0)
  {
    var z := Exec(s, a);
    assert z.polls == s.polls && z.handed == s.handed;
    match a
    case Tick(_) => assert HolderPC(z) == HolderPC(s);
    case Call(t, _) => assert HolderPC(z) == z.threads[t] && HolderPC(s) == Idle;
  }

  lemma {:induction false} RunKeepsInv(s: State, acts: seq<Action>, z: State, b0: Bucket)
    requires Inv(s, b0) && Runs(s, acts, z)
    ensures Inv(z, b0)
    decreases |acts|
  {
    if acts != [] {
      var a := acts[0];
      if !a.Step? {
        OutsideStep(s, a, b0);
      } else if s.threads[a.thread].LoadForConsume? || s.threads[a.thread].Swap? {
        EffectStep(s, a.thread, b0);
      } else if s.threads[a.thread].Return? {
        ReturnStep(s, a.thread, b0);
      } else {
        RefillStep(s, a.thread, b0);
      }
      RunKeepsInv(Exec(s, a), acts[1..], z, b0);
    }
  }

  /** Under the scheduler mutex every interleaving of N workers hands out exactly what the sequential
      run of the same calls hands out, and so at most the burst plus the rate's worth of time. */
  lemma WorkersRefineSequentialBucket(rate: u64, burst: u64, t0: u64, n: nat, acts: seq<Action>, z: State)
    requires Runs(Start(true, rate, burst, t0, n), acts, z)
    ensures Monotone(z.polls) && Within(z.polls, 0, z.clock)
    ensures Sum(z.handed) + Carried(HolderPC(z)) == Handed(Full(rate, burst, t0), z.polls)
    ensures t0 <= z.clock && Sum(z.handed) <= burst + Owed(rate, z.clock - t0)
  {
    StartInv(rate, burst, t0, n);
    RunKeepsInv(Start(true, rate, burst, t0, n), acts, z, Full(rate, burst, t0));
    ClockAdvances(Start(true, rate, burst, t0, n), acts, z);
    RateBoundFromReset(Full(rate, burst, t0), z.polls, z.clock);
  }

  lemma {:induction false} ClockAdvances(s: State, acts: seq<Action>, z: State)
    requires WellFormed(s) && Runs(s, acts, z)
    ensures s.clock <= z.clock
    decreases |acts|
  {
    if acts != [] {
      ClockAdvances(Exec(s, acts[0]), acts[1..], z);
    }
  }

  // ---------------------------------------------------------------- lock-free consumers

  predicate Consuming(pc: PC) {
    pc.Idle? || pc.LoadForConsume? || pc.Swap? || pc.Return?
  }

  lemma {:induction false} CarriedUpdate(ts: seq<PC>, t: nat, pc: PC)
    requires t < |ts|
    ensures CarriedAll(ts[t := pc]) == CarriedAll(ts) - Carried(ts[t]) + Carried(pc)
  {
    if t == 0 {
      assert ts[t := pc][1..] == ts[1..];
    } else {
      assert ts[t := pc][1..] == ts[1..][t - 1 := pc];
      CarriedUpdate(ts[1..], t - 1, pc);
    }
  }

  ghost predicate AllConsuming(s: State) {
    forall t :: 0 <= t < |s.threads| ==> Consuming(s.threads[t])
  }

  function Outstanding(s: State): nat {
    s.tokens + Sum(s.handed) + CarriedAll(s.threads)
  }

  lemma ConsumerStep(s: State, a: Action)
    requires WellFormed(s) && Enabled(s, a) && AllConsuming(s) && !a.Call?
    ensures WellFormed(Exec(s, a)) && AllConsuming(Exec(s, a)) && Outstanding(Exec(s, a)) == Outstanding(s)
  {
    if a.Step? {
      var t, y := a.thread, Exec(s, a);
      CarriedUpdate(s.threads, t, y.threads[t]);
      if s.threads[t].Return? {
        SumUpdate(s.handed, t, s.handed[t] + s.threads[t].granted);
      }
    }
  }

  /** Without any mutex, and from any starting point past the refill: as long as no thread refills,
      tokens left plus tokens handed out is constant, so no token is handed out twice however the
      loads and swaps interleave. */
  lemma {:induction false} LockFreeConsumersConserve(s: State, acts: seq<Action>, z: State)
    requires WellFormed(s) && Runs(s, acts, z) && AllConsuming(s)
    requires forall i :: 0 <= i < |acts| ==> !acts[i].Call?
    ensures Outstanding(z) == Outstanding(s)
    decreases |acts|
  {
    if acts != [] {
      ConsumerStep(s, acts[0]);
      LockFreeConsumersConserve(Exec(s, acts[0]), acts[1..], z);
    }
  }
}
