/** The bucket without the scheduler's mutex: exactly which buckets can be made to hand out more than their
    burst and their rate's worth of time. A refill stores back a token count it loaded before another
    thread's swap. */
module BareBuckets {
  import opened Words
  import opened TokenBuckets
  import opened BucketThreads

  /** The burst is worth more than the shortest credit, and the clock can get to one. */
  predicate Spendable(rate: u64, burst: u64, t0: u64) {
    rate >= 1 && t0 + TokenTime(rate) < TWO_64 && burst > Owed(rate, TokenTime(rate))
  }

  // ---------------------------------------------------------------- a run that overspends

  lemma {:induction false} RunsAppend(s: State, a: seq<Action>, y: State, b: seq<Action>, z: State)
    requires WellFormed(s) && Runs(s, a, y) && WellFormed(y) && Runs(y, b, z)
    ensures Runs(s, a + b, z)
    decreases |a|
  {
    if a == [] {
      assert a + b == b;
    } else {
      AppendParts(a, b);
      RunsAppend(Exec(s, a[0]), a[1..], y, b, z);
    }
  }

  lemma Extend(s: State, acts: seq<Action>, y: State, a: Action) returns (more: seq<Action>, z: State)
    requires WellFormed(s) && Runs(s, acts, y) && WellFormed(y) && Enabled(y, a)
    ensures z == Exec(y, a) && WellFormed(z) && more == acts + [a] && Runs(s, more, z)
  {
    z, more := Exec(y, a), acts + [a];
    assert [a][0] == a && [a][1..] == [] && Runs(z, [], z);
    RunsAppend(s, acts, y, [a], z);
  }

  /** Everything but tokens, threads and history stands as it did. */
  ghost predicate SameBucket(s: State, z: State) {
    && WellFormed(z) && !z.guarded && |z.threads| == |s.threads| && z.bucketMutex == s.bucketMutex
    && z.rate == s.rate && z.burst == s.burst && z.stamp == s.stamp && z.clock == s.clock
  }

  /** A thread calls for one token; with nothing due it gets to its consumption without a change. */
  lemma CallArrives(s: State, t: nat) returns (acts: seq<Action>, z: State)
    requires WellFormed(s) && !s.guarded && t < |s.threads| && s.threads[t].Idle? && s.bucketMutex.None?
    requires s.clock <= s.stamp
    ensures Runs(s, acts, z) && SameBucket(s, z) && z.tokens == s.tokens && z.handed == s.handed
    ensures z.threads == s.threads[t := LoadForConsume(1, s.clock)]
  {
    acts, z := Extend(s, [], s, Call(t, 1));
    acts, z := Extend(s, acts, z, Step(t));
    acts, z := Extend(s, acts, z, Step(t));
    acts, z := Extend(s, acts, z, Step(t));
    acts, z := Extend(s, acts, z, Step(t));
  }

  /** It loads the token count. */
  lemma ConsumerLoads(s: State, t: nat, now: u64) returns (acts: seq<Action>, z: State)
    requires WellFormed(s) && !s.guarded && t < |s.threads| && s.threads[t] == LoadForConsume(1, now) && s.tokens > 0
    ensures Runs(s, acts, z) && SameBucket(s, z) && z.tokens == s.tokens && z.handed == s.handed
    ensures z.threads == s.threads[t := Swap(1, now, s.tokens)]
  {
    acts, z := Extend(s, [], s, Step(t));
  }

  /** It swaps one token out and returns with it. */
  lemma ConsumerSwaps(s: State, t: nat, now: u64) returns (acts: seq<Action>, z: State)
    requires WellFormed(s) && !s.guarded && t < |s.threads| && s.threads[t] == Swap(1, now, s.tokens) && s.tokens > 0
    ensures Runs(s, acts, z) && SameBucket(s, z) && z.tokens == s.tokens - 1 && Sum(z.handed) == Sum(s.handed) + 1
    ensures z.threads == s.threads[t := Idle]
  {
    acts, z := Extend(s, [], s, Step(t));
    acts, z := Extend(s, acts, z, Step(t));
    SumUpdate(s.handed, t, s.handed[t] + 1);
  }

  lemma OneToken(s: State, t: nat, now: u64) returns (acts: seq<Action>, z: State)
    requires WellFormed(s) && !s.guarded && t < |s.threads| && s.threads[t] == LoadForConsume(1, now) && s.tokens > 0
    ensures Runs(s, acts, z) && SameBucket(s, z) && z.tokens == s.tokens - 1 && Sum(z.handed) == Sum(s.handed) + 1
    ensures z.threads == s.threads[t := Idle]
  {
    var a, y := ConsumerLoads(s, t, now);
    var b;
    b, z := ConsumerSwaps(y, t, now);
    RunsAppend(s, a, y, b, z);
    acts := a + b;
  }

  lemma OneCall(s: State, t: nat) returns (acts: seq<Action>, z: State)
    requires WellFormed(s) && !s.guarded && t < |s.threads| && s.threads[t].Idle? && s.bucketMutex.None?
    requires s.clock <= s.stamp && s.tokens > 0
    ensures Runs(s, acts, z) && SameBucket(s, z) && z.tokens == s.tokens - 1 && Sum(z.handed) == Sum(s.handed) + 1
    ensures z.threads == s.threads
  {
    var a, y := CallArrives(s, t);
    var b;
    b, z := OneToken(y, t, s.clock);
    RunsAppend(s, a, y, b, z);
    acts := a + b;
  }

  /** A thread takes `k` tokens, one call each. */
  lemma {:induction false} Drain(s: State, t: nat, k: nat) returns (acts: seq<Action>, z: State)
    requires WellFormed(s) && !s.guarded && t < |s.threads| && s.threads[t].Idle? && s.bucketMutex.None?
    requires s.clock <= s.stamp && k <= s.tokens
    ensures Runs(s, acts, z) && SameBucket(s, z) && z.tokens == s.tokens - k && Sum(z.handed) == Sum(s.handed) + k
    ensures z.threads == s.threads
    decreases k
  {
    if k == 0 {
      acts, z := [], s;
    } else {
      var a, y := OneCall(s, t);
      var b;
      b, z := Drain(y, t, k - 1);
      RunsAppend(s, a, y, b, z);
      acts := a + b;
    }
  }

  /** A token's time later another thread calls and reads the clock. */
  lemma RefillerCalls(s: State, t: nat, now: u64) returns (acts: seq<Action>, z: State)
    requires WellFormed(s) && !s.guarded && t < |s.threads| && s.threads[t].Idle? && s.bucketMutex.None?
    requires s.clock <= now
    ensures Runs(s, acts, z) && WellFormed(z)
    ensures z == s.(clock := now, bucketMutex := Some(t), threads := s.threads[t := LoadStamp(1, now)])
  {
    acts, z := Extend(s, [], s, Tick(now));
    acts, z := Extend(s, acts, z, Call(t, 1));
    acts, z := Extend(s, acts, z, Step(t));
    acts, z := Extend(s, acts, z, Step(t));
  }

  lemma StampRead(s: State, t: nat, now: u64, m: nat)
    requires WellFormed(s) && t < |s.threads| && s.threads[t] == LoadStamp(1, now)
    requires s.rate > 0 && s.stamp < now && m == Owed(s.rate, now - s.stamp) && 0 < m < TWO_64
    ensures Exec(s, Step(t)) == Goto(s, t, LoadTokens(1, now, m))
  {
    assert m % TWO_64 == m;
  }

  /** It loads the stamp and the tokens, and is about to store a full bucket. */
  lemma RefillerLoads(s: State, t: nat, now: u64, m: nat) returns (acts: seq<Action>, z: State)
    requires WellFormed(s) && t < |s.threads| && s.threads[t] == LoadStamp(1, now)
    requires m <= s.burst == s.tokens + m && Exec(s, Step(t)) == Goto(s, t, LoadTokens(1, now, m))
    ensures Runs(s, acts, z) && WellFormed(z) && z == s.(threads := s.threads[t := StoreTokens(1, now, s.burst)])
  {
    acts, z := Extend(s, [], s, Step(t));
    TokensRead(z, t, now, m);
    acts, z := Extend(s, acts, z, Step(t));
  }

  lemma TokensRead(s: State, t: nat, now: u64, m: nat)
    requires WellFormed(s) && t < |s.threads| && m < TWO_64 && s.threads[t] == LoadTokens(1, now, m)
    requires s.tokens + m == s.burst
    ensures Exec(s, Step(t)) == Goto(s, t, StoreTokens(1, now, s.burst))
  {
    assert (s.tokens + m) % TWO_64 == s.burst;
  }

  lemma RefillerArrives(s: State, t: nat, now: u64, m: nat) returns (acts: seq<Action>, z: State)
    requires WellFormed(s) && !s.guarded && t < |s.threads| && s.threads[t].Idle? && s.bucketMutex.None?
    requires s.clock <= now
    requires s.rate > 0 && s.stamp < now && m == Owed(s.rate, now - s.stamp) && 0 < m && s.tokens + m == s.burst
    ensures Runs(s, acts, z) && WellFormed(z)
    ensures z == s.(clock := now, bucketMutex := Some(t), threads := s.threads[t := StoreTokens(1, now, s.burst)])
  {
    var a, y := RefillerCalls(s, t, now);
    StampRead(y, t, now, m);
    var b;
    b, z := RefillerLoads(y, t, now, m);
    RunsAppend(s, a, y, b, z);
    acts := a + b;
  }

  lemma RefillerStores(s: State, t: nat, now: u64, v: u64) returns (acts: seq<Action>, z: State)
    requires WellFormed(s) && !s.guarded && t < |s.threads| && s.threads[t] == StoreTokens(1, now, v)
    requires s.bucketMutex == Some(t)
    ensures Runs(s, acts, z) && WellFormed(z) && !z.guarded && z.bucketMutex == None && z.clock == s.clock
    ensures z.rate == s.rate && z.burst == s.burst && z.stamp == now && z.tokens == v && z.handed == s.handed
    ensures z.threads == s.threads[t := LoadForConsume(1, now)]
  {
    acts, z := Extend(s, [], s, Step(t));
    acts, z := Extend(s, acts, z, Step(t));
    acts, z := Extend(s, acts, z, Step(t));
  }

  /** Thread 1 takes as many tokens as the shortest credit is worth, and loads the count for one more. */
  lemma Prepared(s: State, m: nat) returns (acts: seq<Action>, z: State)
    requires WellFormed(s) && !s.guarded && |s.threads| >= 2 && s.threads[1].Idle? && s.bucketMutex.None?
    requires s.clock == s.stamp && m < s.tokens
    ensures Runs(s, acts, z) && SameBucket(s, z) && z.tokens == s.tokens - m && Sum(z.handed) == Sum(s.handed) + m
    ensures z.threads == s.threads[1 := Swap(1, s.clock, s.tokens - m)]
  {
    var a, x := Drain(s, 1, m);
    var b, y := CallArrives(x, 1);
    var c;
    c, z := ConsumerLoads(y, 1, s.clock);
    RunsAppend(s, a, x, b, y);
    RunsAppend(s, a + b, y, c, z);
    acts := a + b + c;
  }

  /** The swap falls between load and store of the refill, which forgets it; the rest is drained. */
  lemma Overwritten(s: State, now: u64) returns (acts: seq<Action>, z: State)
    requires WellFormed(s) && !s.guarded && |s.threads| >= 2 && s.bucketMutex == Some(0) && s.clock == now
    requires s.threads[0] == StoreTokens(1, now, s.burst) && s.tokens > 0 && s.burst > 0
    requires s.threads[1].Swap? && s.threads[1] == Swap(1, s.threads[1].now, s.tokens)
    ensures Runs(s, acts, z) && WellFormed(z) && z.clock == now && Sum(z.handed) == Sum(s.handed) + 1 + s.burst
  {
    var a, x := ConsumerSwaps(s, 1, s.threads[1].now);
    var b, y := RefillerStores(x, 0, now, s.burst);
    var c, u := OneToken(y, 0, now);
    var d;
    d, z := Drain(u, 0, u.tokens);
    RunsAppend(s, a, x, b, y);
    RunsAppend(s, a + b, y, c, u);
    RunsAppend(s, a + b + c, u, d, z);
    acts := a + b + c + d;
  }

  /** Every spendable bucket can be made to hand out one token more than burst and rate allow, as soon as the
      first token is due. */
  lemma BareBucketOverspends(rate: u64, burst: u64, t0: u64, n: nat) returns (acts: seq<Action>, z: State)
    requires n >= 2 && Spendable(rate, burst, t0)
    ensures Runs(Start(false, rate, burst, t0, n), acts, z)
    ensures z.clock == t0 + TokenTime(rate) && Sum(z.handed) == burst + Owed(rate, TokenTime(rate)) + 1
  {
    var s, c := Start(false, rate, burst, t0, n), TokenTime(rate);
    var m := Owed(rate, c);
    TokenTimeIsLeast(rate, c);
    TokenTimeIsLeast(rate, 0);
    ZeroSum(n);
    var a, x := Prepared(s, m);
    var b, y := RefillerArrives(x, 0, t0 + c, m);
    var d;
    d, z := Overwritten(y, t0 + c);
    RunsAppend(s, a, x, b, y);
    RunsAppend(s, a + b, y, d, z);
    acts := a + b + d;
  }

  // ---------------------------------------------------------------- no other bucket overspends

  /** The stamp a refill will leave, once it has stored its tokens. */
  function EffectiveStamp(s: State): u64 {
    if s.bucketMutex.Some? && s.bucketMutex.value < |s.threads| && s.threads[s.bucketMutex.value].StoreStamp?
    then s.threads[s.bucketMutex.value].now else s.stamp
  }

  /** What a thread in the refill is about to do is paid for by the time it has seen pass. With one thread
      only, the tokens it loaded are still there; with more, they may be gone. */
  predicate Paid(s: State, pc: PC) {
    match pc
    case LoadStamp(_, now) => now <= s.clock
    case StampOnly(_, now) => s.stamp < now <= s.clock
    case LoadTokens(_, now, add) =>
      s.stamp < now <= s.clock && 0 < add <= Owed(s.rate, now - s.stamp)
      && (|s.threads| >= 2 ==> s.burst <= Owed(s.rate, now - s.stamp))
    case StoreTokens(_, now, v) =>
      s.stamp < now <= s.clock && v <= Owed(s.rate, now - s.stamp) + if |s.threads| >= 2 then 0 else s.tokens
    case StoreStamp(_, now) => s.stamp < now <= s.clock
    case _ => true
  }

  /** Tokens there, handed out and carried are within burst and rate at the effective stamp. */
  ghost predicate Solvent(s: State, t0: u64) {
    && t0 <= EffectiveStamp(s) <= s.clock
    && s.tokens + Sum(s.handed) + CarriedAll(s.threads) <= s.burst + Owed(s.rate, EffectiveStamp(s) - t0)
  }

  /** The bucket's mutex is held by the one thread in the refill. */
  ghost predicate Locked(s: State) {
    && WellFormed(s)
    && (forall t :: 0 <= t < |s.threads| ==> (InRefill(s.threads[t]) <==> s.bucketMutex == Some(t)))
    && (s.bucketMutex.Some? ==> s.bucketMutex.value < |s.threads|)
  }

  ghost predicate HolderPaid(s: State, t0: u64) {
    && t0 <= s.stamp <= s.clock
    && (s.bucketMutex.Some? && s.bucketMutex.value < |s.threads| ==> Paid(s, s.threads[s.bucketMutex.value]))
  }

  ghost predicate BareInv(s: State, t0: u64) {
    Locked(s) && HolderPaid(s, t0) && Solvent(s, t0)
  }

  lemma LockKept(s: State, a: Action)
    requires Locked(s) && Enabled(s, a)
    ensures Locked(Exec(s, a))
  {
    if a.Step? {
      StepLocks(s, a.thread);
    }
  }

  lemma StepLocks(s: State, t: nat)
    requires Locked(s) && Enabled(s, Step(t))
    ensures Locked(Exec(s, Step(t)))
  {
    var z := Exec(s, Step(t));
    assert forall u :: 0 <= u < |s.threads| && u != t ==> z.threads[u] == s.threads[u];
    assert InRefill(z.threads[t]) <==> z.bucketMutex == Some(t);
  }

  lemma SettingsKept(s: State, a: Action)
    requires WellFormed(s) && Enabled(s, a)
    ensures var z := Exec(s, a); z.rate == s.rate && z.burst == s.burst && |z.threads| == |s.threads|
  {
  }

  /** A bucket that cannot be overspent is credited at least its burst, or never. */
  lemma CreditIsWorthTheBurst(rate: u64, burst: u64, t0: u64, stamp: u64, now: u64)
    requires !Spendable(rate, burst, t0) && t0 <= stamp < now && Owed(rate, now - stamp) > 0
    ensures burst <= Owed(rate, now - stamp)
  {
    if rate > 0 {
      TokenTimeIsLeast(rate, now - stamp);
      OwedMonotone(rate, TokenTime(rate), now - stamp);
    }
  }

  /** One thread only, or a bucket that is not spendable. */
  predicate Harmless(s: State, t0: u64) {
    |s.threads| <= 1 || !Spendable(s.rate, s.burst, t0)
  }

  lemma OutsideKeeps(s: State, a: Action, t0: u64)
    requires BareInv(s, t0) && Enabled(s, a) && !a.Step?
    ensures HolderPaid(Exec(s, a), t0) && Solvent(Exec(s, a), t0)
  {
    if a.Call? {
      CarriedUpdate(s.threads, a.thread, Exec(s, a).threads[a.thread]);
    }
  }

  /** What a thread outside the refill does to the bucket: it moves tokens into its own hands. */
  ghost predicate Consumes(s: State, z: State) {
    && z.stamp == s.stamp && z.clock == s.clock && z.bucketMutex == s.bucketMutex
    && z.rate == s.rate && z.burst == s.burst && |z.threads| == |s.threads|
    && Outstanding(z) == Outstanding(s)
  }

  lemma ConsumptionMoves(s: State, t: nat)
    requires WellFormed(s) && Enabled(s, Step(t))
    requires s.threads[t].LoadForConsume? || s.threads[t].Swap? || s.threads[t].Return?
    ensures Consumes(s, Exec(s, Step(t)))
  {
    var z := Exec(s, Step(t));
    CarriedUpdate(s.threads, t, z.threads[t]);
    if s.threads[t].Return? {
      SumUpdate(s.handed, t, s.handed[t] + s.threads[t].granted);
    }
  }

  lemma ConsumptionKeeps(s: State, t: nat, t0: u64)
    requires BareInv(s, t0) && Enabled(s, Step(t))
    requires s.threads[t].LoadForConsume? || s.threads[t].Swap? || s.threads[t].Return?
    ensures HolderPaid(Exec(s, Step(t)), t0) && Solvent(Exec(s, Step(t)), t0)
  {
    var z := Exec(s, Step(t));
    ConsumptionMoves(s, t);
    if s.bucketMutex.Some? {
      assert s.bucketMutex.value != t && z.threads[s.bucketMutex.value] == s.threads[s.bucketMutex.value];
      PaidStays(s, z, s.threads[s.bucketMutex.value]);
    }
  }

  lemma PaidStays(s: State, z: State, pc: PC)
    requires Consumes(s, z) && Paid(s, pc) && (pc.StoreTokens? ==> |s.threads| >= 2)
    ensures Paid(z, pc)
  {
  }

  /** The steps of a refill before and after its stores. */
  lemma RefillKeeps(s: State, t: nat, t0: u64)
    requires BareInv(s, t0) && Enabled(s, Step(t)) && Harmless(s, t0)
    requires s.threads[t].TakeBucketMutex?
             || (InRefill(s.threads[t]) && !s.threads[t].StampOnly? && !s.threads[t].StoreTokens?)
    ensures HolderPaid(Exec(s, Step(t)), t0) && Solvent(Exec(s, Step(t)), t0)
  {
    RefillHolds(s, t, t0);
    RefillMovesNothing(s, t);
  }

  lemma RefillMovesNothing(s: State, t: nat)
    requires Locked(s) && Enabled(s, Step(t))
    requires s.threads[t].TakeBucketMutex?
             || (InRefill(s.threads[t]) && !s.threads[t].StampOnly? && !s.threads[t].StoreTokens?)
    ensures var z := Exec(s, Step(t));
            && z.rate == s.rate && z.burst == s.burst && z.clock == s.clock
            && Outstanding(z) == Outstanding(s) && EffectiveStamp(z) == EffectiveStamp(s)
  {
    CarriedUpdate(s.threads, t, Exec(s, Step(t)).threads[t]);
  }

  lemma RefillHolds(s: State, t: nat, t0: u64)
    requires BareInv(s, t0) && Enabled(s, Step(t)) && Harmless(s, t0)
    requires s.threads[t].TakeBucketMutex?
             || (InRefill(s.threads[t]) && !s.threads[t].StampOnly? && !s.threads[t].StoreTokens?)
    ensures HolderPaid(Exec(s, Step(t)), t0)
  {
    var z := Exec(s, Step(t));
    if s.threads[t].LoadStamp? {
      StampLoaded(s, t, s.threads[t].now, t0);
      assert z == Goto(s, t, z.threads[t]);
    } else if s.threads[t].LoadTokens? {
      TokensLoaded(s, t, s.threads[t].add, s.threads[t].now);
      assert z == Goto(s, t, z.threads[t]);
    }
  }

  lemma TokensLoaded(s: State, t: nat, add: u64, now: u64)
    requires WellFormed(s) && t < |s.threads| && s.threads[t].LoadTokens? && Paid(s, s.threads[t])
    requires s.threads[t].add == add && s.threads[t].now == now
    ensures Paid(s, Exec(s, Step(t)).threads[t])
  {
    ModAtMost(s.tokens + add, TWO_64);
    assert Exec(s, Step(t)).threads[t] == StoreTokens(s.threads[t].req, now, Min((s.tokens + add) % TWO_64, s.burst));
  }

  lemma StampLoaded(s: State, t: nat, now: u64, t0: u64)
    requires WellFormed(s) && t < |s.threads| && s.threads[t].LoadStamp? && s.threads[t].now == now <= s.clock
    requires Harmless(s, t0) && t0 <= s.stamp
    ensures Paid(s, Exec(s, Step(t)).threads[t])
  {
    if s.stamp < now {
      var due := Owed(s.rate, now - s.stamp);
      ModAtMost(due, TWO_64);
      if due > 0 && |s.threads| >= 2 {
        CreditIsWorthTheBurst(s.rate, s.burst, t0, s.stamp, now);
      }
    }
  }

  /** A store of tokens is covered by the time the stamp will move over. */
  lemma StoreKeeps(s: State, t: nat, t0: u64)
    requires BareInv(s, t0) && Enabled(s, Step(t)) && (s.threads[t].StampOnly? || s.threads[t].StoreTokens?)
    ensures HolderPaid(Exec(s, Step(t)), t0) && Solvent(Exec(s, Step(t)), t0)
  {
    var z, now := Exec(s, Step(t)), s.threads[t].now;
    CarriedUpdate(s.threads, t, z.threads[t]);
    OwedSplit(s.rate, s.stamp - t0, now - s.stamp);
    assert (s.stamp - t0) + (now - s.stamp) == now - t0;
  }

  lemma BareStepKeeps(s: State, a: Action, t0: u64)
    requires BareInv(s, t0) && Enabled(s, a) && Harmless(s, t0)
    ensures BareInv(Exec(s, a), t0)
  {
    LockKept(s, a);
    if !a.Step? {
      OutsideKeeps(s, a, t0);
    } else {
      var pc := s.threads[a.thread];
      if pc.LoadForConsume? || pc.Swap? || pc.Return? {
        ConsumptionKeeps(s, a.thread, t0);
      } else if pc.StampOnly? || pc.StoreTokens? {
        StoreKeeps(s, a.thread, t0);
      } else {
        RefillKeeps(s, a.thread, t0);
      }
    }
  }

  lemma {:induction false} BareRunKeeps(s: State, acts: seq<Action>, z: State, t0: u64)
    requires WellFormed(s) && Runs(s, acts, z) && BareInv(s, t0) && Harmless(s, t0)
    ensures BareInv(z, t0) && z.rate == s.rate && z.burst == s.burst
    decreases |acts|
  {
    if acts != [] {
      BareStepKeeps(s, acts[0], t0);
      SettingsKept(s, acts[0]);
      BareRunKeeps(Exec(s, acts[0]), acts[1..], z, t0);
    }
  }

  lemma {:induction false} NothingCarried(n: nat)
    ensures CarriedAll(seq(n, _ => Idle)) == 0
  {
    if n > 0 {
      assert seq(n, _ => Idle)[1..] == seq(n - 1, _ => Idle);
      NothingCarried(n - 1);
    }
  }

  lemma HarmlessRunsStayWithin(rate: u64, burst: u64, t0: u64, n: nat, acts: seq<Action>, z: State)
    requires Runs(Start(false, rate, burst, t0, n), acts, z) && (n <= 1 || !Spendable(rate, burst, t0))
    ensures t0 <= z.clock && Sum(z.handed) <= burst + Owed(rate, z.clock - t0)
  {
    var s := Start(false, rate, burst, t0, n);
    ZeroSum(n);
    NothingCarried(n);
    BareRunKeeps(s, acts, z, t0);
    OwedMonotone(rate, EffectiveStamp(z) - t0, z.clock - t0);
  }

  /** More has been handed out than the burst and the rate's worth of the clock since `t0`. */
  ghost predicate Overspent(z: State, rate: u64, burst: u64, t0: u64) {
    t0 <= z.clock && Sum(z.handed) > burst + Owed(rate, z.clock - t0)
  }

  ghost predicate CanOverspend(rate: u64, burst: u64, t0: u64, n: nat) {
    exists acts, z :: Runs(Start(false, rate, burst, t0, n), acts, z) && Overspent(z, rate, burst, t0)
  }

  /** Which bare buckets some interleaving overspends: those of two threads or more whose clock can reach the
      first token's time and whose burst is more than the credit then due. */
  lemma BareBucketOverspendsIff(rate: u64, burst: u64, t0: u64, n: nat)
    ensures CanOverspend(rate, burst, t0, n) <==> n >= 2 && Spendable(rate, burst, t0)
  {
    if n >= 2 && Spendable(rate, burst, t0) {
      var acts, z := BareBucketOverspends(rate, burst, t0, n);
      assert Overspent(z, rate, burst, t0);
    } else {
      forall acts, z | Runs(Start(false, rate, burst, t0, n), acts, z) ensures !Overspent(z, rate, burst, t0) {
        HarmlessRunsStayWithin(rate, burst, t0, n, acts, z);
      }
    }
  }

  /** For rates up to one token per nanosecond: exactly the bursts of two tokens and more, if the clock does not
      end before the first token is due. */
  lemma UsualRatesOverspendIff(rate: u64, burst: u64, t0: u64, n: nat)
    requires 1 <= rate <= NANOS && n >= 2 && t0 + TokenTime(rate) < TWO_64
    ensures CanOverspend(rate, burst, t0, n) <==> burst >= 2
  {
    BareBucketOverspendsIff(rate, burst, t0, n);
    FirstCreditIsOne(rate);
  }
}
