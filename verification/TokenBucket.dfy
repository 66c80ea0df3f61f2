/** The rate limiter: lazy refill with floor division, a burst cap, and consumption.
    `Refill` and `TryConsume` say what one call does to the four fields; the class at the
    end performs the same updates in place. The lemmas bound what any run can hand out. */
module TokenBuckets {
  import opened Words

  const NANOS: int := 1_000_000_000

  /** The four atomics of a bucket. */
  datatype Bucket = Bucket(rate: u64, burst: u64, tokens: u64, last: u64)

  /** Tokens a rate is worth over a span, rounded down: the 128-bit quotient. */
  function Owed(rate: nat, elapsed: nat): nat {
    rate * elapsed / NANOS
  }

  /** The constructor and `reset` leave the bucket full, stamped with the current reading. */
  function Full(rate: u64, burst: u64, now: u64): Bucket {
    Bucket(rate, burst, burst, now)
  }

  /** The tokens one refill adds before the cap: the quotient narrowed to 64 bits. */
  function Credit(b: Bucket, now: u64): u64 {
    if now <= b.last then 0 else Owed(b.rate, now - b.last) % TWO_64
  }

  function Refill(b: Bucket, now: u64): Bucket {
    if now <= b.last then b
    else if b.rate == 0 then b.(last := now)
    else if Credit(b, now) == 0 then b
    else b.(tokens := Min((b.tokens + Credit(b, now)) % TWO_64, b.burst), last := now)
  }

  function Granted(b: Bucket, now: u64, requested: u32): u32 {
    Min(requested, Refill(b, now).tokens)
  }

  function Consume(b: Bucket, now: u64, requested: u32): Bucket {
    var r := Refill(b, now);
    r.(tokens := r.tokens - Granted(b, now, requested))
  }

  // ---------------------------------------------------------------- runs

  /** One call of `try_consume`: the clock reading it made and what it asked for. */
  datatype Poll = Poll(now: u64, requested: u32)

  function After(b: Bucket, ps: seq<Poll>): Bucket
    decreases |ps|
  {
    if ps == [] then b else After(Consume(b, ps[0].now, ps[0].requested), ps[1..])
  }

  /** Tokens handed out by a run. */
  function Handed(b: Bucket, ps: seq<Poll>): nat
    decreases |ps|
  {
    if ps == [] then 0
    else Granted(b, ps[0].now, ps[0].requested) + Handed(Consume(b, ps[0].now, ps[0].requested), ps[1..])
  }

  /** Tokens credited by a run, counted before the cap. */
  function Credited(b: Bucket, ps: seq<Poll>): nat
    decreases |ps|
  {
    if ps == [] then 0
    else Credit(b, ps[0].now) + Credited(Consume(b, ps[0].now, ps[0].requested), ps[1..])
  }

  /** Credited tokens that the cap threw away, when no sum wraps. */
  function Spilled(b: Bucket, ps: seq<Poll>): int
    decreases |ps|
  {
    if ps == [] then 0
    else b.tokens + Credit(b, ps[0].now) - Refill(b, ps[0].now).tokens
         + Spilled(Consume(b, ps[0].now, ps[0].requested), ps[1..])
  }

  ghost predicate Within(ps: seq<Poll>, from: nat, to: nat) {
    forall i :: 0 <= i < |ps| ==> from <= ps[i].now <= to
  }

  /** The steady clock never goes back. */
  ghost predicate Monotone(ps: seq<Poll>) {
    forall i, j :: 0 <= i <= j < |ps| ==> ps[i].now <= ps[j].now
  }

  // ---------------------------------------------------------------- arithmetic of the quotient

  lemma OwedSplit(rate: nat, a: nat, b: nat)
    ensures Owed(rate, a) + Owed(rate, b) <= Owed(rate, a + b) <= Owed(rate, a) + Owed(rate, b) + 1
  {
    assert rate * (a + b) == rate * a + rate * b;
    var x, y := rate * a, rate * b;
    assert x / NANOS + y / NANOS <= (x + y) / NANOS <= x / NANOS + y / NANOS + 1;
  }

  lemma OwedMonotone(rate: nat, a: nat, b: nat)
    requires a <= b
    ensures Owed(rate, a) <= Owed(rate, b)
  {
    OwedSplit(rate, a, b - a);
  }

  /** The shortest time that is worth a token. */
  function TokenTime(rate: u64): nat
    requires rate >= 1
  {
    (NANOS + rate - 1) / rate
  }

  lemma TokenTimeIsLeast(rate: u64, d: nat)
    requires rate >= 1
    ensures Owed(rate, d) > 0 <==> d >= TokenTime(rate)
  {
    var c := TokenTime(rate);
    assert rate * c <= NANOS + rate - 1 < rate * c + rate;
    if d >= c {
      assert rate * d >= rate * c by { MulMonotone(rate, c, d); }
    } else {
      assert rate * (d + 1) <= rate * c by { MulMonotone(rate, d + 1, c); }
      assert rate * (d + 1) == rate * d + rate;
    }
  }

  lemma MulMonotone(a: nat, b: nat, c: nat)
    requires b <= c
    ensures a * b <= a * c
  {
  }

  lemma FirstCreditIsOne(rate: u64)
    requires 1 <= rate <= NANOS
    ensures Owed(rate, TokenTime(rate)) == 1
  {
    var c := TokenTime(rate);
    assert rate * c <= NANOS + rate - 1;
    TokenTimeIsLeast(rate, c);
  }

  // ---------------------------------------------------------------- upper bounds

  lemma RefillFacts(b: Bucket, now: u64)
    ensures var r := Refill(b, now);
            && r.rate == b.rate && r.burst == b.burst
            && b.last <= r.last && (r.last == b.last || r.last == now)
            && (r.last == b.last ==> r == b)
            && r.tokens <= b.tokens + Credit(b, now)
            && r.tokens <= b.tokens + Owed(b.rate, r.last - b.last)
            && (b.tokens <= b.burst ==> r.tokens <= b.burst)
  {
    if now > b.last && b.rate != 0 && Credit(b, now) != 0 {
      ModAtMost(Owed(b.rate, now - b.last), TWO_64);
      ModAtMost(b.tokens + Credit(b, now), TWO_64);
    }
  }

  lemma StepFacts(b: Bucket, now: u64, requested: u32)
    ensures var c := Consume(b, now, requested);
            && c.rate == b.rate && c.burst == b.burst
            && b.last <= c.last && (c.last == b.last || c.last == now)
            && Granted(b, now, requested) + c.tokens <= b.tokens + Owed(b.rate, c.last - b.last)
            && Granted(b, now, requested) + c.tokens <= b.tokens + Credit(b, now)
            && (c.last == b.last ==> Granted(b, now, requested) + c.tokens == b.tokens)
            && (b.tokens <= b.burst ==> Granted(b, now, requested) + c.tokens <= b.burst)
  {
    RefillFacts(b, now);
  }

  /** Potential argument: what a run hands out plus what it leaves is covered by the starting
      tokens and the time its stamp moved over. */
  lemma {:induction false} RunPotential(b: Bucket, ps: seq<Poll>)
    ensures var z := After(b, ps);
            && z.rate == b.rate && z.burst == b.burst && b.last <= z.last
            && (b.tokens <= b.burst ==> z.tokens <= z.burst)
            && Handed(b, ps) + z.tokens <= b.tokens + Owed(b.rate, z.last - b.last)
            && (z.last == b.last || exists i :: 0 <= i < |ps| && z.last == ps[i].now)
    decreases |ps|
  {
    if ps != [] {
      var c := Consume(b, ps[0].now, ps[0].requested);
      StepFacts(b, ps[0].now, ps[0].requested);
      RunPotential(c, ps[1..]);
      var z := After(b, ps);
      OwedSplit(b.rate, c.last - b.last, z.last - c.last);
      if z.last != c.last {
        var i :| 0 <= i < |ps[1..]| && z.last == ps[1..][i].now;
        assert z.last == ps[i + 1].now;
      }
    }
  }

  /** Nominal rate bound: from a full bucket, a run whose readings lie up to `t` hands out at
      most the burst plus the rate's worth of the elapsed time. */
  lemma RateBoundFromReset(b: Bucket, ps: seq<Poll>, t: u64)
    requires b.tokens == b.burst && b.last <= t && Within(ps, 0, t)
    ensures Handed(b, ps) <= b.burst + Owed(b.rate, t - b.last)
  {
    RunPotential(b, ps);
    OwedMonotone(b.rate, After(b, ps).last - b.last, t - b.last);
  }

  /** The first refill at `p` leaves nothing creditable at `p`: the span since the stamp is worth
      a multiple of 2^64 tokens (zero, unless the quotient overflowed). */
  lemma NothingPending(b: Bucket, p: u64, requested: u32)
    requires b.last <= p
    ensures var c := Consume(b, p, requested);
            c.last <= p && Owed(b.rate, p - c.last) % TWO_64 == 0
  {
  }

  /** Continuation of a window after its first poll at `p`, while no refill has credited yet. */
  lemma {:induction false} WindowTail(c: Bucket, p: u64, ps: seq<Poll>, t: u64)
    requires c.last <= p <= t && Owed(c.rate, p - c.last) % TWO_64 == 0
    requires Monotone(ps) && Within(ps, p, t)
    ensures Handed(c, ps) <= c.tokens + 1 + Owed(c.rate, t - p)
    decreases |ps|
  {
    if ps != [] {
      var q, d, g := ps[0].now, Consume(c, ps[0].now, ps[0].requested), Granted(c, ps[0].now, ps[0].requested);
      RestOfRun(ps, p, t);
      assert Within(ps[1..], p, t);
      assert Handed(c, ps) == g + Handed(d, ps[1..]);
      StepFacts(c, q, ps[0].requested);
      CreditSincePoll(c, p, q);
      if d.last == c.last {
        WindowTail(d, p, ps[1..], t);
      } else {
        RunPotential(d, ps[1..]);
        var z := After(d, ps[1..]);
        assert q <= z.last <= t;
        OwedChain(c.rate, p, q, z.last, t);
      }
    }
  }

  lemma OwedChain(rate: nat, p: nat, q: nat, z: nat, t: nat)
    requires p <= q <= z <= t
    ensures Owed(rate, q - p) + Owed(rate, z - q) <= Owed(rate, t - p)
  {
    OwedSplit(rate, q - p, z - q);
    assert (q - p) + (z - q) == z - p;
    OwedMonotone(rate, z - p, t - p);
  }

  lemma CreditSincePoll(c: Bucket, p: u64, q: u64)
    requires c.last <= p <= q && Owed(c.rate, p - c.last) % TWO_64 == 0
    ensures Credit(c, q) <= 1 + Owed(c.rate, q - p)
  {
    OwedSplit(c.rate, p - c.last, q - p);
    assert (p - c.last) + (q - p) == q - c.last;
    ModDrop(Owed(c.rate, p - c.last), Owed(c.rate, q - c.last));
  }

  lemma ModDrop(a: nat, b: nat)
    requires a % TWO_64 == 0 && a <= b
    ensures b % TWO_64 <= b - a
  {
    var k := a / TWO_64;
    assert b - a >= 0 && b == a + (b - a);
    assert b % TWO_64 == (b - a) % TWO_64;
  }

  /** Any-window bound: whatever happened before, the polls of a window [s, t] without a reset
      hand out at most burst + 1 + the rate's worth of the window, although idle time before s
      may be credited after it. No assumption on overflow is needed. */
  lemma AnyWindowBound(b: Bucket, ps: seq<Poll>, s: u64, t: u64)
    requires b.tokens <= b.burst && b.last <= s <= t
    requires Monotone(ps) && Within(ps, s, t)
    ensures Handed(b, ps) <= b.burst + 1 + Owed(b.rate, t - s)
  {
    if ps != [] {
      var c, p, g, rest := FirstPoll(b, ps);
      RestOfRun(ps, s, t);
      WindowTail(c, p, rest, t);
      OwedMonotone(b.rate, t - p, t - s);
    }
  }

  lemma RestOfRun(ps: seq<Poll>, s: nat, t: nat)
    requires ps != [] && Monotone(ps) && Within(ps, s, t)
    ensures s <= ps[0].now <= t && Monotone(ps[1..]) && Within(ps[1..], ps[0].now, t)
  {
    forall i | 0 <= i < |ps[1..]| ensures ps[0].now <= ps[1..][i].now <= t {
      assert ps[1..][i] == ps[i + 1] && ps[0].now <= ps[i + 1].now;
    }
  }

  lemma FirstPoll(b: Bucket, ps: seq<Poll>) returns (c: Bucket, p: u64, g: nat, rest: seq<Poll>)
    requires ps != [] && b.tokens <= b.burst && b.last <= ps[0].now
    ensures p == ps[0].now && rest == ps[1..] && Handed(b, ps) == g + Handed(c, rest)
    ensures c.rate == b.rate && g + c.tokens <= b.burst
    ensures c.last <= p && Owed(c.rate, p - c.last) % TWO_64 == 0
  {
    p, rest := ps[0].now, ps[1..];
    c, g := Consume(b, p, ps[0].requested), Granted(b, p, ps[0].requested);
    StepFacts(b, p, ps[0].requested);
    NothingPending(b, p, ps[0].requested);
  }

  /** The extra token of the window bound is really handed out, for every rate below one token per nanosecond
      and every burst a call can ask for: nearly a token was pending when the window opened, and comes due in
      it a nanosecond later. */
  lemma AnyWindowBoundIsTight(b: Bucket, s: u64, ps: seq<Poll>)
    requires 1 <= b.rate < NANOS && 1 <= b.tokens == b.burst < TWO_32 && b.last + TokenTime(b.rate) < TWO_64
    requires s == b.last + TokenTime(b.rate) - 1 && ps == [Poll(s, b.burst), Poll(s + 1, 1)]
    ensures b.last <= s && Monotone(ps) && Within(ps, s, s + 1)
    ensures Handed(b, ps) == b.burst + 1 + Owed(b.rate, (s + 1) - s)
  {
    var t := s + 1;
    TokenTimeIsLong(b.rate);
    TokenTimeIsLeast(b.rate, s - b.last);
    FirstCreditIsOne(b.rate);
    assert t - b.last == TokenTime(b.rate);
    Emptied(b, s);
    TightStep(b.(tokens := 0), t);
    TwoPolls(b, ps, b.(tokens := 0));
  }

  lemma TwoPolls(b: Bucket, ps: seq<Poll>, c: Bucket)
    requires |ps| == 2 && c == Consume(b, ps[0].now, ps[0].requested)
    ensures Handed(b, ps) == Granted(b, ps[0].now, ps[0].requested) + Granted(c, ps[1].now, ps[1].requested)
  {
    assert ps[1..] == [ps[1]] && ps[1..][1..] == [];
    assert Handed(Consume(c, ps[1].now, ps[1].requested), []) == 0;
  }

  lemma Emptied(b: Bucket, s: u64)
    requires b.rate > 0 && b.last <= s && Owed(b.rate, s - b.last) == 0 && b.burst == b.tokens < TWO_32
    ensures Consume(b, s, b.burst) == b.(tokens := 0) && Granted(b, s, b.burst) == b.burst
  {
    assert Credit(b, s) == 0;
  }

  lemma TokenTimeIsLong(rate: u64)
    requires 1 <= rate < NANOS
    ensures TokenTime(rate) >= 2 && Owed(rate, 1) == 0
  {
    TokenTimeIsLeast(rate, 1);
    assert Owed(rate, 1) == rate / NANOS == 0;
  }

  lemma TightStep(c: Bucket, now: u64)
    requires c.rate > 0 && c.tokens == 0 < c.burst && c.last < now && Owed(c.rate, now - c.last) == 1
    ensures Granted(c, now, 1) == 1
  {
    assert Credit(c, now) == 1;
  }

  // ---------------------------------------------------------------- lower bound

  /** A refill keeps the fraction of a token it drops below one exactly when the quotient fits
      in 64 bits: the narrowing is the only other loss. */
  lemma CreditExactIffNoOverflow(b: Bucket, now: u64)
    requires b.last <= now
    ensures b.rate * (now - b.last) < NANOS * (Credit(b, now) + 1) <==> Owed(b.rate, now - b.last) < TWO_64
  {
    var x := b.rate * (now - b.last);
    assert NANOS * (x / NANOS) <= x < NANOS * (x / NANOS + 1);
    if now == b.last { assert x == 0; }
  }

  /** No quotient of the run overflows: it is enough that the longest span does not. */
  ghost predicate NoOverflow(b: Bucket, ps: seq<Poll>)
    requires ps != [] && b.last <= ps[|ps| - 1].now
  {
    Owed(b.rate, ps[|ps| - 1].now - b.last) < TWO_64
  }

  /** Dropping the remainder on each credit never loses more than half of the nominal rate. */
  lemma {:induction false} HalfRateLowerBound(b: Bucket, ps: seq<Poll>)
    requires b.rate > 0 && ps != [] && b.last <= ps[0].now <= ps[|ps| - 1].now
    requires Monotone(ps) && NoOverflow(b, ps)
    ensures b.rate * (ps[|ps| - 1].now - b.last) < 2 * NANOS * Credited(b, ps) + NANOS
    decreases |ps|
  {
    var p, rest, n := ps[0], ps[1..], ps[|ps| - 1].now;
    var c := Consume(b, p.now, p.requested);
    OwedMonotone(b.rate, p.now - b.last, n - b.last);
    StepLoss(b, p);
    if rest == [] {
      assert Credited(b, ps) == Credit(b, p.now) + Credited(c, []);
    } else {
      assert Monotone(rest) && rest[0] == ps[1] && rest[|rest| - 1] == ps[|ps| - 1];
      OwedMonotone(b.rate, n - c.last, n - b.last);
      HalfRateLowerBound(c, rest);
      SpanSplit(b.rate, b.last, c.last, n);
      assert Credited(b, ps) == Credit(b, p.now) + Credited(c, rest);
      LossesAdd(b.rate * (c.last - b.last), b.rate * (n - c.last), Credit(b, p.now), Credited(c, rest));
    }
  }

  lemma LossesAdd(a: nat, b: nat, m: nat, n: nat)
    requires a <= 2 * NANOS * m && b < 2 * NANOS * n + NANOS
    ensures a + b < 2 * NANOS * (m + n) + NANOS
  {
  }

  /** One poll: the span it consumes is worth less than two tokens per token credited, and what
      it leaves is worth less than one. */
  lemma StepLoss(b: Bucket, p: Poll)
    requires b.rate > 0 && b.last <= p.now && Owed(b.rate, p.now - b.last) < TWO_64
    ensures var c := Consume(b, p.now, p.requested);
            && b.last <= c.last <= p.now && c.rate == b.rate
            && b.rate * (c.last - b.last) <= 2 * NANOS * Credit(b, p.now)
            && b.rate * (p.now - b.last) < 2 * NANOS * Credit(b, p.now) + NANOS
  {
    var c := Consume(b, p.now, p.requested);
    CreditExactIffNoOverflow(b, p.now);
    StepFacts(b, p.now, p.requested);
    if c.last == b.last {
      assert b.rate * (c.last - b.last) == 0;
    } else {
      assert c.last == p.now;
    }
  }

  lemma SpanSplit(rate: nat, a: nat, b: nat, c: nat)
    requires a <= b <= c
    ensures rate * (c - a) == rate * (c - b) + rate * (b - a)
  {
  }

  /** Exact bookkeeping: no token appears or disappears except at the cap. */
  lemma {:induction false} TokensConserved(b: Bucket, ps: seq<Poll>)
    requires b.tokens <= b.burst
    ensures Handed(b, ps) + After(b, ps).tokens + Spilled(b, ps) == b.tokens + Credited(b, ps)
    decreases |ps|
  {
    if ps != [] {
      StepFacts(b, ps[0].now, ps[0].requested);
      TokensConserved(Consume(b, ps[0].now, ps[0].requested), ps[1..]);
    }
  }

  /** A consumer that never lets the cap spill gets at least half the nominal rate. */
  lemma HalfRateDelivered(rate: u64, burst: u64, t0: u64, ps: seq<Poll>)
    requires var b := Full(rate, burst, t0);
             && rate > 0 && ps != [] && t0 <= ps[0].now <= ps[|ps| - 1].now
             && Monotone(ps) && NoOverflow(b, ps) && Spilled(b, ps) == 0
    ensures var b := Full(rate, burst, t0);
            rate * (ps[|ps| - 1].now - t0)
              < 2 * NANOS * (Handed(b, ps) + After(b, ps).tokens - burst) + NANOS
  {
    var b := Full(rate, burst, t0);
    HalfRateLowerBound(b, ps);
    TokensConserved(b, ps);
  }

  function EveryTwoNanos(t0: nat, n: nat): seq<Poll>
    requires t0 + 2 * n < TWO_64
    decreases n
  {
    if n == 0 then [] else [Poll(t0 + 2, 1)] + EveryTwoNanos(t0 + 2, n - 1)
  }

  /** One half is the best constant: polling every 2 ns at 10^9 - 1 packets per second credits
      one token per poll out of a nominal two minus 2 * 10^-9. */
  lemma {:induction false} HalfRateIsTight(b: Bucket, n: nat)
    requires b.rate == NANOS - 1 && b.last + 2 * n < TWO_64
    ensures Credited(b, EveryTwoNanos(b.last, n)) == n
    decreases n
  {
    if n > 0 {
      var ps := EveryTwoNanos(b.last, n);
      assert b.rate * 2 == 1_999_999_998 && Owed(b.rate, 2) == 1;
      assert Credit(b, b.last + 2) == 1 && Consume(b, b.last + 2, 1).last == b.last + 2;
      assert ps[0] == Poll(b.last + 2, 1) && ps[1..] == EveryTwoNanos(b.last + 2, n - 1);
      HalfRateIsTight(Consume(b, b.last + 2, 1), n - 1);
    }
  }

  // ---------------------------------------------------------------- frequent polls

  /** Single-token polls that follow `p` and each other at most one token's time apart. */
  ghost predicate Frequent(ps: seq<Poll>, p: nat, rate: nat)
    decreases |ps|
  {
    ps == [] || (ps[0].requested == 1 && p <= ps[0].now && rate * (ps[0].now - p) <= NANOS
                 && Frequent(ps[1..], ps[0].now, rate))
  }

  function LastReading(ps: seq<Poll>, p: nat): nat {
    if ps == [] then p else ps[|ps| - 1].now
  }

  lemma LastOfRest(ps: seq<Poll>, p: nat)
    requires ps != []
    ensures LastReading(ps, p) == LastReading(ps[1..], ps[0].now)
  {
  }

  /** A poll within a token's time of the one before finds at most one token to credit. */
  lemma FrequentCredit(b: Bucket, p: nat, q: u64)
    requires b.rate > 0 && b.last <= p <= q && b.rate * (p - b.last) < NANOS && b.rate * (q - p) <= NANOS
    ensures Credit(b, q) <= 1 && b.rate * (q - b.last) < 2 * NANOS
    ensures Credit(b, q) == 0 ==> b.rate * (q - b.last) < NANOS
  {
    SpanSplit(b.rate, b.last, p, q);
    QuotientBelow(b.rate * (q - b.last));
    if q == b.last { assert b.rate * (q - b.last) == 0; }
  }

  lemma QuotientBelow(x: nat)
    requires x < 2 * NANOS
    ensures x / NANOS <= 1 && (x / NANOS == 0 <==> x < NANOS) && x / NANOS % TWO_64 == x / NANOS
  {
  }

  /** Below a full bucket such polls lose nothing at the cap, and are handed out or left at least half of the
      nominal rate. No assumption on overflow is needed. */
  lemma {:induction false} FrequentFromBelow(b: Bucket, p: nat, ps: seq<Poll>)
    requires b.rate > 0 && b.tokens < b.burst && b.last <= p && b.rate * (p - b.last) < NANOS && Frequent(ps, p, b.rate)
    ensures b.last <= LastReading(ps, p) && After(b, ps).tokens < b.burst
    ensures b.rate * (LastReading(ps, p) - b.last)
              < 2 * NANOS * (Handed(b, ps) + After(b, ps).tokens - b.tokens) + NANOS
    decreases |ps|
  {
    if ps != [] {
      var q, c := ps[0].now, Consume(b, ps[0].now, 1);
      FrequentCredit(b, p, q);
      StepKeepsBelow(b, q);
      assert b.rate * (q - q) == 0;
      FrequentFromBelow(c, q, ps[1..]);
      LastOfRest(ps, p);
      var end := LastReading(ps, p);
      SpanSplit(b.rate, b.last, c.last, end);
      assert Handed(b, ps) == Granted(b, q, 1) + Handed(c, ps[1..]);
      CreditAdds(b.rate * (c.last - b.last), b.rate * (end - c.last), Credit(b, q),
                 Handed(c, ps[1..]) + After(c, ps[1..]).tokens - c.tokens);
    }
  }

  lemma CreditAdds(a: int, b: int, credit: nat, rest: int)
    requires credit <= 1 && a <= 2 * NANOS * credit && b < 2 * NANOS * rest + NANOS
    ensures a + b < 2 * NANOS * (credit + rest) + NANOS
  {
  }

  lemma StepKeepsBelow(b: Bucket, q: u64)
    requires b.rate > 0 && b.tokens < b.burst && b.last <= q && Credit(b, q) <= 1
    ensures var c := Consume(b, q, 1);
            && c.rate == b.rate && c.burst == b.burst && c.tokens < c.burst
            && Granted(b, q, 1) + c.tokens == b.tokens + Credit(b, q)
            && c.last == if Credit(b, q) == 0 then b.last else q
  {
  }

  /** A full bucket polled at least once per token's time from its stamp on hands out at least half of the
      nominal rate. */
  lemma FrequentPollsGetHalf(b: Bucket, ps: seq<Poll>)
    requires b.rate > 0 && 0 < b.tokens == b.burst < TWO_64 - 1 && Frequent(ps, b.last, b.rate)
    ensures b.last <= LastReading(ps, b.last)
    ensures b.rate * (LastReading(ps, b.last) - b.last) < 2 * NANOS * Handed(b, ps) + NANOS
  {
    if ps != [] {
      var q, c := ps[0].now, Consume(b, ps[0].now, 1);
      FirstIsFrequent(b, q);
      FrequentFromBelow(c, q, ps[1..]);
      LastOfRest(ps, b.last);
      FirstAdds(b.rate, b.last, c.last, LastReading(ps, b.last), Handed(c, ps[1..]), After(c, ps[1..]).tokens, b.burst);
    }
  }

  lemma FirstAdds(rate: nat, from: nat, mid: nat, end: nat, handed: nat, tokens: nat, burst: nat)
    requires from <= mid <= end && rate * (mid - from) < 2 * NANOS && tokens < burst
    requires rate * (end - mid) < 2 * NANOS * (handed + tokens - (burst - 1)) + NANOS
    ensures rate * (end - from) < 2 * NANOS * (1 + handed) + NANOS
  {
    SpanSplit(rate, from, mid, end);
  }

  lemma FirstIsFrequent(b: Bucket, q: u64)
    requires b.rate > 0 && 0 < b.tokens == b.burst < TWO_64 - 1 && b.last <= q && b.rate * (q - b.last) <= NANOS
    ensures var c := Consume(b, q, 1);
            && c.rate == b.rate && c.burst == b.burst && c.tokens == b.burst - 1 && Granted(b, q, 1) == 1
            && b.last <= c.last <= q && b.rate * (c.last - b.last) < 2 * NANOS && b.rate * (q - c.last) < NANOS
  {
    assert b.rate * (b.last - b.last) == 0 && b.rate * (q - q) == 0;
    FrequentCredit(b, b.last, q);
    FirstKeepsBelow(b, q);
  }

  lemma FirstKeepsBelow(b: Bucket, q: u64)
    requires b.rate > 0 && 0 < b.tokens == b.burst < TWO_64 - 1 && b.last <= q && Credit(b, q) <= 1
    ensures var c := Consume(b, q, 1);
            && c.rate == b.rate && c.burst == b.burst && c.tokens == b.burst - 1 && Granted(b, q, 1) == 1
            && c.last == if Credit(b, q) == 0 then b.last else q
  {
  }

  // ---------------------------------------------------------------- the burst of a flow

  /** The burst `add_flow` picks for a flow's rate. */
  function BurstFor(pps: u64): u64 {
    if pps > 0 then pps / 10 else 1000
  }

  /** A flow can ever be granted a token exactly when its rate is not in 1..9. */
  lemma ProgressIffBurst(pps: u64, t0: u64)
    ensures (exists ps :: Handed(Full(pps, BurstFor(pps), t0), ps) > 0) <==> (pps == 0 || pps >= 10)
  {
    var b := Full(pps, BurstFor(pps), t0);
    if pps == 0 || pps >= 10 {
      var ps := [Poll(t0, 1)];
      assert Granted(b, t0, 1) == 1;
      assert Handed(b, ps) > 0;
    } else {
      forall ps ensures Handed(b, ps) == 0 {
        NoBurstNoTokens(b, ps);
      }
    }
  }

  lemma {:induction false} NoBurstNoTokens(b: Bucket, ps: seq<Poll>)
    requires b.burst == 0 && b.tokens == 0
    ensures Handed(b, ps) == 0
    decreases |ps|
  {
    if ps != [] {
      StepFacts(b, ps[0].now, ps[0].requested);
      NoBurstNoTokens(Consume(b, ps[0].now, ps[0].requested), ps[1..]);
    }
  }

  /** A bucket of rate zero hands out the tokens it has and no more. */
  lemma {:induction false} RateZeroIsThePlainBurst(b: Bucket, ps: seq<Poll>)
    requires b.rate == 0
    ensures Handed(b, ps) + After(b, ps).tokens == b.tokens
    decreases |ps|
  {
    if ps != [] {
      RateZeroIsThePlainBurst(Consume(b, ps[0].now, ps[0].requested), ps[1..]);
    }
  }

  /** Time that passes at rate zero is not made up for when the rate changes. */
  lemma TimeAtRateZeroIsLost(b: Bucket, t: u64, requested: u32, rate: u64, now: u64)
    requires b.rate == 0 && b.last <= t <= now
    ensures Credit(Consume(b, t, requested).(rate := rate), now) <= Owed(rate, now - t)
  {
    ModAtMost(Owed(rate, now - t), TWO_64);
  }

  lemma {:induction false} AfterAppend(b: Bucket, ps: seq<Poll>, p: Poll)
    ensures After(b, ps + [p]) == Consume(After(b, ps), p.now, p.requested)
    ensures Handed(b, ps + [p]) == Handed(b, ps) + Granted(After(b, ps), p.now, p.requested)
    decreases |ps|
  {
    if ps == [] {
      assert ps + [p] == [p] && [p][1..] == [];
    } else {
      assert (ps + [p])[0] == ps[0] && (ps + [p])[1..] == ps[1..] + [p];
      AfterAppend(Consume(b, ps[0].now, ps[0].requested), ps[1..], p);
    }
  }

  // ---------------------------------------------------------------- the class

  /** The bucket as the scheduler uses it: one thread at a time, every call under the scheduler's
      mutex. `now` is the clock reading the call makes. */
  class TokenBucket {
    var rate: u64
    var burst: u64
    var tokens: u64
    var last: u64
    ghost const flow: nat  // the flow this bucket was made for

    ghost function View(): Bucket
      reads this
    {
      Bucket(rate, burst, tokens, last)
    }

    constructor (ratePps: u64, burstSize: u64, now: u64, ghost flowId: nat)
      ensures View() == Full(ratePps, burstSize, now) && flow == flowId
    {
      flow := flowId;
      rate, burst, tokens, last := ratePps, burstSize, burstSize, now;
    }

    method UpdateTokens(now: u64)
      modifies this
      ensures View() == Refill(old(View()), now)
    {
      if now <= last {
        return;
      }
      var elapsed := now - last;
      if rate == 0 {
        last := now;
        return;
      }
      var add := rate * elapsed / NANOS % TWO_64;
      if add > 0 {
        tokens := Min((tokens + add) % TWO_64, burst);
        last := now;
      }
    }

    method TryConsume(requested: u32, now: u64) returns (consumed: u32)
      modifies this
      ensures View() == Consume(old(View()), now, requested)
      ensures consumed == Granted(old(View()), now, requested)
    {
      UpdateTokens(now);
      if tokens == 0 {
        return 0;
      }
      consumed := Min(requested, tokens);
      tokens := tokens - consumed;
    }

    method SetRate(ratePps: u64)
      modifies this
      ensures View() == old(View()).(rate := ratePps)
    {
      rate := ratePps;
    }

    method SetBurstSize(burstSize: u64)
      modifies this
      ensures View() == old(View()).(burst := burstSize, tokens := Min(old(tokens), burstSize))
      ensures tokens <= burst
    {
      burst := burstSize;
      if tokens > burstSize {
        tokens := burstSize;
      }
    }

    method Reset(now: u64)
      modifies this
      ensures View() == Full(old(rate), old(burst), now)
    {
      tokens := burst;
      last := now;
    }
  }
}
