/** Buffer conservation over every run: each buffer of the pool is always in exactly one place. */
module BufferRuns {
  import opened Words
  import opened FlowSchedulers
  import opened Workers
  import opened Pipelines

  function One(b: bool): nat {
    if b then 1 else 0
  }

  /** How often a buffer occurs in a burst. */
  function Copies(burst: seq<Slot>, h: nat): nat {
    if burst == [] then 0 else One(burst[0].handle == h) + Copies(burst[1..], h)
  }

  /** How often the workers' bursts hold it. */
  function InBursts(ws: seq<WorkerState>, h: nat): nat {
    if ws == [] then 0 else Copies(ws[0].burst, h) + InBursts(ws[1..], h)
  }

  /** How many places of the system hold it: the pool, the NIC's two sides, and the bursts. */
  function Places(s: System, h: nat): nat {
    One(h in s.free) + One(h in s.sending) + One(h in s.receiving) + InBursts(s.workers, h)
  }

  lemma {:induction false} InBurstsUpdate(ws: seq<WorkerState>, w: nat, v: WorkerState, h: nat)
    requires w < |ws|
    ensures InBursts(ws[w := v], h) == InBursts(ws, h) - Copies(ws[w].burst, h) + Copies(v.burst, h)
    ensures Copies(ws[w].burst, h) <= InBursts(ws, h)
  {
    if w == 0 {
      assert ws[w := v][1..] == ws[1..];
    } else {
      assert ws[w := v][1..] == ws[1..][w - 1 := v];
      InBurstsUpdate(ws[1..], w - 1, v, h);
    }
  }

  lemma {:induction false} CopiesAppend(a: seq<Slot>, b: seq<Slot>, h: nat)
    ensures Copies(a + b, h) == Copies(a, h) + Copies(b, h)
  {
    if a == [] {
      assert a + b == b;
    } else {
      AppendParts(a, b);
      CopiesAppend(a[1..], b, h);
    }
  }

  lemma {:induction false} HandlesAreCopies(burst: seq<Slot>, h: nat)
    ensures h in Handles(burst) <==> Copies(burst, h) > 0
  {
    if burst != [] {
      HandlesAreCopies(burst[1..], h);
      if k :| 0 <= k < |burst| && burst[k].handle == h && k > 0 {
        assert burst[1..][k - 1].handle == h;
      }
      if h in Handles(burst[1..]) {
        var k :| 0 <= k < |burst[1..]| && burst[1..][k].handle == h;
        assert burst[k + 1].handle == h;
      }
    }
  }

  lemma BuildMoves(s: System, e: Event, h: nat)
    requires Enabled(s, e) && e.Build? && Places(s, h) <= 1
    ensures Places(Next(s, e), h) == Places(s, h)
  {
    var me := s.workers[e.w];
    var z := Next(s, e);
    InBurstsUpdate(s.workers, e.w, z.workers[e.w], h);
    assert z.workers == s.workers[e.w := z.workers[e.w]];
    if |z.workers[e.w].burst| > |me.burst| {
      var last := z.workers[e.w].burst[|me.burst|];
      CopiesAppend(me.burst, [last], h);
      assert Copies([last], h) == One(last.handle == h) + Copies([], h) by { assert [last][1..] == []; }
    }
  }

  lemma SendMoves(s: System, e: Event, h: nat)
    requires Enabled(s, e) && e.Send? && Places(s, h) <= 1
    ensures Places(Next(s, e), h) == Places(s, h)
  {
    var me := s.workers[e.w];
    InBurstsUpdate(s.workers, e.w, me.(burst := []), h);
    assert me.burst == me.burst[..e.n] + me.burst[e.n..];
    CopiesAppend(me.burst[..e.n], me.burst[e.n..], h);
    HandlesAreCopies(me.burst[..e.n], h);
    HandlesAreCopies(me.burst[e.n..], h);
  }

  lemma ReceiveMoves(s: System, e: Event, h: nat)
    requires Enabled(s, e) && e.ReceiveBatch? && Places(s, h) <= 1
    ensures Places(Next(s, e), h) == Places(s, h)
  {
    ReceiveAllFreesAll(Rx(s.sched, s.free, [], 0), e.batch, 0, e.now);
    if h in RxHandles(e.batch, 0) {
      var k :| 0 <= k < |e.batch| && e.batch[k].handle == h;
      assert h in s.receiving;
    }
  }

  lemma PollMovesNothing(s: System, e: Event, h: nat)
    requires Enabled(s, e) && e.Poll?
    ensures Places(Next(s, e), h) == Places(s, h)
  {
    InBurstsUpdate(s.workers, e.w, Next(s, e).workers[e.w], h);
    assert Next(s, e).workers == s.workers[e.w := Next(s, e).workers[e.w]];
  }

  /** No event loses, duplicates or invents a buffer that is in one place at most. */
  lemma EventKeepsPlaces(s: System, e: Event, h: nat)
    requires Enabled(s, e) && Places(s, h) <= 1
    ensures Places(Next(s, e), h) == Places(s, h)
  {
    match e {
      case Build(_, _) => BuildMoves(s, e, h);
      case Send(_, _) => SendMoves(s, e, h);
      case ReceiveBatch(_, _, _) => ReceiveMoves(s, e, h);
      case Poll(_, _, _, _) => PollMovesNothing(s, e, h);
      case _ =>
    }
  }

  lemma {:induction false} RunKeepsPlaces(s: System, es: seq<Event>, z: System, h: nat)
    requires Leads(s, es, z) && Places(s, h) <= 1
    ensures Places(z, h) == Places(s, h)
    decreases |es|
  {
    if es != [] {
      EventKeepsPlaces(s, es[0], h);
      RunKeepsPlaces(Next(s, es[0]), es[1..], z, h);
    }
  }

  lemma {:induction false} NoBurstsAtFirst(ws: seq<WorkerState>, h: nat)
    requires forall w :: 0 <= w < |ws| ==> ws[w].burst == []
    ensures InBursts(ws, h) == 0
  {
    if ws != [] {
      NoBurstsAtFirst(ws[1..], h);
    }
  }

  /** Buffer conservation: over every run from the start, failed builds, partial bursts and receptions
      included, a buffer of the pool is in exactly one place at every point, and no other ever appears. */
  lemma BuffersConserved(first: System, es: seq<Event>, z: System, h: nat)
    requires Initial(first) && Leads(first, es, z)
    ensures Places(z, h) == if h in first.free then 1 else 0
  {
    NoBurstsAtFirst(first.workers, h);
    RunKeepsPlaces(first, es, z, h);
  }

  lemma IdlePlaces(first: System, es: seq<Event>, z: System, h: nat)
    requires Initial(first) && Leads(first, es, z)
    requires forall w :: 0 <= w < |z.workers| ==> z.workers[w].burst == []
    ensures One(h in z.free) + One(h in z.sending) + One(h in z.receiving) == One(h in first.free)
  {
    BuffersConserved(first, es, z, h);
    NoBurstsAtFirst(z.workers, h);
  }

  lemma CountsPartition(a: set<nat>, b: set<nat>, c: set<nat>, all: set<nat>)
    requires forall h :: One(h in a) + One(h in b) + One(h in c) == One(h in all)
    ensures a + b + c == all && a !! b !! c && |a| + |b| + |c| == |all|
  {
    assert a + b + c == all;
    assert |a + b| == |a| + |b| && |a + b + c| == |a + b| + |c|;
  }

  /** Between passes every buffer of the pool is free or with the NIC, on one side only. */
  lemma IdlePoolIsWhole(first: System, es: seq<Event>, z: System)
    requires Initial(first) && Leads(first, es, z)
    requires forall w :: 0 <= w < |z.workers| ==> z.workers[w].burst == []
    ensures z.free + z.sending + z.receiving == first.free
    ensures z.free !! z.sending !! z.receiving
    ensures |z.free| + |z.sending| + |z.receiving| == |first.free|
  {
    forall h ensures One(h in z.free) + One(h in z.sending) + One(h in z.receiving) == One(h in first.free) {
      IdlePlaces(first, es, z, h);
    }
    CountsPartition(z.free, z.sending, z.receiving, first.free);
  }

  // ---------------------------------------------------------------- the other reading of an allocation

  /** A build loop whose allocations return 0 on success, as DPDK documents, while the worker takes 0 for
      failure. `slot` is the buffer that stands in the burst array behind the frames built so far, `lost`
      the buffers whose last pointer has been overwritten. */
  datatype Pass = Pass(tx: Tx, slot: Option<nat>, lost: seq<nat>)

  function Kept(slot: Option<nat>): seq<nat> {
    if slot.Some? then [slot.value] else []
  }

  /** The iteration gets as far as an allocation. */
  predicate Tries(p: Pass, id: u32) {
    id in p.tx.flows && p.tx.flows[id].active
  }

  /** One iteration: a success is passed over and leaves its buffer in the slot; a failure goes on with what the
      slot holds, if anything. Sizes that overrun their buffer are left out, as in the machine. */
  function Iterate(p: Pass, id: u32, d: Draw, room: nat): Pass {
    var tx := p.tx;
    if !Tries(p, id) then p
    else if Allocated(tx.free, d).Some? then
      Pass(tx.(free := tx.free - {d.handle.value}), d.handle, p.lost + Kept(p.slot))
    else if p.slot.None? then p
    else match Attempt(tx.flows[id], d, room)
      case None => Pass(tx.(free := tx.free + {p.slot.value}), None, p.lost)
      case Some(b) => Pass(Tx(tx.flows[id := b.flow], tx.free, tx.burst + [Slot(p.slot.value, id, b.frame)]), None,
                           p.lost)
  }

  /** The loop, and its end, where the buffer in the slot is forgotten with the array. */
  function Loop(p: Pass, ids: seq<u32>, i: nat, draws: seq<Draw>, burstSize: nat, room: nat): Pass
    requires i <= |ids| <= |draws|
    decreases |ids| - i
  {
    if i == |ids| || |p.tx.burst| >= burstSize then p.(slot := None, lost := p.lost + Kept(p.slot))
    else Loop(Iterate(p, ids[i], draws[i], room), ids, i + 1, draws, burstSize, room)
  }

  /** The allocations of the loop, in order: which of them succeed. */
  function Outcomes(p: Pass, ids: seq<u32>, i: nat, draws: seq<Draw>, burstSize: nat, room: nat): seq<bool>
    requires i <= |ids| <= |draws|
    decreases |ids| - i
  {
    if i == |ids| || |p.tx.burst| >= burstSize then []
    else (if Tries(p, ids[i]) then [Allocated(p.tx.free, draws[i]).Some?] else [])
         + Outcomes(Iterate(p, ids[i], draws[i], room), ids, i + 1, draws, burstSize, room)
  }

  /** Every success is followed at once by a failure. */
  ghost predicate Rescued(outs: seq<bool>) {
    forall i :: 0 <= i < |outs| && outs[i] ==> i + 1 < |outs| && !outs[i + 1]
  }

  lemma RescuedCons(first: bool, rest: seq<bool>)
    ensures Rescued([first] + rest) <==> Rescued(rest) && (first ==> rest != [] && !rest[0])
  {
    var outs := [first] + rest;
    if Rescued(outs) {
      forall i | 0 <= i < |rest| && rest[i] ensures i + 1 < |rest| && !rest[i + 1] {
        assert outs[i + 1] == rest[i] && (i + 1 < |rest| ==> outs[i + 2] == rest[i + 1]);
      }
      assert first ==> outs[0] && outs[1] == rest[0];
    }
    if Rescued(rest) && (first ==> rest != [] && !rest[0]) {
      forall i | 0 <= i < |outs| && outs[i] ensures i + 1 < |outs| && !outs[i + 1] {
        if i > 0 {
          assert rest[i - 1];
        }
      }
    }
  }

  /** A full burst never has a buffer in the slot behind it. */
  predicate Fits(p: Pass, burstSize: nat) {
    p.slot.Some? ==> |p.tx.burst| < burstSize
  }

  lemma {:induction false} LossesOf(p: Pass, ids: seq<u32>, i: nat, draws: seq<Draw>, burstSize: nat, room: nat)
    requires i <= |ids| <= |draws| && Fits(p, burstSize)
    ensures var outs := Outcomes(p, ids, i, draws, burstSize, room);
            Loop(p, ids, i, draws, burstSize, room).lost == [] <==>
              p.lost == [] && Rescued(outs) && (p.slot.Some? ==> outs != [] && !outs[0])
    decreases |ids| - i
  {
    if i < |ids| && |p.tx.burst| < burstSize {
      var q := Iterate(p, ids[i], draws[i], room);
      var rest := Outcomes(q, ids, i + 1, draws, burstSize, room);
      LossesOf(q, ids, i + 1, draws, burstSize, room);
      if Tries(p, ids[i]) {
        RescuedCons(Allocated(p.tx.free, draws[i]).Some?, rest);
      } else {
        assert [] + rest == rest;
      }
    }
  }

  /** Under that reading a pass over the worker's own flows and draws loses no buffer if and only if a failed
      allocation directly follows every successful one. */
  lemma DocumentedReadingLosesNothingIff(flows: map<u32, Flow>, free: set<nat>, ids: seq<u32>, draws: seq<Draw>,
                                         burstSize: nat, room: nat)
    requires |ids| <= |draws|
    ensures var p := Pass(Tx(flows, free, []), None, []);
            Loop(p, ids, 0, draws, burstSize, room).lost == [] <==> Rescued(Outcomes(p, ids, 0, draws, burstSize, room))
  {
    LossesOf(Pass(Tx(flows, free, []), None, []), ids, 0, draws, burstSize, room);
  }

  /** With a pool that never runs out it builds nothing, counts nothing, and loses every buffer it is given. */
  lemma {:induction false} DocumentedReadingOfAFullPool(p: Pass, ids: seq<u32>, i: nat, draws: seq<Draw>,
                                                        burstSize: nat, room: nat)
    requires i <= |ids| <= |draws|
    requires forall j :: 0 <= j < |Outcomes(p, ids, i, draws, burstSize, room)| ==>
               Outcomes(p, ids, i, draws, burstSize, room)[j]
    ensures var z := Loop(p, ids, i, draws, burstSize, room);
            && z.tx.burst == p.tx.burst && z.tx.flows == p.tx.flows && z.tx.free <= p.tx.free
            && |z.lost| == |p.lost| + |Kept(p.slot)| + |Outcomes(p, ids, i, draws, burstSize, room)|
    decreases |ids| - i
  {
    if i < |ids| && |p.tx.burst| < burstSize {
      var q := Iterate(p, ids[i], draws[i], room);
      var outs, rest := Outcomes(p, ids, i, draws, burstSize, room), Outcomes(q, ids, i + 1, draws, burstSize, room);
      forall j | 0 <= j < |rest| ensures rest[j] {
        assert rest[j] == outs[j + (|outs| - |rest|)];
      }
      assert Tries(p, ids[i]) ==> outs[0];
      DocumentedReadingOfAFullPool(q, ids, i + 1, draws, burstSize, room);
    }
  }

  /** Where a buffer is in such a pass. */
  function PlacesIn(p: Pass, h: nat): nat {
    One(h in p.tx.free) + Copies(p.tx.burst, h) + One(p.slot == Some(h)) + multiset(p.lost)[h]
  }

  lemma IterateMoves(p: Pass, id: u32, d: Draw, room: nat, h: nat)
    requires PlacesIn(p, h) <= 1
    ensures PlacesIn(Iterate(p, id, d, room), h) == PlacesIn(p, h)
  {
    if Tries(p, id) && Allocated(p.tx.free, d).None? && p.slot.Some? && Attempt(p.tx.flows[id], d, room).Some? {
      var x := Slot(p.slot.value, id, Attempt(p.tx.flows[id], d, room).value.frame);
      CopiesAppend(p.tx.burst, [x], h);
      assert Copies([x], h) == One(x.handle == h) + Copies([], h) by { assert [x][1..] == []; }
    }
  }

  /** Lost buffers are nowhere else: each buffer of the pool ends free, in the burst, or lost, in one place. */
  lemma {:induction false} DocumentedReadingPartitions(p: Pass, ids: seq<u32>, i: nat, draws: seq<Draw>,
                                                       burstSize: nat, room: nat, h: nat)
    requires i <= |ids| <= |draws| && PlacesIn(p, h) <= 1
    ensures PlacesIn(Loop(p, ids, i, draws, burstSize, room), h) == PlacesIn(p, h)
    decreases |ids| - i
  {
    if i < |ids| && |p.tx.burst| < burstSize {
      IterateMoves(p, ids[i], draws[i], room, h);
      DocumentedReadingPartitions(Iterate(p, ids[i], draws[i], room), ids, i + 1, draws, burstSize, room, h);
    }
  }
}
