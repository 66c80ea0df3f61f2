/** A worker's pass, as the Worker class performs it, is a run of the machine. */
module PassRuns {
  import opened Words
  import opened FlowSchedulers
  import opened MetricsCollectors
  import opened Workers
  import opened Pipelines

  /** The machine's state around worker `w` in the middle of its build loop. */
  ghost predicate Building(s: System, w: nat, tx: Tx, ids: seq<u32>, i: nat)
    requires i <= |ids|
  {
    && w < |s.workers| && s.workers[w].ready == ids[i..] && s.workers[w].burst == tx.burst
    && s.sched.flows == tx.flows && s.free == tx.free
  }

  function Built(s: System, w: nat, tx: Tx): System
    requires w < |s.workers|
  {
    s.(sched := s.sched.(flows := tx.flows), free := tx.free,
       workers := s.workers[w := s.workers[w].(ready := [], burst := tx.burst)])
  }

  lemma BuildOne(s: System, w: nat, tx: Tx, ids: seq<u32>, i: nat, d: Draw) returns (y: System)
    requires i < |ids| && Building(s, w, tx, ids, i) && |tx.burst| < s.burstSize && ImixContract(d.imixSize)
    requires !Spilling(tx.flows, tx.free, ids[i], d, s.room)
    ensures Enabled(s, Event.Build(w, d)) && y == Next(s, Event.Build(w, d))
    ensures Building(y, w, BuildStep(tx, ids[i], d, s.room), ids, i + 1)
    ensures forall t :: Built(y, w, t) == Built(s, w, t)
    ensures y.burstSize == s.burstSize && y.room == s.room
  {
    y := Next(s, Event.Build(w, d));
    assert ids[i..][1..] == ids[i + 1..];
    forall t ensures Built(y, w, t) == Built(s, w, t) {
      assert Built(y, w, t).workers == Built(s, w, t).workers;
    }
  }

  /** The build loop is a run of builds, the last of which drops what a full burst leaves over. */
  lemma {:induction false} BuildLoopRuns(s: System, w: nat, tx: Tx, ids: seq<u32>, i: nat, draws: seq<Draw>)
    returns (es: seq<Event>)
    requires i <= |ids| <= |draws| && Building(s, w, tx, ids, i)
    requires forall k :: 0 <= k < |draws| ==> ImixContract(draws[k].imixSize)
    requires StaysInside(tx, ids, i, draws, s.burstSize, s.room)
    ensures Leads(s, es, Built(s, w, BuildAll(tx, ids, i, draws, s.burstSize, s.room)))
    decreases |ids| - i
  {
    if i == |ids| {
      es := [];
      assert Built(s, w, tx).workers == s.workers;
    } else if |tx.burst| >= s.burstSize {
      es := [Event.Build(w, Draw(None, None, 0, 0))];
      var y := Next(s, es[0]);
      assert y == Built(s, w, tx);
      assert es[1..] == [] && Leads(y, [], y);
    } else {
      var y := BuildOne(s, w, tx, ids, i, draws[i]);
      var rest := BuildLoopRuns(y, w, BuildStep(tx, ids[i], draws[i], s.room), ids, i + 1, draws);
      es := [Event.Build(w, draws[i])] + rest;
      assert es[1..] == rest;
    }
  }

  /** What the machine looks like after the whole pass, given what the pass computes. */
  ghost predicate Passed(s: System, z: System, w: nat, tx: Tx, n: nat)
    requires w < |s.workers| && n <= |tx.burst| < TWO_16
  {
    && z.sched == s.sched.(flows := tx.flows)
    && Wire(z.free, z.sending, z.cores) == Transmit(Wire(tx.free, s.sending, s.cores), s.workers[w].core, tx.burst, n)
    && z.workers == s.workers && z.receiving == s.receiving
  }

  lemma SendIfAny(s: System, w: nat, tx: Tx, n: nat) returns (es: seq<Event>, z: System)
    requires w < |s.workers| && s.workers[w].ready == [] && s.workers[w].burst == [] && n <= |tx.burst| < TWO_16
    ensures Leads(Built(s, w, tx), es, z) && Passed(s, z, w, tx, n)
  {
    var y := Built(s, w, tx);
    if tx.burst == [] {
      es, z := [], y;
      TransmitNothing(Wire(tx.free, s.sending, s.cores), s.workers[w].core, tx.burst);
    } else {
      es := [Send(w, n)];
      z := Next(y, es[0]);
      assert es[1..] == [] && Leads(z, [], z);
    }
  }

  lemma PollRuns(s: System, w: nat, order: seq<u32>, now: u64, ticks: seq<u64>) returns (e: Event, y: System)
    requires w < |s.workers| && s.workers[w].ready == [] && s.workers[w].burst == []
    requires IsListing(order, s.sched.flows.Keys) && |ticks| == |order|
    ensures Enabled(s, e) && y == Next(s, e) && y.burstSize == s.burstSize && y.room == s.room
    ensures var r := ReadyLoop(s.sched.flows, order, 0, now, ticks, s.burstSize, []);
            Building(y, w, Tx(r.flows, s.free, []), r.ids, 0)
    ensures forall t :: Built(y, w, t) == Built(s, w, t)
  {
    e := Event.Poll(w, order, now, ticks);
    y := Next(s, e);
    var r := ReadyLoop(s.sched.flows, order, 0, now, ticks, s.burstSize, []);
    assert r.ids[0..] == r.ids;
    forall t ensures Built(y, w, t) == Built(s, w, t) {
      assert Built(y, w, t).workers == Built(s, w, t).workers;
    }
  }

  /** The effect `ProcessFlows` is proved to have, ready loop, build loop and transmission, is the effect of
      one poll, then builds, then a send: every theorem about runs is about workers' passes. */
  lemma PassIsRun(s: System, w: nat, order: seq<u32>, now: u64, ticks: seq<u64>, draws: seq<Draw>, accepted: nat)
    returns (es: seq<Event>, z: System)
    requires w < |s.workers| && s.workers[w].ready == [] && s.workers[w].burst == []
    requires IsListing(order, s.sched.flows.Keys) && |ticks| == |order| == |draws|
    requires forall k :: 0 <= k < |draws| ==> ImixContract(draws[k].imixSize)
    requires PassStaysInside(s.sched.flows, s.free, order, now, ticks, draws, s.burstSize, s.room)
    ensures var tx := BuildPass(s.sched.flows, s.free, order, now, ticks, draws, s.burstSize, s.room);
            Leads(s, es, z) && Passed(s, z, w, tx, Min(accepted, |tx.burst|))
  {
    var tx := BuildPass(s.sched.flows, s.free, order, now, ticks, draws, s.burstSize, s.room);
    var r := ReadyLoop(s.sched.flows, order, 0, now, ticks, s.burstSize, []);
    ReadyLoopLength(s.sched.flows, order, 0, now, ticks, s.burstSize, []);
    var e, y := PollRuns(s, w, order, now, ticks);
    var builds := BuildLoopRuns(y, w, Tx(r.flows, s.free, []), r.ids, 0, draws);
    var send;
    send, z := SendIfAny(s, w, tx, Min(accepted, |tx.burst|));
    LeadsAppend(y, builds, Built(s, w, tx), send, z);
    es := [e] + (builds + send);
    assert es[1..] == builds + send;
  }
}
