/** Flow table, 5-tuple index, expiry and the ready loop of the flow scheduler. The functions on
    `Sched` say what each call does; the classes at the end do it in place. */
module FlowSchedulers {
  import opened Words
  import opened TokenBuckets
  import opened TcpStates
  import opened FlowKeys
  import opened Packets

  /** What a caller of `add_flow` provides. */
  datatype FlowSpec = FlowSpec(id: u32, key: FlowKey, packetSize: u32, protocol: string, pps: u64,
                               duration: u32, stateless: bool, dstMac: Option<Mac>)

  /** One entry of the flow table. */
  datatype Flow = Flow(spec: FlowSpec, template: Template, bucket: Bucket, conn: Option<Conn>,
                       packetsSent: u64, bytesSent: u64, startTime: u64, active: bool)

  /** The flow table and the index from keys (both directions) to flow ids. */
  datatype Sched = Sched(flows: map<u32, Flow>, index: map<FlowKey, u32>)

  const BROADCAST: Mac := [0xFF, 0xFF, 0xFF, 0xFF, 0xFF, 0xFF]

  function TemplateSize(spec: FlowSpec): u32 {
    if spec.packetSize == 0 then 64 else spec.packetSize
  }

  predicate Stateful(spec: FlowSpec) {
    !spec.stateless && spec.protocol == "tcp"
  }

  /** The entry `add_flow` creates, when the template can be built. */
  function NewFlow(spec: FlowSpec, srcMac: Mac, now: u64): Option<Flow> {
    var dst := if spec.dstMac.Some? then spec.dstMac.value else BROADCAST;
    match TemplateFor(spec.key, TemplateSize(spec), spec.protocol, srcMac, dst)
    case None => None
    case Some(t) =>
      Some(Flow(spec, t, Full(spec.pps, BurstFor(spec.pps), now),
                if Stateful(spec) then Some(NEW_CONN) else None, 0, 0, 0, false))
  }

  function Indexed(index: map<FlowKey, u32>, k: FlowKey, id: u32): map<FlowKey, u32> {
    index[k := id][Reverse(k) := id]
  }

  function AfterAdd(s: Sched, spec: FlowSpec, srcMac: Mac, now: u64): Sched {
    match NewFlow(spec, srcMac, now)
    case None => s
    case Some(f) => Sched(s.flows[spec.id := f], Indexed(s.index, spec.key, spec.id))
  }

  function AfterRemove(s: Sched, id: u32): Sched {
    if id !in s.flows then s
    else
      var k := s.flows[id].spec.key;
      Sched(s.flows - {id}, s.index - {k} - {Reverse(k)})
  }

  /** `start_flow` stamps the start with one reading and refills the bucket with another. */
  function Started(f: Flow, now: u64, bucketNow: u64): Flow {
    f.(startTime := now, active := true, bucket := Full(f.bucket.rate, f.bucket.burst, bucketNow))
  }

  function AfterStart(s: Sched, id: u32, now: u64, bucketNow: u64): Sched {
    if id in s.flows then s.(flows := s.flows[id := Started(s.flows[id], now, bucketNow)]) else s
  }

  function AfterStop(s: Sched, id: u32): Sched {
    if id in s.flows then s.(flows := s.flows[id := s.flows[id].(active := false)]) else s
  }

  /** `clear_all_flows` empties the table and leaves the index alone. */
  function AfterClear(s: Sched): Sched {
    s.(flows := map[])
  }

  predicate Expired(f: Flow, now: u64) {
    f.spec.duration != 0 && f.startTime != 0 && (now - f.startTime) % TWO_64 >= f.spec.duration * NANOS
  }

  /** The loop body of `get_ready_flows` for one flow: idle and expired flows are passed over, any other
      flow is charged one token if it has one. */
  datatype Polled = Polled(flow: Flow, granted: bool, passedOver: bool)

  function PollFlow(f: Flow, now: u64, tick: u64): Polled {
    if !f.active then Polled(f, false, true)
    else if Expired(f, now) then Polled(f.(active := false), false, true)
    else Polled(f.(bucket := Consume(f.bucket, tick, 1)), Granted(f.bucket, tick, 1) > 0, false)
  }

  /** The table's iteration order is arbitrary: any listing of its ids without repetition. */
  ghost predicate IsListing(order: seq<u32>, ids: set<u32>) {
    && (forall id :: id in order <==> id in ids)
    && (forall i, j :: 0 <= i < j < |order| ==> order[i] != order[j])
  }

  datatype Ready = Ready(flows: map<u32, Flow>, ids: seq<u32>)

  /** The ready loop from position `i` of the listing on, with `ids` already granted. The cap is
      looked at after each flow that was not passed over. */
  function ReadyLoop(flows: map<u32, Flow>, order: seq<u32>, i: nat, now: u64, ticks: seq<u64>, max: nat,
                     ids: seq<u32>): Ready
    requires i <= |order| == |ticks| && forall id :: id in order ==> id in flows
    decreases |order| - i
  {
    if i == |order| then Ready(flows, ids)
    else
      var p := PollFlow(flows[order[i]], now, ticks[i]);
      var flows' := flows[order[i] := p.flow];
      var ids' := if p.granted then ids + [order[i]] else ids;
      if !p.passedOver && |ids'| >= max then Ready(flows', ids')
      else ReadyLoop(flows', order, i + 1, now, ticks, max, ids')
  }

  lemma ReadyLoopStep(flows: map<u32, Flow>, order: seq<u32>, i: nat, now: u64, ticks: seq<u64>, max: nat,
                      ids: seq<u32>, p: Polled)
    requires i < |order| == |ticks| && forall id :: id in order ==> id in flows
    requires p == PollFlow(flows[order[i]], now, ticks[i])
    ensures var flows', ids' := flows[order[i] := p.flow], if p.granted then ids + [order[i]] else ids;
            ReadyLoop(flows, order, i, now, ticks, max, ids)
            == if !p.passedOver && |ids'| >= max then Ready(flows', ids')
               else ReadyLoop(flows', order, i + 1, now, ticks, max, ids')
  {
  }

  /** The flow a received segment belongs to, as `handle_tcp_rx` finds it. */
  function Lookup(s: Sched, k: FlowKey): Option<u32> {
    if k in s.index && s.index[k] in s.flows then Some(s.index[k]) else None
  }

  function AfterReceive(s: Sched, k: FlowKey, g: Segment, now: u64): Sched {
    match Lookup(s, k)
    case None => s
    case Some(id) =>
      var f := s.flows[id];
      if Stateful(f.spec) && f.conn.Some? then
        s.(flows := s.flows[id := f.(conn := Some(Receive(f.conn.value, g, now)))])
      else s
  }

  /** An event raised by the environment on a flow's connection (no code of the repository sends SYNs,
      FINs, closes or timeouts). */
  function AfterEvent(s: Sched, id: u32, e: Event, now: u64): Sched {
    if id in s.flows && s.flows[id].conn.Some? then
      s.(flows := s.flows[id := s.flows[id].(conn := Some(Process(s.flows[id].conn.value, e, now)))])
    else s
  }

  // ---------------------------------------------------------------- the ready loop

  /** How often an id was granted. */
  function Times(ids: seq<u32>, id: u32): nat {
    multiset(ids)[id]
  }

  /** What the loop does to one flow: left alone, or polled once with the reading of its own position and
      charged one token exactly when it is granted. */
  ghost predicate ChargedOnce(f: Flow, g: Flow, now: u64, order: seq<u32>, ticks: seq<u64>, id: u32, grants: int)
    requires |order| == |ticks|
  {
    || (g == f && grants == 0)
    || exists k :: 0 <= k < |order| && order[k] == id && g == PollFlow(f, now, ticks[k]).flow
                   && grants == (if PollFlow(f, now, ticks[k]).granted then 1 else 0)
  }

  lemma {:induction false} ReadyLoopKeeps(flows: map<u32, Flow>, order: seq<u32>, i: nat, now: u64, ticks: seq<u64>,
                                          max: nat, ids: seq<u32>, id: u32)
    requires i <= |order| == |ticks| && (forall j :: j in order ==> j in flows) && id in flows
    requires id !in order[i..]
    ensures var r := ReadyLoop(flows, order, i, now, ticks, max, ids);
            r.flows.Keys == flows.Keys && r.flows[id] == flows[id] && Times(r.ids, id) == Times(ids, id)
    decreases |order| - i
  {
    if i < |order| {
      var p := PollFlow(flows[order[i]], now, ticks[i]);
      var ids' := if p.granted then ids + [order[i]] else ids;
      assert order[i..] == [order[i]] + order[i + 1..];
      assert Times(ids + [order[i]], id) == Times(ids, id);
      if p.passedOver || |ids'| < max {
        ReadyLoopKeeps(flows[order[i] := p.flow], order, i + 1, now, ticks, max, ids', id);
      }
    }
  }

  lemma {:induction false} ReadyLoopCharges(flows: map<u32, Flow>, order: seq<u32>, i: nat, now: u64, ticks: seq<u64>,
                                            max: nat, ids: seq<u32>, id: u32)
    requires i <= |order| == |ticks| && (forall j :: j in order ==> j in flows) && id in flows
    requires forall j, k :: 0 <= j < k < |order| ==> order[j] != order[k]
    ensures var r := ReadyLoop(flows, order, i, now, ticks, max, ids);
            r.flows.Keys == flows.Keys
            && ChargedOnce(flows[id], r.flows[id], now, order, ticks, id, Times(r.ids, id) - Times(ids, id))
    decreases |order| - i
  {
    if i < |order| {
      var p := PollFlow(flows[order[i]], now, ticks[i]);
      var flows' := flows[order[i] := p.flow];
      var ids' := if p.granted then ids + [order[i]] else ids;
      assert Times(ids + [order[i]], id) == Times(ids, id) + if order[i] == id then 1 else 0;
      if p.passedOver || |ids'| < max {
        if order[i] == id {
          ReadyLoopKeeps(flows', order, i + 1, now, ticks, max, ids', id);
        } else {
          ReadyLoopCharges(flows', order, i + 1, now, ticks, max, ids', id);
        }
      }
    }
  }

  /** Only flows of the table are granted. */
  lemma {:induction false} ReadyLoopGrants(flows: map<u32, Flow>, order: seq<u32>, i: nat, now: u64, ticks: seq<u64>,
                                           max: nat, ids: seq<u32>)
    requires i <= |order| == |ticks| && (forall j :: j in order ==> j in flows)
    ensures var r := ReadyLoop(flows, order, i, now, ticks, max, ids);
            r.flows.Keys == flows.Keys && forall j :: j in r.ids ==> j in ids || j in flows
    decreases |order| - i
  {
    if i < |order| {
      var p := PollFlow(flows[order[i]], now, ticks[i]);
      var ids' := if p.granted then ids + [order[i]] else ids;
      if p.passedOver || |ids'| < max {
        ReadyLoopGrants(flows[order[i] := p.flow], order, i + 1, now, ticks, max, ids');
      }
    }
  }

  /** The loop grants at most `max` flows (or one, for max 0). */
  lemma {:induction false} ReadyLoopCap(flows: map<u32, Flow>, order: seq<u32>, i: nat, now: u64, ticks: seq<u64>,
                                        max: nat, ids: seq<u32>)
    requires i <= |order| == |ticks| && (forall j :: j in order ==> j in flows)
    requires |ids| < max || ids == []
    ensures |ReadyLoop(flows, order, i, now, ticks, max, ids).ids| <= if max == 0 then 1 else max
    decreases |order| - i
  {
    if i < |order| {
      var p := PollFlow(flows[order[i]], now, ticks[i]);
      var ids' := if p.granted then ids + [order[i]] else ids;
      if p.passedOver || |ids'| < max {
        ReadyLoopCap(flows[order[i] := p.flow], order, i + 1, now, ticks, max, ids');
      }
    }
  }

  lemma OneEntryChanged(a: map<u32, Flow>, b: map<u32, Flow>, id: u32, f: Flow)
    requires a.Keys == b.Keys && id in a && b[id] == f && forall j :: j in a && j != id ==> b[j] == a[j]
    ensures b == a[id := f] && (f == a[id] ==> b == a)
  {
  }

  // ---------------------------------------------------------------- the classes

  class FlowRecord {
    const spec: FlowSpec
    const template: Template
    const bucket: TokenBucket
    const conn: TcpConnection?
    var packetsSent: u64
    var bytesSent: u64
    var startTime: u64
    var active: bool

    ghost function View(): Flow
      reads this, bucket, conn
    {
      Flow(spec, template, bucket.View(), if conn == null then None else Some(conn.View()),
           packetsSent, bytesSent, startTime, active)
    }

    /** Record, bucket and connection were all made for flow `id` and belong to `r`. */
    ghost predicate MadeFor(id: u32, r: set<object>) {
      && spec.id == id && bucket.flow == id && (conn != null ==> conn.flow == id)
      && this in r && bucket in r && (conn != null ==> conn in r)
    }

    constructor (spec: FlowSpec, template: Template, now: u64)
      ensures View() == Flow(spec, template, Full(spec.pps, BurstFor(spec.pps), now),
                             if Stateful(spec) then Some(NEW_CONN) else None, 0, 0, 0, false)
      ensures fresh(bucket) && (conn != null ==> fresh(conn))
      ensures this.spec == spec && bucket.flow == spec.id && (conn != null ==> conn.flow == spec.id)
    {
      this.spec, this.template := spec, template;
      bucket := new TokenBucket(spec.pps, if spec.pps > 0 then spec.pps / 10 else 1000, now, spec.id);
      if !spec.stateless && spec.protocol == "tcp" {
        conn := new TcpConnection(spec.id);
      } else {
        conn := null;
      }
      packetsSent, bytesSent, startTime, active := 0, 0, 0, false;
    }

    method IsExpired(now: u64) returns (b: bool)
      ensures b == Expired(View(), now)
    {
      if spec.duration == 0 || startTime == 0 {
        return false;
      }
      var elapsed := (now - startTime) % TWO_64;
      b := elapsed >= spec.duration * NANOS;
    }

    method Start(now: u64, bucketNow: u64)
      modifies this, bucket
      ensures View() == Started(old(View()), now, bucketNow)
    {
      startTime := now;
      active := true;
      bucket.Reset(bucketNow);
    }

    method Poll(now: u64, tick: u64) returns (granted: bool, passedOver: bool)
      modifies this, bucket
      ensures Polled(View(), granted, passedOver) == PollFlow(old(View()), now, tick)
    {
      if !active {
        return false, true;
      }
      var expired := IsExpired(now);
      if expired {
        active := false;
        return false, true;
      }
      var n := bucket.TryConsume(1, tick);
      granted, passedOver := n > 0, false;
    }
  }

  class FlowScheduler {
    var flows: map<u32, FlowRecord>
    var index: map<FlowKey, u32>
    const srcMac: Mac
    ghost var Repr: set<object>

    /** The objects of a record were made for its own id, so no two records share one. */
    ghost predicate Valid()
      reads this, Repr
    {
      this in Repr && forall id :: id in flows ==> flows[id].MadeFor(id, Repr)
    }

    ghost function View(): Sched
      requires Valid()
      reads this, Repr
    {
      Sched(map id | id in flows :: flows[id].View(), index)
    }

    constructor (mac: Mac)
      ensures Valid() && fresh(Repr) && View() == Sched(map[], map[]) && srcMac == mac
    {
      flows, index, srcMac := map[], map[], mac;
      Repr := {this};
    }

    method AddFlow(spec: FlowSpec, now: u64) returns (ok: bool)
      requires Valid()
      modifies this
      ensures Valid() && fresh(Repr - old(Repr))
      ensures View() == AfterAdd(old(View()), spec, srcMac, now)
      ensures ok <==> NewFlow(spec, srcMac, now).Some?
    {
      var f := MakeRecord(spec, now);
      if f == null {
        return false;
      }
      Store(f);
      ok := true;
    }

    /** The record of a new flow, if its template can be built. */
    method MakeRecord(spec: FlowSpec, now: u64) returns (f: FlowRecord?)
      requires Valid()
      ensures Valid() && View() == old(View())
      ensures f == null <==> NewFlow(spec, srcMac, now).None?
      ensures f != null ==> fresh(f) && fresh(f.bucket) && (f.conn != null ==> fresh(f.conn))
      ensures f != null ==> f.MadeFor(spec.id, {f, f.bucket} + (if f.conn == null then {} else {f.conn}))
      ensures f != null ==> NewFlow(spec, srcMac, now) == Some(f.View())
    {
      var dst := if spec.dstMac.Some? then spec.dstMac.value else BROADCAST;
      var size := if spec.packetSize == 0 then 64 else spec.packetSize;
      var t := BuildTemplate(spec.key, size, spec.protocol, srcMac, dst);
      if t.None? {
        return null;
      }
      f := new FlowRecord(spec, t.value, now);
      assert View() == old(View());
    }

    method Store(f: FlowRecord)
      requires Valid() && f.MadeFor(f.spec.id, {f, f.bucket} + (if f.conn == null then {} else {f.conn}))
      modifies this
      ensures Valid() && Repr == old(Repr) + {f, f.bucket} + (if f.conn == null then {} else {f.conn})
      ensures View() == Sched(old(View()).flows[f.spec.id := f.View()], Indexed(old(index), f.spec.key, f.spec.id))
    {
      IndexKeys(f.spec.key, f.spec.id);
      Grow(f);
      PutFlow(f);
    }

    ghost method Grow(f: FlowRecord)
      requires Valid()
      modifies this`Repr
      ensures Valid() && View() == old(View())
      ensures Repr == old(Repr) + {f, f.bucket} + (if f.conn == null then {} else {f.conn})
    {
      Repr := Repr + {f, f.bucket} + if f.conn == null then {} else {f.conn};
    }

    method PutFlow(f: FlowRecord)
      requires Valid() && f.MadeFor(f.spec.id, Repr)
      modifies this`flows
      ensures Valid() && View() == old(View()).(flows := old(View()).flows[f.spec.id := f.View()])
    {
      flows := flows[f.spec.id := f];
    }

    method IndexKeys(key: FlowKey, id: u32)
      requires Valid()
      modifies this`index
      ensures Valid() && View() == old(View()).(index := Indexed(old(index), key, id))
    {
      index := index[key := id];
      index := index[Reverse(key) := id];
    }

    method RemoveFlow(id: u32) returns (ok: bool)
      requires Valid()
      modifies this
      ensures Valid() && Repr == old(Repr)
      ensures View() == AfterRemove(old(View()), id) && (ok <==> id in old(flows))
    {
      if id !in flows {
        return false;
      }
      var key := flows[id].spec.key;
      index := index - {key};
      index := index - {Reverse(key)};
      flows := flows - {id};
      ok := true;
    }

    method StartFlow(id: u32, now: u64, bucketNow: u64) returns (ok: bool)
      requires Valid()
      modifies Repr - {this}
      ensures Valid()
      ensures View() == AfterStart(old(View()), id, now, bucketNow) && (ok <==> id in flows)
    {
      if id !in flows {
        return false;
      }
      flows[id].Start(now, bucketNow);
      ok := true;
    }

    method StopFlow(id: u32) returns (ok: bool)
      requires Valid()
      modifies Repr - {this}
      ensures Valid()
      ensures View() == AfterStop(old(View()), id) && (ok <==> id in flows)
    {
      if id !in flows {
        return false;
      }
      flows[id].active := false;
      ok := true;
    }

    /** `order` is the iteration order of the table, `now` the reading at entry and `ticks` the reading
        each `try_consume` makes. */
    method GetReadyFlows(max: u32, order: seq<u32>, now: u64, ticks: seq<u64>) returns (ready: seq<u32>)
      requires Valid() && IsListing(order, flows.Keys) && |ticks| == |order|
      modifies Repr - {this}
      ensures Valid()
      ensures Ready(View().flows, ready) == ReadyLoop(old(View()).flows, order, 0, now, ticks, max, [])
    {
      ready := [];
      var i := 0;
      while i < |order|
        invariant 0 <= i <= |order|
        invariant Valid()
        invariant ReadyLoop(View().flows, order, i, now, ticks, max, ready)
                  == ReadyLoop(old(View()).flows, order, 0, now, ticks, max, [])
      {
        ghost var before, taken := View().flows, ready;
        var granted, passedOver := PollRecord(order[i], now, ticks[i]);
        ReadyLoopStep(before, order, i, now, ticks, max, taken, Polled(View().flows[order[i]], granted, passedOver));
        if granted {
          ready := ready + [order[i]];
        }
        if !passedOver && |ready| >= max {
          break;
        }
        i := i + 1;
      }
    }

    method PollRecord(id: u32, now: u64, tick: u64) returns (granted: bool, passedOver: bool)
      requires Valid() && id in flows
      modifies Repr - {this}
      ensures Valid()
      ensures Polled(View().flows[id], granted, passedOver) == PollFlow(old(View()).flows[id], now, tick)
      ensures View().flows == old(View()).flows[id := View().flows[id]]
    {
      granted, passedOver := flows[id].Poll(now, tick);
      OnlyFlowChanged(id);
      OneEntryChanged(old(View()).flows, View().flows, id, flows[id].View());
    }

    method GetFlow(id: u32) returns (f: FlowRecord?)
      requires Valid()
      ensures f == if id in flows then flows[id] else null
    {
      if id !in flows {
        return null;
      }
      f := flows[id];
    }

    method HandleTcpRx(key: FlowKey, g: Segment, now: u64)
      requires Valid()
      modifies Repr - {this}
      ensures Valid()
      ensures View() == AfterReceive(old(View()), key, g, now)
    {
      if key !in index {
        return;
      }
      if index[key] !in flows {
        return;
      }
      var f := flows[index[key]];
      if f.spec.stateless || f.spec.protocol != "tcp" || f.conn == null {
        return;
      }
      f.conn.ReceiveSegment(g, now);
    }

    method ClearAllFlows()
      requires Valid()
      modifies this
      ensures Valid() && Repr == old(Repr) && View() == AfterClear(old(View()))
    {
      flows := map[];
    }

    /** Changing nothing but the objects of one record changes nothing but its entry. */
    twostate lemma OnlyFlowChanged(id: u32)
      requires old(Valid()) && id in old(flows) && unchanged(this)
      requires forall o :: o in old(Repr) && o != flows[id] && o != flows[id].bucket && o != flows[id].conn ==>
                 unchanged(o)
      ensures Valid()
      ensures forall j :: j in flows && j != id ==> View().flows[j] == old(View()).flows[j]
    {
      forall j | j in flows && j != id ensures flows[j].View() == old(flows[j].View()) {
        assert flows[j] != flows[id] && flows[j].bucket != flows[id].bucket;
        assert unchanged(flows[j]) && unchanged(flows[j].bucket);
      }
    }
  }
}
