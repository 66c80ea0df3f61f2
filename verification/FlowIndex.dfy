/** The 5-tuple index against a plain scan of the flow table, over any interleaving of calls. */
module FlowIndexes {
  import opened Words
  import opened FlowKeys
  import opened Packets
  import opened FlowSchedulers

  /** The index treats both directions of a connection alike. */
  ghost predicate Symmetric(index: map<FlowKey, u32>) {
    forall k :: k in index ==> Reverse(k) in index && index[Reverse(k)] == index[k]
  }

  predicate SameConnection(a: FlowKey, b: FlowKey) {
    a == b || a == Reverse(b)
  }

  /** The scan: every flow whose key, in either direction, is `k`. */
  ghost function Owners(s: Sched, k: FlowKey): set<u32> {
    set id | id in s.flows && SameConnection(s.flows[id].spec.key, k)
  }

  /** What `handle_tcp_rx` finds for a key: an index entry whose flow is in the table. */
  ghost function Found(s: Sched, k: FlowKey): set<u32> {
    match Lookup(s, k)
    case None => {}
    case Some(id) => {id}
  }

  /** The receive path resolves every key exactly as the scan does. */
  ghost predicate Agrees(s: Sched) {
    forall k :: Found(s, k) == Owners(s, k)
  }

  /** Under agreement, what the receive path resolves a key to is the one flow a scan would find, for a key
      and its reverse alike. */
  lemma LookupIsScan(s: Sched, k: FlowKey)
    requires Agrees(s)
    ensures Owners(s, k) == (match Lookup(s, k) case None => {} case Some(id) => {id})
    ensures Lookup(s, k) == Lookup(s, Reverse(k))
  {
    assert Found(s, k) == Owners(s, k) == Owners(s, Reverse(k)) == Found(s, Reverse(k));
    assert Lookup(s, k).Some? ==> Lookup(s, k).value in Found(s, Reverse(k));
    assert Lookup(s, Reverse(k)).Some? ==> Lookup(s, Reverse(k)).value in Found(s, k);
  }

  // ---------------------------------------------------------------- single calls

  lemma AddKeepsSymmetry(s: Sched, spec: FlowSpec, mac: Mac, now: u64)
    requires Symmetric(s.index)
    ensures Symmetric(AfterAdd(s, spec, mac, now).index)
  {
  }

  lemma RemoveKeepsSymmetry(s: Sched, id: u32)
    requires Symmetric(s.index)
    ensures Symmetric(AfterRemove(s, id).index)
  {
  }

  /** What keeps an add from misleading the lookup: no other flow is on the connection, and every index entry
      that holds the id is for this very connection. */
  ghost predicate SafeAdd(s: Sched, spec: FlowSpec) {
    && (forall j :: j in s.flows && j != spec.id ==> !SameConnection(s.flows[j].spec.key, spec.key))
    && (forall k :: k in s.index && s.index[k] == spec.id ==> SameConnection(spec.key, k))
  }

  /** An add keeps the agreement if and only if it is refused or safe. */
  lemma AddAgreesIff(s: Sched, spec: FlowSpec, mac: Mac, now: u64)
    requires Agrees(s)
    ensures Agrees(AfterAdd(s, spec, mac, now)) <==> (NewFlow(spec, mac, now).None? || SafeAdd(s, spec))
  {
    var t := AfterAdd(s, spec, mac, now);
    if NewFlow(spec, mac, now).Some? {
      if SafeAdd(s, spec) {
        SafeAddAgrees(s, spec, mac, now);
      } else if Agrees(t) {
        UnsafeAddDisagrees(s, spec, mac, now);
      }
    }
  }

  lemma SafeAddAgrees(s: Sched, spec: FlowSpec, mac: Mac, now: u64)
    requires Agrees(s) && NewFlow(spec, mac, now).Some? && SafeAdd(s, spec)
    ensures Agrees(AfterAdd(s, spec, mac, now))
  {
    var t := AfterAdd(s, spec, mac, now);
    forall k ensures Found(t, k) == Owners(t, k) {
      assert Found(s, k) == Owners(s, k);
      if SameConnection(spec.key, k) {
        OwnKeysTaken(s, t, spec, k);
      } else {
        OtherKeysKept(s, t, spec, k);
      }
    }
  }

  lemma OwnKeysTaken(s: Sched, t: Sched, spec: FlowSpec, k: FlowKey)
    requires t.flows.Keys == s.flows.Keys + {spec.id} && t.flows[spec.id].spec == spec && SameConnection(spec.key, k)
    requires forall j :: j in s.flows && j != spec.id ==>
               t.flows[j] == s.flows[j] && !SameConnection(s.flows[j].spec.key, spec.key)
    requires t.index == Indexed(s.index, spec.key, spec.id)
    ensures Owners(t, k) == {spec.id} == Found(t, k)
  {
  }

  lemma OtherKeysKept(s: Sched, t: Sched, spec: FlowSpec, k: FlowKey)
    requires t.flows.Keys == s.flows.Keys + {spec.id} && t.flows[spec.id].spec == spec && !SameConnection(spec.key, k)
    requires forall j :: j in s.flows && j != spec.id ==> t.flows[j] == s.flows[j]
    requires t.index == Indexed(s.index, spec.key, spec.id) && (k in s.index ==> s.index[k] != spec.id)
    ensures Owners(t, k) == Owners(s, k) - {spec.id} && Found(t, k) == Found(s, k)
  {
  }

  lemma UnsafeAddDisagrees(s: Sched, spec: FlowSpec, mac: Mac, now: u64)
    requires NewFlow(spec, mac, now).Some? && !SafeAdd(s, spec)
    ensures !Agrees(AfterAdd(s, spec, mac, now))
  {
    var t := AfterAdd(s, spec, mac, now);
    if j :| j in s.flows && j != spec.id && SameConnection(s.flows[j].spec.key, spec.key) {
      assert j in Owners(t, spec.key) && j !in Found(t, spec.key);
    } else {
      var k :| k in s.index && s.index[k] == spec.id && !SameConnection(spec.key, k);
      assert spec.id in Found(t, k) && spec.id !in Owners(t, k);
    }
  }

  /** Removing a flow always keeps the agreement. */
  lemma RemoveKeepsAgreement(s: Sched, id: u32)
    requires Agrees(s)
    ensures Agrees(AfterRemove(s, id))
  {
    var t := AfterRemove(s, id);
    if id in s.flows {
      var key := s.flows[id].spec.key;
      forall k ensures Found(t, k) == Owners(t, k) {
        assert Found(s, k) == Owners(s, k);
        if SameConnection(key, k) {
          assert id in Owners(s, k);
          assert Owners(s, k) == {id};
          assert Owners(t, k) == {};
        } else {
          assert id !in Owners(s, k) && id !in Found(s, k);
          assert Owners(t, k) == Owners(s, k);
        }
      }
    }
  }

  /** So does a clear, whatever it leaves in the index: entries without a flow resolve nothing. */
  lemma ClearAgrees(s: Sched)
    ensures Agrees(AfterClear(s))
  {
    var t := AfterClear(s);
    forall k ensures Found(t, k) == Owners(t, k) {
      assert Owners(t, k) == {};
    }
  }

  // ---------------------------------------------------------------- the raw index

  ghost function Hit(s: Sched, k: FlowKey): set<u32> {
    if k in s.index then {s.index[k]} else {}
  }

  /** The index map itself answers every key as the scan does. */
  ghost predicate Exact(s: Sched) {
    forall k :: Hit(s, k) == Owners(s, k)
  }

  /** No entry of the index is without its flow. */
  ghost predicate NoStale(s: Sched) {
    forall k :: k in s.index ==> s.index[k] in s.flows
  }

  /** The raw index is exact when the lookup is and no entry is stale. */
  lemma ExactIff(s: Sched)
    ensures Exact(s) <==> Agrees(s) && NoStale(s)
  {
    if Exact(s) {
      forall k ensures Found(s, k) == Owners(s, k) && (k in s.index ==> s.index[k] in s.flows) {
        assert Hit(s, k) == Owners(s, k);
        if k in s.index {
          assert s.index[k] in Owners(s, k);
        }
      }
    }
    if Agrees(s) && NoStale(s) {
      forall k ensures Hit(s, k) == Owners(s, k) {
        assert Found(s, k) == Owners(s, k);
      }
    }
  }

  /** The condition as the table alone shows it: no other flow is on the connection, and the id is new or
      already stands for it. */
  ghost predicate TableSafe(s: Sched, spec: FlowSpec) {
    && (forall j :: j in s.flows && j != spec.id ==> !SameConnection(s.flows[j].spec.key, spec.key))
    && (spec.id in s.flows ==> SameConnection(s.flows[spec.id].spec.key, spec.key))
  }

  /** Without stale entries the table is all a caller has to know. */
  lemma SafeAddWithoutStale(s: Sched, spec: FlowSpec)
    requires Agrees(s) && NoStale(s)
    ensures SafeAdd(s, spec) <==> TableSafe(s, spec)
  {
    if SafeAdd(s, spec) && spec.id in s.flows {
      var k := s.flows[spec.id].spec.key;
      assert Found(s, k) == Owners(s, k) && spec.id in Owners(s, k);
    }
    forall k | k in s.index && s.index[k] == spec.id
      ensures spec.id in s.flows && SameConnection(s.flows[spec.id].spec.key, k)
    {
      assert Found(s, k) == Owners(s, k);
    }
  }

  lemma AddLeavesNoStale(s: Sched, spec: FlowSpec, mac: Mac, now: u64)
    requires NoStale(s)
    ensures NoStale(AfterAdd(s, spec, mac, now))
  {
  }

  lemma RemoveLeavesNoStale(s: Sched, id: u32)
    requires Agrees(s) && NoStale(s)
    ensures NoStale(AfterRemove(s, id))
  {
    if id in s.flows {
      forall k | k in s.index && s.index[k] == id ensures SameConnection(k, s.flows[id].spec.key) {
        assert Found(s, k) == Owners(s, k);
      }
    }
  }

  lemma ClearLeavesStaleIff(s: Sched)
    requires Agrees(s)
    ensures NoStale(AfterClear(s)) ==> s.flows == map[]
    ensures NoStale(s) && s.flows == map[] ==> AfterClear(s) == s
  {
    if s.flows != map[] {
      var id :| id in s.flows;
      var k := s.flows[id].spec.key;
      assert Found(s, k) == Owners(s, k) && id in Owners(s, k);
      assert k in AfterClear(s).index;
    }
  }

  // ---------------------------------------------------------------- runs

  /** The calls that touch the table's keys or the index. */
  datatype TableCall = Add(spec: FlowSpec, mac: Mac, now: u64) | Remove(id: u32) | Clear

  function Apply(s: Sched, c: TableCall): Sched {
    match c
    case Add(spec, mac, now) => AfterAdd(s, spec, mac, now)
    case Remove(id) => AfterRemove(s, id)
    case Clear => AfterClear(s)
  }

  function ApplyAll(s: Sched, cs: seq<TableCall>): Sched
    decreases |cs|
  {
    if cs == [] then s else ApplyAll(Apply(s, cs[0]), cs[1..])
  }

  /** Symmetry needs no precondition: replaced ids, keys equal to their own reverse, shared keys and
      clears included. */
  lemma {:induction false} IndexSymmetricOnAllRuns(s: Sched, cs: seq<TableCall>)
    requires Symmetric(s.index)
    ensures Symmetric(ApplyAll(s, cs).index)
    decreases |cs|
  {
    if cs != [] {
      match cs[0] {
        case Add(spec, mac, now) => AddKeepsSymmetry(s, spec, mac, now);
        case Remove(id) => RemoveKeepsSymmetry(s, id);
        case Clear =>
      }
      IndexSymmetricOnAllRuns(Apply(s, cs[0]), cs[1..]);
    }
  }

  /** Every add of the run is refused or safe where it happens. */
  ghost predicate Disciplined(s: Sched, cs: seq<TableCall>)
    decreases |cs|
  {
    cs == []
    || (&& (cs[0].Add? ==> NewFlow(cs[0].spec, cs[0].mac, cs[0].now).None? || SafeAdd(s, cs[0].spec))
        && Disciplined(Apply(s, cs[0]), cs[1..]))
  }

  /** Agreement after every prefix of the run. */
  ghost predicate AlwaysAgrees(s: Sched, cs: seq<TableCall>)
    decreases |cs|
  {
    Agrees(s) && (cs == [] || AlwaysAgrees(Apply(s, cs[0]), cs[1..]))
  }

  lemma CallAgreesIff(s: Sched, c: TableCall)
    requires Agrees(s)
    ensures Agrees(Apply(s, c)) <==> (c.Add? ==> NewFlow(c.spec, c.mac, c.now).None? || SafeAdd(s, c.spec))
  {
    match c {
      case Add(spec, mac, now) => AddAgreesIff(s, spec, mac, now);
      case Remove(id) => RemoveKeepsAgreement(s, id);
      case Clear => ClearAgrees(s);
    }
  }

  lemma {:induction false} AgreesFromStart(s: Sched, cs: seq<TableCall>)
    requires Agrees(s)
    ensures AlwaysAgrees(s, cs) <==> Disciplined(s, cs)
    decreases |cs|
  {
    if cs != [] {
      CallAgreesIff(s, cs[0]);
      if Agrees(Apply(s, cs[0])) {
        AgreesFromStart(Apply(s, cs[0]), cs[1..]);
      }
    }
  }

  lemma EmptyAgrees()
    ensures Agrees(Sched(map[], map[]))
  {
    assert forall k :: Found(Sched(map[], map[]), k) == Owners(Sched(map[], map[]), k);
  }

  /** Over runs from an empty scheduler, with adds, removes and clears in any order: the receive path's
      lookup agrees with the scan throughout if and only if every accepted add was safe. */
  lemma IndexRefinesScanIff(cs: seq<TableCall>)
    ensures AlwaysAgrees(Sched(map[], map[]), cs) <==> Disciplined(Sched(map[], map[]), cs)
  {
    EmptyAgrees();
    AgreesFromStart(Sched(map[], map[]), cs);
  }

  // ---------------------------------------------------------------- what a caller can do

  /** Every accepted add brings an id never accepted before, `ids` being those that were, and a connection no
      present flow is on. Nothing is asked of removes and clears. */
  ghost predicate FreshRun(s: Sched, cs: seq<TableCall>, ids: set<u32>)
    decreases |cs|
  {
    cs == []
    || (if cs[0].Add? && NewFlow(cs[0].spec, cs[0].mac, cs[0].now).Some? then
          FreshAdd(s, cs[0].spec, ids) && FreshRun(Apply(s, cs[0]), cs[1..], ids + {cs[0].spec.id})
        else FreshRun(Apply(s, cs[0]), cs[1..], ids))
  }

  ghost predicate FreshAdd(s: Sched, spec: FlowSpec, ids: set<u32>) {
    spec.id !in ids && forall j :: j in s.flows ==> !SameConnection(s.flows[j].spec.key, spec.key)
  }

  /** The index holds no id but those accepted so far. */
  ghost predicate IndexesOnly(s: Sched, ids: set<u32>) {
    forall k :: k in s.index ==> s.index[k] in ids
  }

  lemma FreshAddIsSafe(s: Sched, spec: FlowSpec, ids: set<u32>)
    requires IndexesOnly(s, ids) && FreshAdd(s, spec, ids)
    ensures SafeAdd(s, spec)
  {
  }

  lemma {:induction false} FreshIsDisciplined(s: Sched, cs: seq<TableCall>, ids: set<u32>)
    requires IndexesOnly(s, ids) && FreshRun(s, cs, ids)
    ensures Disciplined(s, cs)
    decreases |cs|
  {
    if cs != [] {
      if cs[0].Add? && NewFlow(cs[0].spec, cs[0].mac, cs[0].now).Some? {
        FreshAddIsSafe(s, cs[0].spec, ids);
        FreshIsDisciplined(Apply(s, cs[0]), cs[1..], ids + {cs[0].spec.id});
      } else {
        FreshIsDisciplined(Apply(s, cs[0]), cs[1..], ids);
      }
    }
  }

  /** Fresh ids on unused connections keep lookup and scan in agreement, whatever is removed and cleared. */
  lemma FreshIdsAgree(cs: seq<TableCall>)
    requires FreshRun(Sched(map[], map[]), cs, {})
    ensures AlwaysAgrees(Sched(map[], map[]), cs)
  {
    FreshIsDisciplined(Sched(map[], map[]), cs, {});
    IndexRefinesScanIff(cs);
  }

  /** No clear meets a table with flows. */
  ghost predicate ClearsNothing(s: Sched, cs: seq<TableCall>)
    decreases |cs|
  {
    cs == [] || ((cs[0].Clear? ==> s.flows == map[]) && ClearsNothing(Apply(s, cs[0]), cs[1..]))
  }

  /** Every accepted add meets the condition the table shows. */
  ghost predicate TableSafeRun(s: Sched, cs: seq<TableCall>)
    decreases |cs|
  {
    cs == []
    || (&& (cs[0].Add? ==> NewFlow(cs[0].spec, cs[0].mac, cs[0].now).None? || TableSafe(s, cs[0].spec))
        && TableSafeRun(Apply(s, cs[0]), cs[1..]))
  }

  lemma CallLeavesNoStale(s: Sched, c: TableCall)
    requires Agrees(s) && NoStale(s) && (c.Clear? ==> s.flows == map[])
    ensures NoStale(Apply(s, c))
  {
    match c {
      case Add(spec, mac, now) => AddLeavesNoStale(s, spec, mac, now);
      case Remove(id) => RemoveLeavesNoStale(s, id);
      case Clear => ClearLeavesStaleIff(s);
    }
  }

  lemma {:induction false} TableDecidesFrom(s: Sched, cs: seq<TableCall>)
    requires Agrees(s) && NoStale(s) && ClearsNothing(s, cs)
    ensures AlwaysAgrees(s, cs) <==> TableSafeRun(s, cs)
    decreases |cs|
  {
    if cs != [] {
      CallAgreesIff(s, cs[0]);
      CallLeavesNoStale(s, cs[0]);
      if cs[0].Add? {
        SafeAddWithoutStale(s, cs[0].spec);
      }
      if Agrees(Apply(s, cs[0])) {
        TableDecidesFrom(Apply(s, cs[0]), cs[1..]);
      }
    }
  }

  /** Where no table with flows is cleared, what the table shows at each add decides: lookup and scan agree
      throughout if and only if every accepted add was on a connection of its own, under an id that was new
      or already stood for it. */
  lemma TableDecidesIff(cs: seq<TableCall>)
    requires ClearsNothing(Sched(map[], map[]), cs)
    ensures AlwaysAgrees(Sched(map[], map[]), cs) <==> TableSafeRun(Sched(map[], map[]), cs)
  {
    EmptyAgrees();
    TableDecidesFrom(Sched(map[], map[]), cs);
  }

  /** The raw index map after every prefix of the run. */
  ghost predicate AlwaysExact(s: Sched, cs: seq<TableCall>)
    decreases |cs|
  {
    Exact(s) && (cs == [] || AlwaysExact(Apply(s, cs[0]), cs[1..]))
  }

  lemma {:induction false} ExactFrom(s: Sched, cs: seq<TableCall>)
    requires Exact(s)
    ensures AlwaysExact(s, cs) <==> Disciplined(s, cs) && ClearsNothing(s, cs)
    decreases |cs|
  {
    ExactIff(s);
    if cs != [] {
      ExactIff(Apply(s, cs[0]));
      CallAgreesIff(s, cs[0]);
      if cs[0].Clear? {
        ClearLeavesStaleIff(s);
      }
      if cs[0].Clear? ==> s.flows == map[] {
        CallLeavesNoStale(s, cs[0]);
      }
      if Exact(Apply(s, cs[0])) {
        ExactFrom(Apply(s, cs[0]), cs[1..]);
      }
    }
  }

  /** The raw index map equals the scan throughout a run from an empty scheduler if and only if, on top of safe
      adds, no clear met a table with flows. */
  lemma RawIndexRefinesScanIff(cs: seq<TableCall>)
    ensures AlwaysExact(Sched(map[], map[]), cs)
            <==> Disciplined(Sched(map[], map[]), cs) && ClearsNothing(Sched(map[], map[]), cs)
  {
    EmptyAgrees();
    ExactIff(Sched(map[], map[]));
    ExactFrom(Sched(map[], map[]), cs);
  }

  /** The clear's stale entries come back to life when the id is added again for another connection: frames
      of the old connection are then taken for the new flow's. */
  lemma StaleEntryMisleads(was: FlowSpec, next: FlowSpec, mac: Mac, now: u64)
    requires NewFlow(was, mac, now).Some? && NewFlow(next, mac, now).Some?
    requires was.id == next.id && !SameConnection(next.key, was.key)
    ensures var t := ApplyAll(Sched(map[], map[]), [Add(was, mac, now), Clear, Add(next, mac, now)]);
            Owners(t, was.key) == {} && Lookup(t, was.key) == Some(next.id)
  {
    var s0 := Sched(map[], map[]);
    var s1 := Apply(s0, Add(was, mac, now));
    var s2 := Apply(s1, Clear);
    AppliedAll(s0, [Add(was, mac, now), Clear, Add(next, mac, now)]);
    AppliedAll(s1, [Clear, Add(next, mac, now)]);
    AppliedAll(s2, [Add(next, mac, now)]);
  }

  lemma AppliedAll(s: Sched, cs: seq<TableCall>)
    requires cs != []
    ensures ApplyAll(s, cs) == ApplyAll(Apply(s, cs[0]), cs[1..])
  {
  }

  /** Calls and traffic that do not touch keys leave index and scan as they are. */
  lemma SameKeysSameScan(s: Sched, t: Sched)
    requires s.index == t.index && s.flows.Keys == t.flows.Keys
    requires forall id :: id in s.flows ==> s.flows[id].spec == t.flows[id].spec
    ensures Agrees(s) <==> Agrees(t)
    ensures forall k :: Lookup(s, k) == Lookup(t, k)
  {
    assert forall k :: Owners(s, k) == Owners(t, k) && Found(s, k) == Found(t, k);
  }
}
