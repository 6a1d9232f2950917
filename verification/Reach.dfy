/** deviceReachability: endpoint state, partition gating, then the bounded search. */
module Reach {
  import opened Wire
  import opened Fabric
  import opened Walks
  import opened Sorting
  import opened Search
  import opened PathSearch
  import opened Keys

  datatype Reachability =
    | REACHABLE
    | REACHABLE_DEGRADED
    | NOT_REACHABLE
    | PARTITION_BLOCKED
    | SWITCH_DOWN
    | PORT_DOWN
    | ENDPOINT_STALE
    | TOPOLOGY_STALE
    | NEEDS_REVALIDATION
    | INSUFFICIENT_EVIDENCE
    | NOT_SUPPORTED

  // ----- partitions, in key order -----

  predicate ByteLess(a: Byte, b: Byte) {
    a < b
  }

  predicate KeyLeq(a: PartitionId, b: PartitionId) {
    !StrLess(ByteLess, b, a)
  }

  lemma KeyOrder()
    ensures TotalPreorder(KeyLeq)
    ensures forall a, b :: KeyLeq(a, b) && KeyLeq(b, a) ==> a == b
  {
    assert StrictTotal(ByteLess);
    forall a, b ensures (KeyLeq(a, b) || KeyLeq(b, a)) && (KeyLeq(a, b) && KeyLeq(b, a) ==> a == b) {
      StrLessTotal(ByteLess, a, b);
    }
    forall a, b, c | KeyLeq(a, b) && KeyLeq(b, c) ensures KeyLeq(a, c) {
      StrLessTotal(ByteLess, a, b);
      StrLessTotal(ByteLess, b, c);
      StrLessTotal(ByteLess, a, c);
      if StrLess(ByteLess, a, b) && StrLess(ByteLess, b, c) { StrLessTransitive(ByteLess, a, b, c); }
    }
  }

  method AscendingKeys(keys: set<PartitionId>) returns (ks: seq<PartitionId>)
    ensures SortedBy(KeyLeq, ks)
    ensures forall k :: k in ks <==> k in keys
  {
    var raw: seq<PartitionId> := [];
    var todo := keys;
    while todo != {}
      invariant todo <= keys
      invariant forall k :: k in raw <==> k in keys && k !in todo
    {
      var k :| k in todo;
      raw := raw + [k];
      todo := todo - {k};
    }
    KeyOrder();
    ks := Sort(KeyLeq, raw);
    SameElements(raw, ks);
  }

  /** A partition whose membership is authoritative. */
  predicate Live(p: Partition) {
    p.state != PARTITION_STALE && p.state != PARTITION_REVALIDATION_REQUIRED
  }

  predicate Holds(t: Topology, k: PartitionId, ds: set<DeviceId>) {
    k in t.partitions && Live(t.partitions[k]) && forall d :: d in ds ==> d in t.partitions[k].members
  }

  /** The last live partition, in key order, that has all of ds as members. */
  predicate LastHolding(t: Topology, ds: set<DeviceId>, r: Option<PartitionId>) {
    match r
    case None => forall k :: k in t.partitions ==> !Holds(t, k, ds)
    case Some(m) => Holds(t, m, ds) && forall k :: k in t.partitions && Holds(t, k, ds) ==> KeyLeq(k, m)
  }

  method FindLast(t: Topology, ds: set<DeviceId>) returns (r: Option<PartitionId>)
    ensures LastHolding(t, ds, r)
  {
    var ks := AscendingKeys(t.partitions.Keys);
    KeyOrder();
    r := None;
    for i := 0 to |ks|
      invariant r.None? ==> forall j :: 0 <= j < i ==> !Holds(t, ks[j], ds)
      invariant r.Some? ==> Holds(t, r.value, ds) && forall j :: 0 <= j < i && Holds(t, ks[j], ds) ==> KeyLeq(ks[j], r.value)
    {
      if Holds(t, ks[i], ds) { r := Some(ks[i]); }
    }
    forall k | k in t.partitions && Holds(t, k, ds) ensures r.Some? && KeyLeq(k, r.value) {
      assert k in ks;
    }
  }

  lemma LastUnique(t: Topology, ds: set<DeviceId>, a: Option<PartitionId>, b: Option<PartitionId>)
    requires LastHolding(t, ds, a) && LastHolding(t, ds, b)
    ensures a == b
  {
    KeyOrder();
  }

  // ----- the verdict -----

  predicate OutOfService(s: Byte) {
    s == DOWN || s == ABSENT || s == UNREACHABLE
  }

  /** The answers given before any path is looked for. */
  function EndpointVerdict(t: Topology, src: DeviceId, dst: DeviceId): Option<Reachability> {
    if src !in t.devices || dst !in t.devices then Some(INSUFFICIENT_EVIDENCE)
    else if src == dst then Some(REACHABLE)
    else
      var s, d := t.devices[src].state, t.devices[dst].state;
      if Expired(s) || Expired(d) then Some(ENDPOINT_STALE)
      else if s == UNSUPPORTED || d == UNSUPPORTED then Some(NOT_SUPPORTED)
      else if OutOfService(s) || OutOfService(d) then Some(NOT_REACHABLE)
      else None
  }

  predicate SwitchTrouble(s: Byte) {
    OutOfService(s) || Expired(s)
  }

  predicate PortTrouble(s: Byte) {
    s == DOWN || s == UNREACHABLE || s == DISABLED || Expired(s)
  }

  predicate AnySwitchDown(t: Topology) {
    exists k :: k in t.switches && SwitchTrouble(t.switches[k].state)
  }

  predicate AnyPortDown(t: Topology) {
    exists k :: k in t.ports && PortTrouble(t.ports[k].state)
  }

  predicate AnySwitchExpired(t: Topology) {
    exists k :: k in t.switches && Expired(t.switches[k].state)
  }

  function PathVerdict(t: Topology, paths: seq<FabricPath>): Reachability {
    if paths == [] then
      if AnySwitchDown(t) then SWITCH_DOWN
      else if AnyPortDown(t) then PORT_DOWN
      else if AnySwitchExpired(t) then NEEDS_REVALIDATION
      else NOT_REACHABLE
    else if exists i :: 0 <= i < |paths| && paths[i].state == UP then REACHABLE
    else REACHABLE_DEGRADED
  }

  predicate Blocked(sp: Option<PartitionId>, dp: Option<PartitionId>) {
    sp.Some? && dp.Some? && sp != dp
  }

  ghost predicate IsReachability(t: Topology, src: DeviceId, dst: DeviceId, r: Reachability) {
    if EndpointVerdict(t, src, dst).Some? then r == EndpointVerdict(t, src, dst).value
    else exists sp, dp, paths ::
      && LastHolding(t, {src}, sp) && LastHolding(t, {dst}, dp)
      && Searched(t, src, dst, DEFAULT_CONFIG, paths)
      && r == if Blocked(sp, dp) then PARTITION_BLOCKED else PathVerdict(t, paths)
  }

  method SwitchDownFlag(t: Topology) returns (b: bool)
    ensures b == AnySwitchDown(t)
  {
    b := false;
    var todo := t.switches.Keys;
    while todo != {}
      invariant todo <= t.switches.Keys
      invariant b == exists k :: k in t.switches && k !in todo && SwitchTrouble(t.switches[k].state)
    {
      var k :| k in todo;
      if SwitchTrouble(t.switches[k].state) { b := true; }
      todo := todo - {k};
    }
  }

  method PortDownFlag(t: Topology) returns (b: bool)
    ensures b == AnyPortDown(t)
  {
    b := false;
    var todo := t.ports.Keys;
    while todo != {}
      invariant todo <= t.ports.Keys
      invariant b == exists k :: k in t.ports && k !in todo && PortTrouble(t.ports[k].state)
    {
      var k :| k in todo;
      if PortTrouble(t.ports[k].state) { b := true; }
      todo := todo - {k};
    }
  }

  method AnyPathUp(paths: seq<FabricPath>) returns (anyUp: bool)
    ensures anyUp == exists i :: 0 <= i < |paths| && paths[i].state == UP
  {
    anyUp := false;
    for i := 0 to |paths|
      invariant anyUp == exists j :: 0 <= j < i && paths[j].state == UP
    {
      if paths[i].state == UP { anyUp := true; }
    }
  }

  method AnswerFromPaths(t: Topology, paths: seq<FabricPath>) returns (r: Reachability)
    ensures r == PathVerdict(t, paths)
  {
    var anySwitchDown := SwitchDownFlag(t);
    var anyPortDown := PortDownFlag(t);
    if paths == [] {
      assert AnySwitchExpired(t) ==> AnySwitchDown(t);
      return if anySwitchDown then SWITCH_DOWN else if anyPortDown then PORT_DOWN else NOT_REACHABLE;
    }
    var anyUp := AnyPathUp(paths);
    r := if anyUp then REACHABLE else REACHABLE_DEGRADED;
  }

  method DeviceReachability(t: Topology, src: DeviceId, dst: DeviceId) returns (r: Reachability)
    ensures IsReachability(t, src, dst, r)
  {
    var early := EndpointVerdict(t, src, dst);
    if early.Some? { return early.value; }
    var sp := FindLast(t, {src});
    var dp := FindLast(t, {dst});
    var paths := EnumeratePaths(t, src, dst, DEFAULT_CONFIG);
    var fromPaths := AnswerFromPaths(t, paths);
    r := if Blocked(sp, dp) then PARTITION_BLOCKED else fromPaths;
  }

  /** REVALIDATION_REQUIRED is declared but never answered: an expired switch already counts as down. */
  lemma RevalidationNeverAnswered(t: Topology, src: DeviceId, dst: DeviceId, r: Reachability)
    requires IsReachability(t, src, dst, r)
    ensures r != NEEDS_REVALIDATION
  {
    if AnySwitchExpired(t) { assert AnySwitchDown(t); }
  }

  /** When an answer is REACHABLE or REACHABLE_DEGRADED for distinct endpoints, exactly. */
  lemma ReachableExactly(t: Topology, src: DeviceId, dst: DeviceId, r: Reachability, sp: Option<PartitionId>, dp: Option<PartitionId>)
    requires IsReachability(t, src, dst, r) && src != dst
    requires LastHolding(t, {src}, sp) && LastHolding(t, {dst}, dp)
    ensures r == REACHABLE || r == REACHABLE_DEGRADED <==>
      && EndpointUsable(t, src) && EndpointUsable(t, dst) && !Blocked(sp, dp)
      && exists w :: IsWalk(t, src, dst, w) && Hops(w) <= MAX_PATH_DEPTH
  {
    if EndpointVerdict(t, src, dst).None? {
      var paths := AnsweredBy(t, src, dst, r, sp, dp);
      DefaultSearch(t, src, dst, paths);
      PathVerdictReaches(t, paths);
    }
  }

  lemma PathVerdictReaches(t: Topology, paths: seq<FabricPath>)
    ensures PathVerdict(t, paths) == REACHABLE || PathVerdict(t, paths) == REACHABLE_DEGRADED <==> paths != []
  {}

  lemma AnsweredBy(t: Topology, src: DeviceId, dst: DeviceId, r: Reachability, sp: Option<PartitionId>, dp: Option<PartitionId>)
    returns (paths: seq<FabricPath>)
    requires IsReachability(t, src, dst, r) && EndpointVerdict(t, src, dst).None?
    requires LastHolding(t, {src}, sp) && LastHolding(t, {dst}, dp)
    ensures Searched(t, src, dst, DEFAULT_CONFIG, paths)
    ensures r == if Blocked(sp, dp) then PARTITION_BLOCKED else PathVerdict(t, paths)
  {
    var sp', dp', ps :|
      && LastHolding(t, {src}, sp') && LastHolding(t, {dst}, dp')
      && Searched(t, src, dst, DEFAULT_CONFIG, ps)
      && r == if Blocked(sp', dp') then PARTITION_BLOCKED else PathVerdict(t, ps);
    LastUnique(t, {src}, sp, sp');
    LastUnique(t, {dst}, dp, dp');
    paths := ps;
  }

  lemma DefaultSearch(t: Topology, src: DeviceId, dst: DeviceId, paths: seq<FabricPath>)
    requires Searched(t, src, dst, DEFAULT_CONFIG, paths) && src != dst
    ensures paths != [] <==>
      && EndpointUsable(t, src) && EndpointUsable(t, dst)
      && exists w :: IsWalk(t, src, dst, w) && Hops(w) <= MAX_PATH_DEPTH
  {
    if Searchable(t, src, dst, DEFAULT_CONFIG) {
      FoundIffConnected(t, src, dst, DEFAULT_CONFIG, paths);
    }
  }
}
