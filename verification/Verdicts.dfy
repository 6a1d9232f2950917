/**
 What deviceReachability and computeRoute answer, case by case, in the states of devices,
 partitions, switches, ports and links, and what a decision's authority takes.
 */
module Verdicts {
  import opened Wire
  import opened Fabric
  import opened Walks
  import opened Levels
  import opened Sorting
  import opened Search
  import Keys
  import opened Reach
  import opened Route
  import opened Decision
  import opened RouteLaws
  import opened RouteExact
  import opened Joining

  // ----- the governing partition -----

  /** A partition that is neither stale nor awaiting revalidation. */
  predicate InForce(p: Partition) {
    p.state != PARTITION_STALE && p.state != PARTITION_REVALIDATION_REQUIRED
  }

  predicate Covers(p: Partition, ds: set<DeviceId>) {
    InForce(p) && forall d :: d in ds ==> d in p.members
  }

  /** Of the partitions in force that have all the devices as members, the one whose name comes last. */
  ghost predicate Governs(t: Topology, ds: set<DeviceId>, k: PartitionId) {
    && k in t.partitions && Covers(t.partitions[k], ds)
    && forall j :: j in t.partitions && Covers(t.partitions[j], ds) ==> !Keys.ComesBefore((a: Byte, b: Byte) => a < b, k, j)
  }

  ghost predicate GovernedBy(t: Topology, ds: set<DeviceId>, r: Option<PartitionId>) {
    if r.Some? then Governs(t, ds, r.value) else forall k :: k in t.partitions ==> !Covers(t.partitions[k], ds)
  }

  lemma KeyLeqMeans(a: PartitionId, b: PartitionId)
    ensures KeyLeq(a, b) <==> !Keys.ComesBefore((x: Byte, y: Byte) => x < y, b, a)
  {
    var less := (x: Byte, y: Byte) => x < y;
    Keys.StrLessMeans(less, b, a);
    SameOrder(ByteLess, less, b, a);
  }

  lemma {:induction false} SameOrder<T(!new)>(f: (T, T) -> bool, g: (T, T) -> bool, a: seq<T>, b: seq<T>)
    requires forall x, y :: f(x, y) <==> g(x, y)
    ensures Keys.StrLess(f, a, b) <==> Keys.StrLess(g, a, b)
    decreases |a|
  {
    if a != [] && b != [] && a[0] == b[0] { SameOrder(f, g, a[1..], b[1..]); }
  }

  /** What the partition loops find. */
  lemma GovernedMeans(t: Topology, ds: set<DeviceId>, r: Option<PartitionId>)
    ensures LastHolding(t, ds, r) <==> GovernedBy(t, ds, r)
  {
    forall k | k in t.partitions ensures Holds(t, k, ds) <==> Covers(t.partitions[k], ds) {}
    if r.Some? {
      forall k ensures KeyLeq(k, r.value) <==> !Keys.ComesBefore((a: Byte, b: Byte) => a < b, r.value, k) { KeyLeqMeans(k, r.value); }
    }
  }

  // ----- reachability -----

  predicate Awaiting(s: Byte) {
    s == STALE || s == REVALIDATION_REQUIRED
  }

  predicate Lost(s: Byte) {
    s == DOWN || s == ABSENT || s == UNREACHABLE
  }

  predicate BothKnown(t: Topology, src: DeviceId, dst: DeviceId) {
    src in t.devices && dst in t.devices
  }

  /** Distinct known devices, neither awaiting revalidation, unsupported nor lost. */
  predicate Reaching(t: Topology, src: DeviceId, dst: DeviceId) {
    && BothKnown(t, src, dst) && src != dst
    && !Awaiting(t.devices[src].state) && !Awaiting(t.devices[dst].state)
    && t.devices[src].state != UNSUPPORTED && t.devices[dst].state != UNSUPPORTED
    && !Lost(t.devices[src].state) && !Lost(t.devices[dst].state)
  }

  /** The answers that look at the two devices only. */
  lemma EndpointAnswers(t: Topology, src: DeviceId, dst: DeviceId, r: Reachability)
    requires IsReachability(t, src, dst, r) && !Reaching(t, src, dst)
    ensures !BothKnown(t, src, dst) ==> r == INSUFFICIENT_EVIDENCE
    ensures BothKnown(t, src, dst) && src == dst ==> r == REACHABLE
    ensures BothKnown(t, src, dst) && src != dst ==>
      var s, d := t.devices[src].state, t.devices[dst].state;
      r == if Awaiting(s) || Awaiting(d) then ENDPOINT_STALE
           else if s == UNSUPPORTED || d == UNSUPPORTED then NOT_SUPPORTED
           else NOT_REACHABLE
  {}

  /** Some switch is lost or awaiting revalidation. */
  predicate SwitchesFail(t: Topology) {
    exists k :: k in t.switches && (Lost(t.switches[k].state) || Awaiting(t.switches[k].state))
  }

  predicate PortsFail(t: Topology) {
    exists k :: k in t.ports &&
      (t.ports[k].state == DOWN || t.ports[k].state == UNREACHABLE || t.ports[k].state == DISABLED || Awaiting(t.ports[k].state))
  }

  lemma TroubleMeans(t: Topology)
    ensures AnySwitchDown(t) <==> SwitchesFail(t)
    ensures AnyPortDown(t) <==> PortsFail(t)
    ensures AnySwitchExpired(t) <==> exists k :: k in t.switches && Awaiting(t.switches[k].state)
  {}

  /** The devices are members of different governing partitions. */
  predicate Apart(sp: Option<PartitionId>, dp: Option<PartitionId>) {
    sp.Some? && dp.Some? && sp.value != dp.value
  }

  predicate Clean(t: Topology, ps: seq<FabricPath>) {
    exists i :: 0 <= i < |ps| && !Blemished(t, ps[i].links)
  }

  /** Why nothing was found. */
  function Unreached(t: Topology): Reachability {
    if SwitchesFail(t) then SWITCH_DOWN else if PortsFail(t) then PORT_DOWN else NOT_REACHABLE
  }

  lemma ListedUp(t: Topology, src: DeviceId, dst: DeviceId, ps: seq<FabricPath>)
    requires Searched(t, src, dst, DEFAULT_CONFIG, ps)
    ensures (exists i :: 0 <= i < |ps| && ps[i].state == UP) <==> Clean(t, ps)
  {
    SearchMeans(t, src, dst, DEFAULT_CONFIG, ps);
    forall i | 0 <= i < |ps| ensures ps[i].state == UP <==> !Blemished(t, ps[i].links) { assert Recorded(t, src, dst, ps[i]); }
  }

  lemma VerdictMeans(t: Topology, src: DeviceId, dst: DeviceId, ps: seq<FabricPath>)
    requires Searched(t, src, dst, DEFAULT_CONFIG, ps)
    ensures PathVerdict(t, ps) == if ps == [] then Unreached(t) else if Clean(t, ps) then REACHABLE else REACHABLE_DEGRADED
  {
    ListedUp(t, src, dst, ps);
    TroubleMeans(t);
  }

  lemma DefaultFinds(t: Topology, src: DeviceId, dst: DeviceId, ps: seq<FabricPath>)
    requires Searched(t, src, dst, DEFAULT_CONFIG, ps) && src != dst
    ensures if Attachable(t, src) && Attachable(t, dst) then Answers(t, src, dst, 65536, 16, ps) else ps == []
    ensures ps != [] <==> Connected(t, src, dst)
  {
    SearchMeans(t, src, dst, DEFAULT_CONFIG, ps);
    DefaultSearch(t, src, dst, ps);
    forall w ensures IsWalk(t, src, dst, w) <==> Leads(t, src, dst, w) { WalkMeans(t, src, dst, w); }
  }

  /** Something is found within the full depth of the search. */
  ghost predicate Connected(t: Topology, src: DeviceId, dst: DeviceId) {
    Attachable(t, src) && Attachable(t, dst) && exists w :: Leads(t, src, dst, w) && |w| <= 17
  }

  /**
   The other answers, in terms of what the search lists: blocked when the devices are apart; reachable
   exactly when a listed path has no degraded link, and reachable degraded when paths are listed and
   every one has; otherwise the states of switches and then of ports say why there is none.
   */
  lemma PathAnswers(t: Topology, src: DeviceId, dst: DeviceId, r: Reachability, sp: Option<PartitionId>, dp: Option<PartitionId>)
    returns (ps: seq<FabricPath>)
    requires IsReachability(t, src, dst, r) && Reaching(t, src, dst)
    requires GovernedBy(t, {src}, sp) && GovernedBy(t, {dst}, dp)
    ensures if Attachable(t, src) && Attachable(t, dst) then Answers(t, src, dst, 65536, 16, ps) else ps == []
    ensures ps != [] <==> Connected(t, src, dst)
    ensures Apart(sp, dp) ==> r == PARTITION_BLOCKED
    ensures !Apart(sp, dp) && ps == [] ==> r == Unreached(t)
    ensures !Apart(sp, dp) && ps != [] ==> r == if Clean(t, ps) then REACHABLE else REACHABLE_DEGRADED
  {
    GovernedMeans(t, {src}, sp);
    GovernedMeans(t, {dst}, dp);
    ps := AnsweredBy(t, src, dst, r, sp, dp);
    VerdictMeans(t, src, dst, ps);
    DefaultFinds(t, src, dst, ps);
  }

  /** Fewer joining walks within sixteen switches than the search would list. */
  ghost predicate Sparse(t: Topology, src: DeviceId, dst: DeviceId) {
    forall ws: set<Walk> :: (forall w :: w in ws ==> Joins(t, src, dst, 16, w)) ==> |ws| < 65536
  }

  lemma SparseListsAll(t: Topology, src: DeviceId, dst: DeviceId, ps: seq<FabricPath>)
    requires Sparse(t, src, dst) && Answers(t, src, dst, 65536, 16, ps)
    ensures Clean(t, ps) <==> exists w :: Joins(t, src, dst, 16, w) && !Blemished(t, w)
    ensures ps != [] <==> exists w :: Joins(t, src, dst, 16, w)
  {
    LinkListsSize(ps);
    assert forall w :: w in LinkLists(ps) ==> Joins(t, src, dst, 16, w);
    assert |ps| < 65536;
    if w :| Joins(t, src, dst, 16, w) && !Blemished(t, w) {
      assert ListedOrCut(65536, ps, w);
      var i :| 0 <= i < |ps| && ps[i].links == w;
    }
    if w :| Joins(t, src, dst, 16, w) { assert ListedOrCut(65536, ps, w); }
  }

  lemma OnlyReaching(t: Topology, src: DeviceId, dst: DeviceId, r: Reachability)
    requires IsReachability(t, src, dst, r) && src != dst && !Reaching(t, src, dst)
    ensures r != REACHABLE && r != REACHABLE_DEGRADED && !(Attachable(t, src) && Attachable(t, dst))
  {
    EndpointAnswers(t, src, dst, r);
  }

  /**
   Below the path bound, in terms of the fabric alone: REACHABLE if and only if some joining walk has no
   degraded link, and REACHABLE_DEGRADED if and only if there are joining walks and each has one.
   */
  lemma ReachableMeans(t: Topology, src: DeviceId, dst: DeviceId, r: Reachability, sp: Option<PartitionId>, dp: Option<PartitionId>)
    requires IsReachability(t, src, dst, r) && src != dst && Sparse(t, src, dst)
    requires GovernedBy(t, {src}, sp) && GovernedBy(t, {dst}, dp)
    ensures r == REACHABLE <==>
      && Attachable(t, src) && Attachable(t, dst) && !Apart(sp, dp) && exists w :: Joins(t, src, dst, 16, w) && !Blemished(t, w)
    ensures r == REACHABLE_DEGRADED <==>
      && Attachable(t, src) && Attachable(t, dst) && !Apart(sp, dp)
      && (exists w :: Joins(t, src, dst, 16, w)) && forall w :: Joins(t, src, dst, 16, w) ==> Blemished(t, w)
  {
    if !Reaching(t, src, dst) { OnlyReaching(t, src, dst, r); return; }
    var ps := PathAnswers(t, src, dst, r, sp, dp);
    if Attachable(t, src) && Attachable(t, dst) { SparseListsAll(t, src, dst, ps); }
  }

  // ----- what computeRoute answers -----

  predicate Presentable(t: Topology, d: DeviceId) {
    d in t.devices && t.devices[d].present
  }

  /** Distinct devices that are there, present and serving. */
  predicate Admitted(t: Topology, src: DeviceId, dst: DeviceId) {
    && Presentable(t, src) && Presentable(t, dst) && src != dst
    && Serving(t.devices[src].state) && Serving(t.devices[dst].state)
  }

  /** Nothing selected, no candidates, no partition. */
  predicate Bare(d: RouteDecision) {
    d.selected == None && d.candidatePaths == [] && d.scores == [] && d.partition == None
  }

  predicate AboutRequest(t: Topology, src: DeviceId, dst: DeviceId, epoch: U64, d: RouteDecision) {
    d.source == src && d.destination == dst && d.epoch == epoch && d.topologyGen == t.topologyGen
  }

  lemma AdmittedMeans(t: Topology, src: DeviceId, dst: DeviceId)
    ensures EndpointGate(t, src, dst).None? <==> Admitted(t, src, dst)
    ensures EndpointGate(t, src, dst).Some? ==>
      EndpointGate(t, src, dst).value ==
        if Presentable(t, src) && Presentable(t, dst) && src != dst then ROUTE_REVALIDATION_REQUIRED else NO_ROUTE
  {}

  /** Requests whose devices are missing, absent, the same or not serving. */
  lemma EndpointOutcomes(t: Topology, src: DeviceId, dst: DeviceId, policy: Policy, m: BestMeasurement, epoch: U64, d: RouteDecision)
    requires IsDecision(t, src, dst, policy, m, epoch, d) && !Admitted(t, src, dst)
    ensures AboutRequest(t, src, dst, epoch, d) && Bare(d)
    ensures d.outcome == if Presentable(t, src) && Presentable(t, dst) && src != dst then ROUTE_REVALIDATION_REQUIRED else NO_ROUTE
  {
    var part, raw, reach, ranked := DecisionChoices(t, src, dst, policy, m, epoch, d);
    AdmittedMeans(t, src, dst);
  }

  /** The policy keeps to partitions, some are in force, and none that is has both devices. */
  predicate Confined(t: Topology, src: DeviceId, dst: DeviceId, policy: Policy) {
    && policy.insidePartition
    && (exists k :: k in t.partitions && InForce(t.partitions[k]))
    && forall k :: k in t.partitions && InForce(t.partitions[k]) ==> !(src in t.partitions[k].members && dst in t.partitions[k].members)
  }

  predicate SomeStale(t: Topology) {
    exists k :: k in t.partitions && t.partitions[k].state == PARTITION_STALE
  }

  lemma ConfinedMeans(t: Topology, src: DeviceId, dst: DeviceId, policy: Policy, part: Option<PartitionId>)
    requires LastHolding(t, {src, dst}, part)
    ensures PartitionGate(t, policy, part).Some? <==> Confined(t, src, dst, policy)
    ensures Confined(t, src, dst, policy) ==>
      PartitionGate(t, policy, part) == Some(if SomeStale(t) then STALE_PARTITION else ROUTE_PARTITION_BLOCKED)
  {
    GovernedMeans(t, {src, dst}, part);
    assert AnyLivePartition(t) <==> exists k :: k in t.partitions && InForce(t.partitions[k]) by {
      forall k | k in t.partitions ensures Live(t.partitions[k]) <==> InForce(t.partitions[k]) {}
    }
    forall k | k in t.partitions
      ensures Covers(t.partitions[k], {src, dst}) <==>
        InForce(t.partitions[k]) && src in t.partitions[k].members && dst in t.partitions[k].members {}
    if part.Some? { assert Covers(t.partitions[part.value], {src, dst}); }
  }

  /** Requests the partitions refuse. */
  lemma PartitionOutcomes(t: Topology, src: DeviceId, dst: DeviceId, policy: Policy, m: BestMeasurement, epoch: U64, d: RouteDecision)
    requires IsDecision(t, src, dst, policy, m, epoch, d) && Admitted(t, src, dst) && Confined(t, src, dst, policy)
    ensures AboutRequest(t, src, dst, epoch, d) && Bare(d)
    ensures d.outcome == if SomeStale(t) then STALE_PARTITION else ROUTE_PARTITION_BLOCKED
  {
    var part, raw, reach, ranked := DecisionChoices(t, src, dst, policy, m, epoch, d);
    AdmittedMeans(t, src, dst);
    ConfinedMeans(t, src, dst, policy, part);
  }

  /** Past both gates the outcome is about paths. */
  lemma PastGates(t: Topology, src: DeviceId, dst: DeviceId, policy: Policy, m: BestMeasurement, epoch: U64,
                  part: Option<PartitionId>, raw: seq<FabricPath>, reach: Reachability, ranked: seq<FabricPath>)
    requires part.Some? ==> part.value in t.partitions
    requires EndpointGate(t, src, dst).None? && PartitionGate(t, policy, part).None?
    ensures var d := Outcomes(t, src, dst, policy, m, epoch, part, raw, reach, ranked);
      && AboutRequest(t, src, dst, epoch, d) && d.outcome != STALE_PARTITION && d.partition == part
      && (part.Some? ==> d.partitionGen == t.partitions[part.value].gen)
      && (raw == [] ==> d.selected == None && d.candidatePaths == [] && d.outcome == NoPathOutcome(reach))
  {}

  /** STALE_PARTITION is answered in no other case. */
  lemma StalePartitionExactly(t: Topology, src: DeviceId, dst: DeviceId, policy: Policy, m: BestMeasurement, epoch: U64, d: RouteDecision)
    requires IsDecision(t, src, dst, policy, m, epoch, d)
    ensures d.outcome == STALE_PARTITION <==> Admitted(t, src, dst) && Confined(t, src, dst, policy) && SomeStale(t)
  {
    if !Admitted(t, src, dst) { EndpointOutcomes(t, src, dst, policy, m, epoch, d); return; }
    if Confined(t, src, dst, policy) { PartitionOutcomes(t, src, dst, policy, m, epoch, d); return; }
    var part, raw, reach, ranked := DecisionChoices(t, src, dst, policy, m, epoch, d);
    AdmittedMeans(t, src, dst);
    ConfinedMeans(t, src, dst, policy, part);
    PastGates(t, src, dst, policy, m, epoch, part, raw, reach, ranked);
  }

  /** The decision names the governing partition and its generation, or that there is none. */
  ghost predicate UnderPartition(t: Topology, src: DeviceId, dst: DeviceId, d: RouteDecision) {
    && GovernedBy(t, {src, dst}, d.partition)
    && (d.partition.Some? ==> d.partitionGen == t.partitions[d.partition.value].gen)
  }

  /** Past the endpoints and the partitions, the decision is under the governing partition. */
  lemma PartitionRecorded(t: Topology, src: DeviceId, dst: DeviceId, policy: Policy, m: BestMeasurement, epoch: U64, d: RouteDecision)
    requires IsDecision(t, src, dst, policy, m, epoch, d) && Admitted(t, src, dst) && !Confined(t, src, dst, policy)
    ensures AboutRequest(t, src, dst, epoch, d) && UnderPartition(t, src, dst, d)
  {
    var part, raw, reach, ranked := DecisionChoices(t, src, dst, policy, m, epoch, d);
    AdmittedMeans(t, src, dst);
    ConfinedMeans(t, src, dst, policy, part);
    PastGates(t, src, dst, policy, m, epoch, part, raw, reach, ranked);
    GovernedMeans(t, {src, dst}, part);
  }

  /** The devices can be searched from and to, the policy allows a path at all, and links lead there within its depth. */
  ghost predicate Findable(t: Topology, src: DeviceId, dst: DeviceId, policy: Policy) {
    && Attachable(t, src) && Attachable(t, dst) && src != dst && HopBound(policy) > 0 && PathBound(policy) > 0
    && exists w :: Leads(t, src, dst, w) && |w| <= HopBound(policy) + 1
  }

  lemma FindableMeans(t: Topology, src: DeviceId, dst: DeviceId, policy: Policy, raw: seq<FabricPath>)
    requires Searched(t, src, dst, RouteConfig(policy), raw)
    ensures raw != [] <==> Findable(t, src, dst, policy)
  {
    BoundsMean(policy);
    if Searchable(t, src, dst, RouteConfig(policy)) {
      FoundIffConnected(t, src, dst, RouteConfig(policy), raw);
      forall w ensures IsWalk(t, src, dst, w) <==> Leads(t, src, dst, w) { WalkMeans(t, src, dst, w); }
    }
  }

  lemma AdmittedReaches(t: Topology, src: DeviceId, dst: DeviceId)
    requires Admitted(t, src, dst)
    ensures Reaching(t, src, dst)
  {}

  lemma ReachOutcome(t: Topology, src: DeviceId, dst: DeviceId, reach: Reachability, sp: Option<PartitionId>, dp: Option<PartitionId>)
    requires IsReachability(t, src, dst, reach) && Reaching(t, src, dst)
    requires GovernedBy(t, {src}, sp) && GovernedBy(t, {dst}, dp)
    ensures NoPathOutcome(reach) ==
      if Apart(sp, dp) then ROUTE_PARTITION_BLOCKED
      else if Connected(t, src, dst) then NO_ROUTE
      else if SwitchesFail(t) then ROUTE_SWITCH_DOWN
      else if PortsFail(t) then ROUTE_PORT_DOWN
      else NO_ROUTE
  {
    var ps := PathAnswers(t, src, dst, reach, sp, dp);
  }

  /**
   Requests for which no path is found: blocked when the devices are apart; no route when only the
   policy's bounds are in the way; and otherwise the states of switches and then of ports say why.
   */
  lemma NothingFound(t: Topology, src: DeviceId, dst: DeviceId, policy: Policy, m: BestMeasurement, epoch: U64, d: RouteDecision,
                     sp: Option<PartitionId>, dp: Option<PartitionId>)
    requires IsDecision(t, src, dst, policy, m, epoch, d) && Admitted(t, src, dst) && !Confined(t, src, dst, policy)
    requires !Findable(t, src, dst, policy) && GovernedBy(t, {src}, sp) && GovernedBy(t, {dst}, dp)
    ensures d.selected == None && d.candidatePaths == []
    ensures d.outcome ==
      if Apart(sp, dp) then ROUTE_PARTITION_BLOCKED
      else if Connected(t, src, dst) then NO_ROUTE
      else if SwitchesFail(t) then ROUTE_SWITCH_DOWN
      else if PortsFail(t) then ROUTE_PORT_DOWN
      else NO_ROUTE
  {
    var part, raw, reach, ranked := DecisionChoices(t, src, dst, policy, m, epoch, d);
    AdmittedMeans(t, src, dst);
    ConfinedMeans(t, src, dst, policy, part);
    PastGates(t, src, dst, policy, m, epoch, part, raw, reach, ranked);
    FindableMeans(t, src, dst, policy, raw);
    AdmittedReaches(t, src, dst);
    ReachOutcome(t, src, dst, reach, sp, dp);
  }

  lemma RankedState(t: Topology, src: DeviceId, dst: DeviceId, policy: Policy, m: BestMeasurement, raw: seq<FabricPath>, ranked: seq<FabricPath>)
    requires Searched(t, src, dst, RouteConfig(policy), raw) && IsRanking(t, m, policy.factors, Eligible(t, policy, raw), ranked) && ranked != []
    ensures ranked[0].state == DEGRADED <==> Blemished(t, ranked[0].links)
  {
    var best := FrontWasEligible(t, policy, m, raw, ranked);
    SearchMeans(t, src, dst, RouteConfig(policy), raw);
    assert Recorded(t, src, dst, best);
  }

  /**
   Requests for which paths are found: allowed, degraded exactly when the selected path has a degraded
   link, or nothing selected, when the outcome says only whether some switch awaits revalidation.
   */
  lemma PathsFound(t: Topology, src: DeviceId, dst: DeviceId, policy: Policy, m: BestMeasurement, epoch: U64, d: RouteDecision)
    requires IsDecision(t, src, dst, policy, m, epoch, d) && Admitted(t, src, dst) && !Confined(t, src, dst, policy)
    requires Findable(t, src, dst, policy)
    ensures d.selected.Some? ==> d.outcome == if Blemished(t, d.selected.value.links) then ROUTE_ALLOWED_DEGRADED else ROUTE_ALLOWED
    ensures d.selected.None? ==>
      d.outcome == if exists k :: k in t.switches && Awaiting(t.switches[k].state) then STALE_SWITCH else NO_ROUTE
  {
    var part, raw, reach, ranked := DecisionChoices(t, src, dst, policy, m, epoch, d);
    AdmittedMeans(t, src, dst);
    ConfinedMeans(t, src, dst, policy, part);
    FindableMeans(t, src, dst, policy, raw);
    TroubleMeans(t);
    if ranked != [] { RankedState(t, src, dst, policy, m, raw, ranked); }
  }

  /** An allowed decision: who asked, under which partition, and over what. */
  lemma AllowedMeans(t: Topology, src: DeviceId, dst: DeviceId, policy: Policy, m: BestMeasurement, epoch: U64, d: RouteDecision)
    requires IsDecision(t, src, dst, policy, m, epoch, d) && (d.outcome == ROUTE_ALLOWED || d.outcome == ROUTE_ALLOWED_DEGRADED)
    ensures Admitted(t, src, dst) && !Confined(t, src, dst, policy) && Findable(t, src, dst, policy) && d.selected.Some?
    ensures AboutRequest(t, src, dst, epoch, d) && UnderPartition(t, src, dst, d)
  {
    if !Admitted(t, src, dst) { EndpointOutcomes(t, src, dst, policy, m, epoch, d); }
    if Confined(t, src, dst, policy) { PartitionOutcomes(t, src, dst, policy, m, epoch, d); }
    PartitionRecorded(t, src, dst, policy, m, epoch, d);
    SelectedMeansAllowed(t, src, dst, policy, m, epoch, d);
    var part, raw, ranked, best := AllowedRests(t, src, dst, policy, m, epoch, d);
    FindableMeans(t, src, dst, policy, raw);
  }

  // ----- authority -----

  /** What authority takes of the present snapshot, in the states and generations of what the decision captured. */
  predicate Upheld(d: RouteDecision, t: Topology) {
    && (d.outcome == ROUTE_ALLOWED || d.outcome == ROUTE_ALLOWED_DEGRADED)
    && d.epoch == t.epoch && Attachable(t, d.source) && Attachable(t, d.destination)
    && (d.partition.Some? ==>
          d.partition.value in t.partitions && InForce(t.partitions[d.partition.value]) && t.partitions[d.partition.value].gen == d.partitionGen)
    && (d.selected.Some? ==>
          && (forall i :: 0 <= i < |d.selected.value.switchGens| ==>
                var (s, g) := d.selected.value.switchGens[i];
                s in t.switches && (t.switches[s].state == UP || t.switches[s].state == DEGRADED) && t.switches[s].gen == g)
          && (forall i :: 0 <= i < |d.selected.value.portGens| ==>
                var (p, g) := d.selected.value.portGens[i];
                p in t.ports && (t.ports[p].state == UP || t.ports[p].state == DEGRADED) && t.ports[p].gen == g))
  }

  lemma SwitchesUpheld(p: FabricPath, t: Topology)
    ensures (forall g :: g in p.switchGens ==> SwitchHolds(t, g)) <==>
      forall i :: 0 <= i < |p.switchGens| ==>
        var (s, g) := p.switchGens[i];
        s in t.switches && (t.switches[s].state == UP || t.switches[s].state == DEGRADED) && t.switches[s].gen == g
  {
    if forall g :: g in p.switchGens ==> SwitchHolds(t, g) {
      forall i | 0 <= i < |p.switchGens| ensures SwitchHolds(t, p.switchGens[i]) {}
    }
  }

  lemma PortsUpheld(p: FabricPath, t: Topology)
    ensures (forall g :: g in p.portGens ==> PortHolds(t, g)) <==>
      forall i :: 0 <= i < |p.portGens| ==>
        var (q, g) := p.portGens[i];
        q in t.ports && (t.ports[q].state == UP || t.ports[q].state == DEGRADED) && t.ports[q].gen == g
  {
    if forall g :: g in p.portGens ==> PortHolds(t, g) {
      forall i | 0 <= i < |p.portGens| ensures PortHolds(t, p.portGens[i]) {}
    }
  }

  /** A decision is still authoritative exactly when the present snapshot upholds all it captured. */
  lemma AuthorityMeans(d: RouteDecision, t: Topology)
    ensures StillAuthoritative(d, t) <==> Upheld(d, t)
  {
    if d.selected.Some? {
      SwitchesUpheld(d.selected.value, t);
      PortsUpheld(d.selected.value, t);
    }
  }
}
