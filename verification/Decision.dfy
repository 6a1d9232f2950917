/** computeRoute and the later re-check of what its decision captured. */
module Decision {
  import opened Wire
  import opened Fabric
  import opened Walks
  import opened Sorting
  import opened Search
  import opened PathSearch
  import opened Reach
  import opened Route

  datatype Outcome =
    | ROUTE_ALLOWED
    | ROUTE_ALLOWED_DEGRADED
    | NO_ROUTE
    | ROUTE_PARTITION_BLOCKED
    | ROUTE_SWITCH_DOWN
    | ROUTE_PORT_DOWN
    | STALE_TOPOLOGY
    | STALE_PARTITION
    | STALE_SWITCH
    | ROUTE_REVALIDATION_REQUIRED
    | ROUTE_INSUFFICIENT_EVIDENCE
    | ROUTE_UNSUPPORTED

  datatype RouteDecision = RouteDecision(
    source: DeviceId, destination: DeviceId, epoch: U64, topologyGen: Gen,
    partition: Option<PartitionId>, partitionGen: Gen,
    outcome: Outcome, candidatePaths: seq<FabricPath>, selected: Option<FabricPath>, scores: seq<real>)

  predicate Allowed(d: RouteDecision) {
    d.outcome == ROUTE_ALLOWED || d.outcome == ROUTE_ALLOWED_DEGRADED
  }

  // ----- the stages of computeRoute -----

  /** The gate on the endpoints: the outcome of the first check that fails. */
  function EndpointGate(t: Topology, src: DeviceId, dst: DeviceId): Option<Outcome> {
    if src !in t.devices || dst !in t.devices then Some(NO_ROUTE)
    else if !t.devices[src].present || !t.devices[dst].present then Some(NO_ROUTE)
    else if src == dst then Some(NO_ROUTE)
    else if !Current(t.devices[src].state) || !Current(t.devices[dst].state) then Some(ROUTE_REVALIDATION_REQUIRED)
    else None
  }

  predicate AnyLivePartition(t: Topology) {
    exists k :: k in t.partitions && Live(t.partitions[k])
  }

  predicate AnyStalePartition(t: Topology) {
    exists k :: k in t.partitions && t.partitions[k].state == PARTITION_STALE
  }

  /** The gate on the partition, given the last live partition that holds both endpoints. */
  function PartitionGate(t: Topology, policy: Policy, part: Option<PartitionId>): Option<Outcome> {
    if part.None? && policy.insidePartition && AnyLivePartition(t)
    then Some(if AnyStalePartition(t) then STALE_PARTITION else ROUTE_PARTITION_BLOCKED)
    else None
  }

  /** The search bounds a policy allows; the addition wraps at 2^64. */
  function RouteConfig(policy: Policy): Config {
    var room := Next(policy.maxAllowedHops);
    Config(if room < MAX_CANDIDATE_PATHS then room else MAX_CANDIDATE_PATHS,
           if policy.maxAllowedHops < MAX_PATH_DEPTH then policy.maxAllowedHops else MAX_PATH_DEPTH,
           true)
  }

  function NoPathOutcome(r: Reachability): Outcome {
    match r
    case PARTITION_BLOCKED => ROUTE_PARTITION_BLOCKED
    case SWITCH_DOWN => ROUTE_SWITCH_DOWN
    case PORT_DOWN => ROUTE_PORT_DOWN
    case NEEDS_REVALIDATION => ROUTE_REVALIDATION_REQUIRED
    case TOPOLOGY_STALE => STALE_TOPOLOGY
    case ENDPOINT_STALE => ROUTE_REVALIDATION_REQUIRED
    case NOT_SUPPORTED => ROUTE_UNSUPPORTED
    case INSUFFICIENT_EVIDENCE => ROUTE_INSUFFICIENT_EVIDENCE
    case _ => NO_ROUTE
  }

  function Blank(t: Topology, src: DeviceId, dst: DeviceId, epoch: U64, outcome: Outcome): RouteDecision {
    RouteDecision(src, dst, epoch, t.topologyGen, None, 0, outcome, [], None, [])
  }

  function InPartition(t: Topology, d: RouteDecision, part: Option<PartitionId>): RouteDecision
    requires part.Some? ==> part.value in t.partitions
  {
    if part.Some? then d.(partition := part, partitionGen := t.partitions[part.value].gen) else d
  }

  function Selected(t: Topology, src: DeviceId, dst: DeviceId, policy: Policy, m: BestMeasurement, epoch: U64,
                    ranked: seq<FabricPath>): RouteDecision
  {
    if ranked == [] then
      Blank(t, src, dst, epoch, if AnySwitchExpired(t) then STALE_SWITCH else NO_ROUTE)
    else
      RouteDecision(src, dst, epoch, t.topologyGen, None, 0,
                    if ranked[0].state == DEGRADED then ROUTE_ALLOWED_DEGRADED else ROUTE_ALLOWED,
                    ranked, Some(ranked[0]), Scores(t, m, policy.factors, ranked[0]))
  }

  /** What the choices made along the way amount to. */
  function Outcomes(t: Topology, src: DeviceId, dst: DeviceId, policy: Policy, m: BestMeasurement, epoch: U64,
                    part: Option<PartitionId>, raw: seq<FabricPath>, reach: Reachability, ranked: seq<FabricPath>): RouteDecision
    requires part.Some? ==> part.value in t.partitions
  {
    if EndpointGate(t, src, dst).Some? then Blank(t, src, dst, epoch, EndpointGate(t, src, dst).value)
    else if PartitionGate(t, policy, part).Some? then Blank(t, src, dst, epoch, PartitionGate(t, policy, part).value)
    else if raw == [] then InPartition(t, Blank(t, src, dst, epoch, NoPathOutcome(reach)), part)
    else InPartition(t, Selected(t, src, dst, policy, m, epoch, ranked), part)
  }

  /** The choices themselves: the governing partition, an enumeration, a reachability answer, a ranking. */
  ghost predicate Choices(t: Topology, src: DeviceId, dst: DeviceId, policy: Policy, m: BestMeasurement,
                          part: Option<PartitionId>, raw: seq<FabricPath>, reach: Reachability, ranked: seq<FabricPath>)
  {
    && LastHolding(t, {src, dst}, part)
    && IsEnumeration(t, src, dst, RouteConfig(policy), raw)
    && Searched(t, src, dst, RouteConfig(policy), raw)
    && (raw == [] ==> IsReachability(t, src, dst, reach))
    && IsRanking(t, m, policy.factors, Eligible(t, policy, raw), ranked)
  }

  ghost predicate IsDecision(t: Topology, src: DeviceId, dst: DeviceId, policy: Policy, m: BestMeasurement, epoch: U64, d: RouteDecision) {
    exists part, raw, reach, ranked ::
      Choices(t, src, dst, policy, m, part, raw, reach, ranked)
      && d == Outcomes(t, src, dst, policy, m, epoch, part, raw, reach, ranked)
  }

  method ComputeRoute(t: Topology, src: DeviceId, dst: DeviceId, policy: Policy, m: BestMeasurement, epoch: U64) returns (d: RouteDecision)
    ensures IsDecision(t, src, dst, policy, m, epoch, d)
  {
    var part := FindLast(t, {src, dst});
    var raw := EnumeratePaths(t, src, dst, RouteConfig(policy));
    var reach := DeviceReachability(t, src, dst);
    var eligible := FilterPaths(t, policy, raw);
    var ranked := Rank(t, m, policy.factors, eligible);
    assert Choices(t, src, dst, policy, m, part, raw, reach, ranked);
    d := Outcomes(t, src, dst, policy, m, epoch, part, raw, reach, ranked);
  }

  // ----- authority -----

  predicate SwitchHolds(t: Topology, g: (SwitchId, Gen)) {
    g.0 in t.switches && Traversable(t.switches[g.0].state) && t.switches[g.0].gen == g.1
  }

  predicate PortHolds(t: Topology, g: (PortId, Gen)) {
    g.0 in t.ports && Traversable(t.ports[g.0].state) && t.ports[g.0].gen == g.1
  }

  predicate PartitionHolds(t: Topology, k: PartitionId, g: Gen) {
    k in t.partitions && Live(t.partitions[k]) && t.partitions[k].gen == g
  }

  /** routeDecisionStillAuthoritative. Links are not consulted. */
  predicate StillAuthoritative(d: RouteDecision, t: Topology) {
    && Allowed(d)
    && d.epoch == t.epoch
    && EndpointUsable(t, d.source) && EndpointUsable(t, d.destination)
    && (d.partition.Some? ==> PartitionHolds(t, d.partition.value, d.partitionGen))
    && (d.selected.Some? ==>
          && (forall g :: g in d.selected.value.switchGens ==> SwitchHolds(t, g))
          && (forall g :: g in d.selected.value.portGens ==> PortHolds(t, g)))
  }

  // ----- what an allowed decision rests on -----

  lemma NoPathNeverAllows(r: Reachability)
    ensures NoPathOutcome(r) != ROUTE_ALLOWED && NoPathOutcome(r) != ROUTE_ALLOWED_DEGRADED
  {}

  lemma SelectedIffAllowed(t: Topology, src: DeviceId, dst: DeviceId, policy: Policy, m: BestMeasurement, epoch: U64,
                           part: Option<PartitionId>, raw: seq<FabricPath>, reach: Reachability, ranked: seq<FabricPath>)
    requires part.Some? ==> part.value in t.partitions
    ensures var d := Outcomes(t, src, dst, policy, m, epoch, part, raw, reach, ranked); d.selected.Some? <==> Allowed(d)
  {
    NoPathNeverAllows(reach);
  }

  lemma AllowedShape(t: Topology, src: DeviceId, dst: DeviceId, policy: Policy, m: BestMeasurement, epoch: U64,
                     part: Option<PartitionId>, raw: seq<FabricPath>, reach: Reachability, ranked: seq<FabricPath>, d: RouteDecision)
    requires part.Some? ==> part.value in t.partitions
    requires d == Outcomes(t, src, dst, policy, m, epoch, part, raw, reach, ranked) && Allowed(d)
    ensures EndpointGate(t, src, dst).None? && PartitionGate(t, policy, part).None? && raw != [] && ranked != []
    ensures d.selected == Some(ranked[0]) && d.candidatePaths == ranked
    ensures d.source == src && d.destination == dst && d.epoch == epoch && d.partition == part
    ensures part.Some? ==> d.partitionGen == t.partitions[part.value].gen
  {
    NoPathNeverAllows(reach);
  }

  lemma FrontWasEligible(t: Topology, policy: Policy, m: BestMeasurement, raw: seq<FabricPath>, ranked: seq<FabricPath>) returns (best: FabricPath)
    requires IsRanking(t, m, policy.factors, Eligible(t, policy, raw), ranked) && ranked != []
    ensures best in raw && PathEligible(t, policy, best) && ranked[0] == Capture(t, best)
  {
    SameElements(Eligible(t, policy, raw), ranked);
    assert ranked[0] in ranked;
    EligibleExact(t, policy, raw, ranked[0]);
    best :| best in raw && PathEligible(t, policy, best) && ranked[0] == Capture(t, best);
  }

  /** The choices behind a decision. */
  lemma DecisionChoices(t: Topology, src: DeviceId, dst: DeviceId, policy: Policy, m: BestMeasurement, epoch: U64, d: RouteDecision)
    returns (part: Option<PartitionId>, raw: seq<FabricPath>, reach: Reachability, ranked: seq<FabricPath>)
    requires IsDecision(t, src, dst, policy, m, epoch, d)
    ensures LastHolding(t, {src, dst}, part) && (part.Some? ==> part.value in t.partitions)
    ensures IsEnumeration(t, src, dst, RouteConfig(policy), raw) && Searched(t, src, dst, RouteConfig(policy), raw)
    ensures raw == [] ==> IsReachability(t, src, dst, reach)
    ensures IsRanking(t, m, policy.factors, Eligible(t, policy, raw), ranked)
    ensures d == Outcomes(t, src, dst, policy, m, epoch, part, raw, reach, ranked)
  {
    part, raw, reach, ranked :|
      Choices(t, src, dst, policy, m, part, raw, reach, ranked)
      && d == Outcomes(t, src, dst, policy, m, epoch, part, raw, reach, ranked);
  }

  /** The choices behind an allowed decision. */
  lemma AllowedRests(t: Topology, src: DeviceId, dst: DeviceId, policy: Policy, m: BestMeasurement, epoch: U64, d: RouteDecision)
    returns (part: Option<PartitionId>, raw: seq<FabricPath>, ranked: seq<FabricPath>, best: FabricPath)
    requires IsDecision(t, src, dst, policy, m, epoch, d) && Allowed(d)
    ensures LastHolding(t, {src, dst}, part) && PartitionGate(t, policy, part).None?
    ensures Searched(t, src, dst, RouteConfig(policy), raw) && Searchable(t, src, dst, RouteConfig(policy))
    ensures IsRanking(t, m, policy.factors, Eligible(t, policy, raw), ranked) && ranked != []
    ensures best in raw && PathEligible(t, policy, best) && Some(Capture(t, best)) == d.selected == Some(ranked[0])
    ensures d.source == src && d.destination == dst && d.epoch == epoch && d.partition == part
    ensures part.Some? ==> d.partitionGen == t.partitions[part.value].gen
  {
    var reach;
    part, raw, reach, ranked := DecisionChoices(t, src, dst, policy, m, epoch, d);
    AllowedShape(t, src, dst, policy, m, epoch, part, raw, reach, ranked, d);
    best := FrontWasEligible(t, policy, m, raw, ranked);
  }
}
