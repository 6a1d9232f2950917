/**
 Determinism. The ranking is stable, so the one choice left open is the order in which
 the search tries the source's links that share a port.
 */
module RouteAgreement {
  import opened Wire
  import opened Fabric
  import opened Walks
  import opened Levels
  import opened Shortlex
  import opened Search
  import opened Keys
  import opened Reach
  import opened Route
  import opened Decision
  import opened RouteLaws
  import opened RouteExact
  import opened RouteOrder

  // ----- the same paths -----

  lemma NotFull(t: Topology, src: DeviceId, dst: DeviceId, policy: Policy, raw: seq<FabricPath>)
    requires Searchable(t, src, dst, RouteConfig(policy)) && Searched(t, src, dst, RouteConfig(policy), raw)
    requires !Crowded(t, src, dst, policy)
    ensures |raw| < RouteConfig(policy).maxPaths
  {
    ListedSet(t, src, dst, RouteConfig(policy), raw);
  }

  lemma ListedAgain(t: Topology, src: DeviceId, dst: DeviceId, policy: Policy, a: seq<FabricPath>, b: seq<FabricPath>, p: FabricPath)
    requires Searched(t, src, dst, RouteConfig(policy), a) && Searched(t, src, dst, RouteConfig(policy), b)
    requires !Crowded(t, src, dst, policy) && p in a
    ensures p in b
  {
    var cfg := RouteConfig(policy);
    NotFull(t, src, dst, policy, b);
    var idx, w := EnumeratedPath(t, src, dst, cfg, a, p);
    SearchComplete(t, src, dst, cfg, b, w);
    var i :| 0 <= i < |b| && b[i].links == w;
    SamePath(t, src, dst, cfg, b, idx, w, b[i]);
  }

  lemma SameEligible(t: Topology, src: DeviceId, dst: DeviceId, policy: Policy, a: seq<FabricPath>, b: seq<FabricPath>, q: FabricPath)
    requires Searched(t, src, dst, RouteConfig(policy), a) && Searched(t, src, dst, RouteConfig(policy), b)
    requires !Crowded(t, src, dst, policy) && q in Eligible(t, policy, a)
    ensures q in Eligible(t, policy, b)
  {
    EligibleExact(t, policy, a, q);
    EligibleExact(t, policy, b, q);
    var p :| p in a && PathEligible(t, policy, p) && q == Capture(t, p);
    ListedAgain(t, src, dst, policy, a, b, p);
  }

  // ----- the same winner -----

  lemma SameWinner(t: Topology, src: DeviceId, dst: DeviceId, policy: Policy, m: BestMeasurement,
                   a: seq<FabricPath>, ra: seq<FabricPath>, b: seq<FabricPath>, rb: seq<FabricPath>)
    requires Searched(t, src, dst, RouteConfig(policy), a) && Searched(t, src, dst, RouteConfig(policy), b)
    requires !Crowded(t, src, dst, policy) && ra != [] && rb != []
    requires IsRanking(t, m, policy.factors, Eligible(t, policy, a), ra) && IsRanking(t, m, policy.factors, Eligible(t, policy, b), rb)
    ensures Scores(t, m, policy.factors, ra[0]) == Scores(t, m, policy.factors, rb[0]) && CanonicalKey(ra[0]) == CanonicalKey(rb[0])
  {
    RankedFrom(t, m, policy.factors, Eligible(t, policy, a), ra);
    RankedFrom(t, m, policy.factors, Eligible(t, policy, b), rb);
    SameEligible(t, src, dst, policy, a, b, ra[0]);
    SameEligible(t, src, dst, policy, b, a, rb[0]);
    BetterTotal(t, m, policy.factors, ra[0], rb[0]);
  }

  lemma RankedFrom(t: Topology, m: BestMeasurement, factors: seq<Byte>, eligible: seq<FabricPath>, ranked: seq<FabricPath>)
    requires IsRanking(t, m, factors, eligible, ranked) && ranked != []
    ensures ranked[0] in eligible && forall p :: p in eligible ==> RankLeq(t, m, factors, ranked[0], p)
  {
    assert multiset(ranked)[ranked[0]] > 0;
    FrontIsBest(t, m, factors, eligible, ranked);
  }

  lemma {:induction false} ScoreAt(t: Topology, m: BestMeasurement, factors: seq<Byte>, p: FabricPath, i: nat)
    requires i < |factors|
    ensures |Scores(t, m, factors, p)| == |factors| && Scores(t, m, factors, p)[i] == FactorValue(factors[i], p, t, m)
    decreases |factors|
  {
    if |factors| > 1 { ScoreAt(t, m, factors[1..], p, if i > 0 then i - 1 else 0); }
  }

  lemma SameDegradation(t: Topology, m: BestMeasurement, factors: seq<Byte>, p: FabricPath, q: FabricPath)
    requires DEGRADATION in factors && Scores(t, m, factors, p) == Scores(t, m, factors, q)
    ensures p.state == DEGRADED <==> q.state == DEGRADED
  {
    var i :| 0 <= i < |factors| && factors[i] == DEGRADATION;
    ScoreAt(t, m, factors, p, i);
    ScoreAt(t, m, factors, q, i);
  }

  // ----- the same answer when nothing is found -----

  lemma SameVerdict(t: Topology, src: DeviceId, dst: DeviceId, a: seq<FabricPath>, b: seq<FabricPath>)
    requires Searched(t, src, dst, DEFAULT_CONFIG, a) && Searched(t, src, dst, DEFAULT_CONFIG, b)
    ensures NoPathOutcome(PathVerdict(t, a)) == NoPathOutcome(PathVerdict(t, b))
  {
    if Searchable(t, src, dst, DEFAULT_CONFIG) {
      FoundIffConnected(t, src, dst, DEFAULT_CONFIG, a);
      FoundIffConnected(t, src, dst, DEFAULT_CONFIG, b);
    }
  }

  lemma SameReason(t: Topology, src: DeviceId, dst: DeviceId, r: Reachability, s: Reachability)
    requires IsReachability(t, src, dst, r) && IsReachability(t, src, dst, s)
    ensures NoPathOutcome(r) == NoPathOutcome(s)
  {
    if EndpointVerdict(t, src, dst).None? {
      LastHoldingExists(t, {src});
      LastHoldingExists(t, {dst});
      var sp :| LastHolding(t, {src}, sp);
      var dp :| LastHolding(t, {dst}, dp);
      var a := AnsweredBy(t, src, dst, r, sp, dp);
      var b := AnsweredBy(t, src, dst, s, sp, dp);
      SameVerdict(t, src, dst, a, b);
    }
  }

  // ----- the same decision -----

  /** All that a caller sees of two decisions, but for which of two equally scored, equally keyed paths was taken. */
  predicate Agree(policy: Policy, d: RouteDecision, e: RouteDecision) {
    && d.partition == e.partition && d.partitionGen == e.partitionGen
    && d.scores == e.scores
    && (d.selected.Some? <==> e.selected.Some?)
    && (d.selected.Some? && e.selected.Some? ==> CanonicalKey(d.selected.value) == CanonicalKey(e.selected.value))
    && (Allowed(d) <==> Allowed(e))
    && (!Allowed(d) || DEGRADATION in policy.factors ==> d.outcome == e.outcome)
  }

  lemma SameEmptiness(t: Topology, src: DeviceId, dst: DeviceId, policy: Policy, m: BestMeasurement,
                      a: seq<FabricPath>, ra: seq<FabricPath>, b: seq<FabricPath>, rb: seq<FabricPath>)
    requires Searched(t, src, dst, RouteConfig(policy), a) && Searched(t, src, dst, RouteConfig(policy), b)
    requires !Crowded(t, src, dst, policy)
    requires IsRanking(t, m, policy.factors, Eligible(t, policy, a), ra) && IsRanking(t, m, policy.factors, Eligible(t, policy, b), rb)
    ensures a != [] ==> b != []
    ensures ra != [] ==> rb != []
  {
    if a != [] { ListedAgain(t, src, dst, policy, a, b, a[0]); }
    if ra != [] {
      RankedFrom(t, m, policy.factors, Eligible(t, policy, a), ra);
      SameEligible(t, src, dst, policy, a, b, ra[0]);
      assert multiset(Eligible(t, policy, b))[ra[0]] > 0;
    }
  }

  lemma SelectionsAgree(t: Topology, src: DeviceId, dst: DeviceId, policy: Policy, m: BestMeasurement, epoch: U64,
                        part: Option<PartitionId>, ra: seq<FabricPath>, rb: seq<FabricPath>)
    requires part.Some? ==> part.value in t.partitions
    requires ra != [] <==> rb != []
    requires ra != [] ==> Scores(t, m, policy.factors, ra[0]) == Scores(t, m, policy.factors, rb[0]) && CanonicalKey(ra[0]) == CanonicalKey(rb[0])
    ensures Agree(policy, InPartition(t, Selected(t, src, dst, policy, m, epoch, ra), part),
                  InPartition(t, Selected(t, src, dst, policy, m, epoch, rb), part))
  {
    if ra != [] && DEGRADATION in policy.factors { SameDegradation(t, m, policy.factors, ra[0], rb[0]); }
  }

  lemma OutcomesAgree(t: Topology, src: DeviceId, dst: DeviceId, policy: Policy, m: BestMeasurement, epoch: U64, part: Option<PartitionId>,
                      a: seq<FabricPath>, r: Reachability, ra: seq<FabricPath>, b: seq<FabricPath>, s: Reachability, rb: seq<FabricPath>)
    requires part.Some? ==> part.value in t.partitions
    requires (a != [] <==> b != []) && (ra != [] <==> rb != [])
    requires a == [] ==> NoPathOutcome(r) == NoPathOutcome(s)
    requires ra != [] ==> Scores(t, m, policy.factors, ra[0]) == Scores(t, m, policy.factors, rb[0]) && CanonicalKey(ra[0]) == CanonicalKey(rb[0])
    ensures Agree(policy, Outcomes(t, src, dst, policy, m, epoch, part, a, r, ra), Outcomes(t, src, dst, policy, m, epoch, part, b, s, rb))
  {
    NoPathNeverAllows(r);
    SelectionsAgree(t, src, dst, policy, m, epoch, part, ra, rb);
  }

  /**
   Whatever the source's links: unless the policy's bounds hold as many walks as the search lists,
   any two decisions on one topology, policy and measurement agree, in whichever order they were tried.
   The outcomes themselves agree when nothing is allowed or degradation is one of the factors.
   */
  lemma DecisionsAgree(t: Topology, src: DeviceId, dst: DeviceId, policy: Policy, m: BestMeasurement, epoch: U64,
                       d: RouteDecision, e: RouteDecision)
    requires IsDecision(t, src, dst, policy, m, epoch, d) && IsDecision(t, src, dst, policy, m, epoch, e)
    requires !Crowded(t, src, dst, policy)
    ensures Agree(policy, d, e)
  {
    var part, a, r, ra := DecisionChoices(t, src, dst, policy, m, epoch, d);
    var part', b, s, rb := DecisionChoices(t, src, dst, policy, m, epoch, e);
    LastUnique(t, {src, dst}, part, part');
    SameEmptiness(t, src, dst, policy, m, a, ra, b, rb);
    SameEmptiness(t, src, dst, policy, m, b, rb, a, ra);
    if a == [] { SameReason(t, src, dst, r, s); }
    if ra != [] { SameWinner(t, src, dst, policy, m, a, ra, b, rb); }
    OutcomesAgree(t, src, dst, policy, m, epoch, part, a, r, ra, b, s, rb);
  }

  // ----- the decision as a function of the snapshot -----

  /** The choices made along the way, when the source's links are tried in this order. */
  ghost predicate DecidedBy(t: Topology, src: DeviceId, dst: DeviceId, policy: Policy, m: BestMeasurement, epoch: U64, seeds: seq<LinkId>,
                            part: Option<PartitionId>, raw: seq<FabricPath>, reach: Reachability, ranked: seq<FabricPath>, d: RouteDecision)
  {
    && Choices(t, src, dst, policy, m, part, raw, reach, ranked)
    && EnumeratedFrom(t, src, dst, RouteConfig(policy), seeds, raw)
    && d == Outcomes(t, src, dst, policy, m, epoch, part, raw, reach, ranked)
  }

  /** The decision the code takes when it tries the source's links in this order. */
  ghost predicate DecidedFrom(t: Topology, src: DeviceId, dst: DeviceId, policy: Policy, m: BestMeasurement, epoch: U64,
                              seeds: seq<LinkId>, d: RouteDecision)
  {
    exists part, raw, reach, ranked :: DecidedBy(t, src, dst, policy, m, epoch, seeds, part, raw, reach, ranked, d)
  }

  ghost predicate EnumeratedFrom(t: Topology, src: DeviceId, dst: DeviceId, cfg: Config, seeds: seq<LinkId>, raw: seq<FabricPath>) {
    Searchable(t, src, dst, cfg) ==> exists idx :: Enumerates(t, idx, src, dst, seeds, cfg, raw)
  }

  lemma SomeSeeds(t: Topology, src: DeviceId, dst: DeviceId, cfg: Config, raw: seq<FabricPath>) returns (seeds: seq<LinkId>)
    requires IsEnumeration(t, src, dst, cfg, raw)
    ensures EnumeratedFrom(t, src, dst, cfg, seeds, raw)
    ensures Searchable(t, src, dst, cfg) ==> ValidSeeds(t, src, seeds)
  {
    seeds := [];
    if Searchable(t, src, dst, cfg) {
      var idx;
      idx, seeds :| Enumerates(t, idx, src, dst, seeds, cfg, raw);
    }
  }

  /** Every decision follows some order of the source's links. */
  lemma DecidedFromSome(t: Topology, src: DeviceId, dst: DeviceId, policy: Policy, m: BestMeasurement, epoch: U64, d: RouteDecision)
    returns (seeds: seq<LinkId>)
    requires IsDecision(t, src, dst, policy, m, epoch, d)
    ensures DecidedFrom(t, src, dst, policy, m, epoch, seeds, d)
    ensures Searchable(t, src, dst, RouteConfig(policy)) ==> ValidSeeds(t, src, seeds)
  {
    var part, raw, reach, ranked := DecisionChoices(t, src, dst, policy, m, epoch, d);
    seeds := SomeSeeds(t, src, dst, RouteConfig(policy), raw);
    assert DecidedBy(t, src, dst, policy, m, epoch, seeds, part, raw, reach, ranked, d);
  }

  lemma ListsUnique(t: Topology, a: Index, b: Index, src: DeviceId, dst: DeviceId, ws: seq<Walk>, p: seq<FabricPath>, q: seq<FabricPath>)
    requires ValidIndex(t, a) && ValidIndex(t, b) && Lists(t, a, src, dst, ws, p) && Lists(t, b, src, dst, ws, q)
    ensures p == q
  {
    forall i | 0 <= i < |p| ensures p[i] == q[i] { TraceUnique(t, a, b, Body(ws[i])); }
  }

  /** One order of the source's links gives one list of paths, truncated or not. */
  lemma EnumerationUnique(t: Topology, src: DeviceId, dst: DeviceId, cfg: Config, seeds: seq<LinkId>, p: seq<FabricPath>, q: seq<FabricPath>)
    requires IsEnumeration(t, src, dst, cfg, p) && IsEnumeration(t, src, dst, cfg, q)
    requires EnumeratedFrom(t, src, dst, cfg, seeds, p) && EnumeratedFrom(t, src, dst, cfg, seeds, q)
    ensures p == q
  {
    if Searchable(t, src, dst, cfg) {
      var a :| Enumerates(t, a, src, dst, seeds, cfg, p);
      var b :| Enumerates(t, b, src, dst, seeds, cfg, q);
      FoundUnique(t, a, b, dst, seeds, Depth(cfg));
      ListsUnique(t, a, b, src, dst, Take(Found(t, a, dst, seeds, Depth(cfg)), cfg.maxPaths), p, q);
    }
  }

  lemma SameOutcome(t: Topology, src: DeviceId, dst: DeviceId, policy: Policy, m: BestMeasurement, epoch: U64,
                    part: Option<PartitionId>, raw: seq<FabricPath>, r: Reachability, s: Reachability, ranked: seq<FabricPath>)
    requires part.Some? ==> part.value in t.partitions
    requires raw == [] ==> NoPathOutcome(r) == NoPathOutcome(s)
    ensures Outcomes(t, src, dst, policy, m, epoch, part, raw, r, ranked) == Outcomes(t, src, dst, policy, m, epoch, part, raw, s, ranked)
  {}

  /** One order of the source's links gives one decision. */
  lemma DecisionUnique(t: Topology, src: DeviceId, dst: DeviceId, policy: Policy, m: BestMeasurement, epoch: U64,
                       seeds: seq<LinkId>, d: RouteDecision, e: RouteDecision)
    requires DecidedFrom(t, src, dst, policy, m, epoch, seeds, d) && DecidedFrom(t, src, dst, policy, m, epoch, seeds, e)
    ensures d == e
  {
    var part, a, r, ra :| DecidedBy(t, src, dst, policy, m, epoch, seeds, part, a, r, ra, d);
    var part', b, s, rb :| DecidedBy(t, src, dst, policy, m, epoch, seeds, part', b, s, rb, e);
    LastUnique(t, {src, dst}, part, part');
    EnumerationUnique(t, src, dst, RouteConfig(policy), seeds, a, b);
    RankingUnique(t, m, policy.factors, Eligible(t, policy, a), ra, rb);
    if a == [] { SameReason(t, src, dst, r, s); }
    SameOutcome(t, src, dst, policy, m, epoch, part, a, r, s, ra);
  }

  /**
   When no two usable links attach the source to one port, the decision is a function of the
   snapshot, the policy, the measurement and the epoch, whether or not the search was cut short.
   */
  lemma Deterministic(t: Topology, src: DeviceId, dst: DeviceId, policy: Policy, m: BestMeasurement, epoch: U64,
                      d: RouteDecision, e: RouteDecision)
    requires IsDecision(t, src, dst, policy, m, epoch, d) && IsDecision(t, src, dst, policy, m, epoch, e)
    requires SinglyAttached(t, src)
    ensures d == e
  {
    var p := DecidedFromSome(t, src, dst, policy, m, epoch, d);
    var q := DecidedFromSome(t, src, dst, policy, m, epoch, e);
    if Searchable(t, src, dst, RouteConfig(policy)) {
      SeedsUnique(t, src, p, q);
    } else {
      UnsearchedFromAny(t, src, dst, policy, m, epoch, p, q, e);
    }
    DecisionUnique(t, src, dst, policy, m, epoch, p, d, e);
  }

  lemma UnsearchedFromAny(t: Topology, src: DeviceId, dst: DeviceId, policy: Policy, m: BestMeasurement, epoch: U64,
                          p: seq<LinkId>, q: seq<LinkId>, d: RouteDecision)
    requires DecidedFrom(t, src, dst, policy, m, epoch, q, d) && !Searchable(t, src, dst, RouteConfig(policy))
    ensures DecidedFrom(t, src, dst, policy, m, epoch, p, d)
  {
    var part, raw, reach, ranked :| DecidedBy(t, src, dst, policy, m, epoch, q, part, raw, reach, ranked, d);
    assert DecidedBy(t, src, dst, policy, m, epoch, p, part, raw, reach, ranked, d);
  }
}
