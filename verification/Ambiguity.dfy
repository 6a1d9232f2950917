/**
 Exactly which paths decisions on one snapshot may select, and when their outcome is
 determined: only the source's links that share a port can change places.
 */
module Ambiguity {
  import opened Wire
  import opened Fabric
  import opened Walks
  import opened Levels
  import opened Shortlex
  import opened Search
  import opened Keys
  import opened Reach
  import opened Route
  import opened Decision
  import opened RouteLaws
  import opened RouteExact
  import opened RouteAgreement
  import opened Selection

  // ----- leading candidates -----

  /** No candidate is better. */
  ghost predicate BestOf(t: Topology, m: BestMeasurement, factors: seq<Byte>, cand: FabricPath -> bool, q: FabricPath) {
    cand(q) && forall p :: cand(p) ==> RankLeq(t, m, factors, q, p)
  }

  predicate SameStart(p: FabricPath, q: FabricPath) {
    |p.links| > 0 && |q.links| > 0 && p.links[0] == q.links[0]
  }

  /** The first, by (port, link), of the best candidates with its first link. */
  ghost predicate LeadingOf(t: Topology, m: BestMeasurement, factors: seq<Byte>, cand: FabricPath -> bool, q: FabricPath) {
    && BestOf(t, m, factors, cand, q)
    && forall p :: BestOf(t, m, factors, cand, p) && p != q && SameStart(p, q) ==> Ahead(t, q.links, p.links)
  }

  ghost function Candidates(t: Topology, src: DeviceId, dst: DeviceId, policy: Policy): FabricPath -> bool {
    q => RouteCandidate(t, src, dst, policy, q)
  }

  ghost predicate Best(t: Topology, src: DeviceId, dst: DeviceId, policy: Policy, m: BestMeasurement, q: FabricPath) {
    BestOf(t, m, policy.factors, Candidates(t, src, dst, policy), q)
  }

  ghost predicate Leading(t: Topology, src: DeviceId, dst: DeviceId, policy: Policy, m: BestMeasurement, q: FabricPath) {
    LeadingOf(t, m, policy.factors, Candidates(t, src, dst, policy), q)
  }

  lemma BestTied(t: Topology, m: BestMeasurement, factors: seq<Byte>, cand: FabricPath -> bool, p: FabricPath, q: FabricPath)
    requires BestOf(t, m, factors, cand, p) && BestOf(t, m, factors, cand, q)
    ensures Tied(t, m, factors, p, q)
  {
    BetterTotal(t, m, factors, p, q);
  }

  lemma TiedLeq(t: Topology, m: BestMeasurement, factors: seq<Byte>, p: FabricPath, q: FabricPath, x: FabricPath)
    requires Tied(t, m, factors, p, q) && RankLeq(t, m, factors, p, x)
    ensures RankLeq(t, m, factors, q, x)
  {
    BetterCongruent(t, m, factors, p, q, x);
  }

  lemma OutranksLeq(t: Topology, m: BestMeasurement, factors: seq<Byte>, seeds: seq<LinkId>, p: FabricPath, q: FabricPath)
    requires p == q || Outranks(t, m, factors, seeds, p, q)
    ensures RankLeq(t, m, factors, p, q)
  {
    BetterTotal(t, m, factors, p, q);
  }

  lemma TiedBest(t: Topology, m: BestMeasurement, factors: seq<Byte>, cand: FabricPath -> bool, p: FabricPath, q: FabricPath)
    requires BestOf(t, m, factors, cand, p) && cand(q) && Tied(t, m, factors, p, q)
    ensures BestOf(t, m, factors, cand, q)
  {
    forall x | cand(x) ensures RankLeq(t, m, factors, q, x) { TiedLeq(t, m, factors, p, q, x); }
  }

  lemma UncrowdedInReach(t: Topology, src: DeviceId, dst: DeviceId, policy: Policy, seeds: seq<LinkId>, q: FabricPath)
    requires !Crowded(t, src, dst, policy) && RouteCandidate(t, src, dst, policy, q)
    ensures InReach(t, src, dst, policy, seeds, q)
  {}

  lemma ChosenIsBest(t: Topology, src: DeviceId, dst: DeviceId, policy: Policy, m: BestMeasurement, seeds: seq<LinkId>, q: FabricPath)
    requires !Crowded(t, src, dst, policy) && Chosen(t, src, dst, policy, m, seeds, q)
    ensures Best(t, src, dst, policy, m, q)
  {
    forall p | RouteCandidate(t, src, dst, policy, p) ensures RankLeq(t, m, policy.factors, q, p) {
      UncrowdedInReach(t, src, dst, policy, seeds, p);
      OutranksLeq(t, m, policy.factors, seeds, q, p);
    }
  }

  lemma ChosenLeads(t: Topology, src: DeviceId, dst: DeviceId, policy: Policy, m: BestMeasurement, seeds: seq<LinkId>, q: FabricPath)
    requires !Crowded(t, src, dst, policy) && Chosen(t, src, dst, policy, m, seeds, q)
    ensures Leading(t, src, dst, policy, m, q)
  {
    ChosenIsBest(t, src, dst, policy, m, seeds, q);
    forall p | Best(t, src, dst, policy, m, p) && p != q && SameStart(p, q) ensures Ahead(t, q.links, p.links) {
      UncrowdedInReach(t, src, dst, policy, seeds, p);
      BeforeSameStart(t, seeds, q.links, p.links);
    }
  }

  // ----- tied candidates have the same hops -----

  /** What the search records of a walk: a hop for each switch, entered first by the port of the source's link. */
  predicate Shaped(t: Topology, src: DeviceId, dst: DeviceId, q: FabricPath) {
    && q.source == src && q.destination == dst && |q.hops| == |q.links| - 1 > 0
    && q.links[0] in t.links && q.hops[0].inPort == t.links[q.links[0]].port
    && forall h :: h in q.hops ==> Recorded(h)
  }

  lemma CandidateShaped(t: Topology, src: DeviceId, dst: DeviceId, policy: Policy, q: FabricPath)
    requires Integrity(t) && RouteCandidate(t, src, dst, policy, q)
    ensures Shaped(t, src, dst, q)
  {
    var w := q.links;
    var idx :| ValidIndex(t, idx) && q == Capture(t, PathOf(t, idx, src, dst, w));
    PathHops(t, idx, src, dst, w, 0);
    forall i | 0 <= i < |q.hops| ensures Recorded(q.hops[i]) {
      PathHops(t, idx, src, dst, w, i);
      HopsRecorded(t, idx, src, dst, w, i, q.hops[i]);
    }
  }

  lemma SameKeyHops(p: FabricPath, q: FabricPath)
    requires (forall h :: h in p.hops ==> Recorded(h)) && (forall h :: h in q.hops ==> Recorded(h))
    requires CanonicalKey(p) == CanonicalKey(q)
    ensures p.hops == q.hops
  {
    assert forall h :: h in p.hops + q.hops ==> h in p.hops || h in q.hops;
    KeyIdentifiesPath(p, q);
  }

  predicate SameHops(t: Topology, p: FabricPath, q: FabricPath) {
    && p.hops == q.hops && |p.links| == |q.links| > 0
    && p.links[0] in t.links && q.links[0] in t.links && t.links[p.links[0]].port == t.links[q.links[0]].port
  }

  lemma ShapedKeys(t: Topology, src: DeviceId, dst: DeviceId, p: FabricPath, q: FabricPath)
    requires Shaped(t, src, dst, p) && Shaped(t, src, dst, q) && CanonicalKey(p) == CanonicalKey(q)
    ensures SameHops(t, p, q)
  {
    SameKeyHops(p, q);
  }

  lemma TiedHops(t: Topology, src: DeviceId, dst: DeviceId, policy: Policy, m: BestMeasurement, p: FabricPath, q: FabricPath)
    requires Integrity(t) && RouteCandidate(t, src, dst, policy, p) && RouteCandidate(t, src, dst, policy, q) && Tied(t, m, policy.factors, p, q)
    ensures SameHops(t, p, q)
  {
    CandidateShaped(t, src, dst, policy, p);
    CandidateShaped(t, src, dst, policy, q);
    ShapedKeys(t, src, dst, p, q);
  }

  // ----- every leading candidate may be selected -----

  lemma LeadingIsFirst(t: Topology, src: DeviceId, dst: DeviceId, policy: Policy, m: BestMeasurement, seeds: seq<LinkId>, q: FabricPath, p: FabricPath)
    requires Integrity(t) && Leading(t, src, dst, policy, m, q) && Leads(t, seeds, q.links[0]) && ValidSeeds(t, src, seeds)
    requires RouteCandidate(t, src, dst, policy, p) && p != q && Tied(t, m, policy.factors, q, p)
    ensures Before(t, seeds, q.links, p.links)
  {
    TiedHops(t, src, dst, policy, m, p, q);
    if p.links[0] == q.links[0] {
      TiedBest(t, m, policy.factors, Candidates(t, src, dst, policy), q, p);
      BeforeSameStart(t, seeds, q.links, p.links);
    } else {
      StartsAtSeed(t, src, dst, seeds, p.links);
      assert EarlierAt(t, seeds, q.links, p.links, 0);
    }
  }

  lemma BestOutranks(t: Topology, m: BestMeasurement, factors: seq<Byte>, cand: FabricPath -> bool, seeds: seq<LinkId>, q: FabricPath, p: FabricPath)
    requires BestOf(t, m, factors, cand, q) && cand(p) && (Tied(t, m, factors, q, p) ==> Before(t, seeds, q.links, p.links))
    ensures Outranks(t, m, factors, seeds, q, p)
  {
    BetterTotal(t, m, factors, q, p);
  }

  lemma LeadingOutranks(t: Topology, src: DeviceId, dst: DeviceId, policy: Policy, m: BestMeasurement, seeds: seq<LinkId>, q: FabricPath, p: FabricPath)
    requires Integrity(t) && Leading(t, src, dst, policy, m, q) && Leads(t, seeds, q.links[0]) && ValidSeeds(t, src, seeds)
    requires RouteCandidate(t, src, dst, policy, p) && p != q
    ensures Outranks(t, m, policy.factors, seeds, q, p)
  {
    if Tied(t, m, policy.factors, q, p) { LeadingIsFirst(t, src, dst, policy, m, seeds, q, p); }
    BestOutranks(t, m, policy.factors, Candidates(t, src, dst, policy), seeds, q, p);
  }

  lemma LeadingIsChosen(t: Topology, src: DeviceId, dst: DeviceId, policy: Policy, m: BestMeasurement, seeds: seq<LinkId>, q: FabricPath)
    requires Integrity(t) && !Crowded(t, src, dst, policy)
    requires Leading(t, src, dst, policy, m, q) && Leads(t, seeds, q.links[0]) && ValidSeeds(t, src, seeds)
    ensures Chosen(t, src, dst, policy, m, seeds, q)
  {
    UncrowdedInReach(t, src, dst, policy, seeds, q);
    forall p | InReach(t, src, dst, policy, seeds, p) && p != q ensures Outranks(t, m, policy.factors, seeds, q, p) {
      LeadingOutranks(t, src, dst, policy, m, seeds, q, p);
    }
  }

  // ----- a decision for every order -----

  lemma EnumerationExists(t: Topology, idx: Index, src: DeviceId, dst: DeviceId, cfg: Config, seeds: seq<LinkId>) returns (raw: seq<FabricPath>)
    requires ValidIndex(t, idx) && ValidSeeds(t, src, seeds)
    ensures Enumerates(t, idx, src, dst, seeds, cfg, raw)
  {
    var ws := Take(Found(t, idx, dst, seeds, Depth(cfg)), cfg.maxPaths);
    forall i | 0 <= i < |ws| ensures |ws[i]| >= 2 && Linked(t, ws[i]) {
      FoundExact(t, idx, src, dst, seeds, Depth(cfg), ws[i]);
      WalkLinked(t, src, dst, ws[i]);
    }
    raw := seq(|ws|, i requires 0 <= i < |ws| => PathOf(t, idx, src, dst, ws[i]));
  }

  lemma WalkLinked(t: Topology, src: DeviceId, dst: DeviceId, w: Walk)
    requires IsWalk(t, src, dst, w)
    ensures Linked(t, w)
  {
    forall i | 0 <= i < |w| ensures w[i] in t.links { WalkLinkUsable(t, src, dst, w, i); }
  }

  lemma DecidedIsDecision(t: Topology, src: DeviceId, dst: DeviceId, policy: Policy, m: BestMeasurement, epoch: U64, seeds: seq<LinkId>, d: RouteDecision)
    requires DecidedFrom(t, src, dst, policy, m, epoch, seeds, d)
    ensures IsDecision(t, src, dst, policy, m, epoch, d)
  {
    var part, raw, reach, ranked :| DecidedBy(t, src, dst, policy, m, epoch, seeds, part, raw, reach, ranked, d);
  }

  lemma EnumerationNonempty(t: Topology, idx: Index, src: DeviceId, dst: DeviceId, cfg: Config, seeds: seq<LinkId>, raw: seq<FabricPath>, w: Walk)
    requires Enumerates(t, idx, src, dst, seeds, cfg, raw) && Target(t, src, dst, Depth(cfg), w) && cfg.maxPaths > 0
    ensures raw != []
  {
    FoundExact(t, idx, src, dst, seeds, Depth(cfg), w);
  }

  /** Trying the source's links in any valid order is a decision, as long as something is found. */
  lemma DecisionExists(t: Topology, idx: Index, src: DeviceId, dst: DeviceId, policy: Policy, m: BestMeasurement, epoch: U64,
                       seeds: seq<LinkId>, part: Option<PartitionId>, w: Walk) returns (d: RouteDecision)
    requires ValidIndex(t, idx) && ValidSeeds(t, src, seeds) && Searchable(t, src, dst, RouteConfig(policy))
    requires LastHolding(t, {src, dst}, part) && Target(t, src, dst, Depth(RouteConfig(policy)), w)
    ensures DecidedFrom(t, src, dst, policy, m, epoch, seeds, d) && IsDecision(t, src, dst, policy, m, epoch, d)
  {
    var cfg := RouteConfig(policy);
    var raw := EnumerationExists(t, idx, src, dst, cfg, seeds);
    EnumerationExact(t, src, dst, cfg, raw);
    EnumerationNonempty(t, idx, src, dst, cfg, seeds, raw, w);
    var ranked := RankingExists(t, m, policy.factors, Eligible(t, policy, raw));
    var reach: Reachability :| true;
    d := Outcomes(t, src, dst, policy, m, epoch, part, raw, reach, ranked);
    assert DecidedBy(t, src, dst, policy, m, epoch, seeds, part, raw, reach, ranked, d);
    DecidedIsDecision(t, src, dst, policy, m, epoch, seeds, d);
  }

  lemma DecisionIndex(t: Topology, src: DeviceId, dst: DeviceId, policy: Policy, m: BestMeasurement, epoch: U64, d: RouteDecision)
    returns (idx: Index, seeds: seq<LinkId>)
    requires IsDecision(t, src, dst, policy, m, epoch, d) && Searchable(t, src, dst, RouteConfig(policy))
    ensures ValidIndex(t, idx) && ValidSeeds(t, src, seeds)
  {
    var part, raw, reach, ranked := DecisionChoices(t, src, dst, policy, m, epoch, d);
    idx, seeds :| Enumerates(t, idx, src, dst, seeds, RouteConfig(policy), raw);
  }

  lemma LeadingSelected(t: Topology, src: DeviceId, dst: DeviceId, policy: Policy, m: BestMeasurement, epoch: U64,
                        d: RouteDecision, part: Option<PartitionId>, q: FabricPath) returns (e: RouteDecision)
    requires IsDecision(t, src, dst, policy, m, epoch, d) && LastHolding(t, {src, dst}, part)
    requires GatesOpen(t, src, dst, policy, part) && Searchable(t, src, dst, RouteConfig(policy))
    requires Integrity(t) && !Crowded(t, src, dst, policy) && Leading(t, src, dst, policy, m, q)
    ensures IsDecision(t, src, dst, policy, m, epoch, e) && e.selected == Some(q)
  {
    var idx, some := DecisionIndex(t, src, dst, policy, m, epoch, d);
    StartsAtSeed(t, src, dst, some, q.links);
    var seeds := Promoted(t, src, some, q.links[0]);
    LeadingIsChosen(t, src, dst, policy, m, seeds, q);
    e := DecisionExists(t, idx, src, dst, policy, m, epoch, seeds, part, q.links);
    SelectionExact(t, src, dst, policy, m, epoch, seeds, e, part, q);
  }

  lemma SelectedLeads(t: Topology, src: DeviceId, dst: DeviceId, policy: Policy, m: BestMeasurement, epoch: U64,
                      d: RouteDecision, part: Option<PartitionId>, q: FabricPath)
    requires IsDecision(t, src, dst, policy, m, epoch, d) && LastHolding(t, {src, dst}, part)
    requires GatesOpen(t, src, dst, policy, part) && Searchable(t, src, dst, RouteConfig(policy))
    requires !Crowded(t, src, dst, policy) && d.selected == Some(q)
    ensures Leading(t, src, dst, policy, m, q)
  {
    var seeds := DecidedFromSome(t, src, dst, policy, m, epoch, d);
    SelectionExact(t, src, dst, policy, m, epoch, seeds, d, part, q);
    ChosenLeads(t, src, dst, policy, m, seeds, q);
  }

  /**
   Below the path bound, with the gates open and a search possible: the paths that decisions on
   one snapshot may select are exactly the leading candidates.
   */
  lemma SelectableExactly(t: Topology, src: DeviceId, dst: DeviceId, policy: Policy, m: BestMeasurement, epoch: U64,
                          d: RouteDecision, part: Option<PartitionId>, q: FabricPath)
    requires IsDecision(t, src, dst, policy, m, epoch, d) && LastHolding(t, {src, dst}, part)
    requires GatesOpen(t, src, dst, policy, part) && Searchable(t, src, dst, RouteConfig(policy))
    requires Integrity(t) && !Crowded(t, src, dst, policy)
    ensures (exists e :: IsDecision(t, src, dst, policy, m, epoch, e) && e.selected == Some(q)) <==> Leading(t, src, dst, policy, m, q)
  {
    if e :| IsDecision(t, src, dst, policy, m, epoch, e) && e.selected == Some(q) {
      SelectedLeads(t, src, dst, policy, m, epoch, e, part, q);
    }
    if Leading(t, src, dst, policy, m, q) {
      var e := LeadingSelected(t, src, dst, policy, m, epoch, d, part, q);
    }
  }

  // ----- when the outcome is determined -----

  /** Two leading candidates of which only the first is degraded. */
  ghost predicate Rivals(t: Topology, src: DeviceId, dst: DeviceId, policy: Policy, m: BestMeasurement, p: FabricPath, q: FabricPath) {
    Leading(t, src, dst, policy, m, p) && Leading(t, src, dst, policy, m, q) && p.state == DEGRADED && q.state != DEGRADED
  }

  /** A route would be allowed, and of two leading candidates only one is degraded. */
  ghost predicate Ambiguous(t: Topology, src: DeviceId, dst: DeviceId, policy: Policy, m: BestMeasurement, part: Option<PartitionId>) {
    && GatesOpen(t, src, dst, policy, part) && Searchable(t, src, dst, RouteConfig(policy))
    && exists p, q :: Rivals(t, src, dst, policy, m, p, q)
  }

  lemma StateDecides(t: Topology, src: DeviceId, dst: DeviceId, policy: Policy, m: BestMeasurement, epoch: U64, d: RouteDecision)
    requires IsDecision(t, src, dst, policy, m, epoch, d) && d.selected.Some?
    ensures d.outcome == if d.selected.value.state == DEGRADED then ROUTE_ALLOWED_DEGRADED else ROUTE_ALLOWED
  {
    SelectedMeansAllowed(t, src, dst, policy, m, epoch, d);
    var part, raw, reach, ranked := DecisionChoices(t, src, dst, policy, m, epoch, d);
    AllowedShape(t, src, dst, policy, m, epoch, part, raw, reach, ranked, d);
  }

  lemma AllowedLeads(t: Topology, src: DeviceId, dst: DeviceId, policy: Policy, m: BestMeasurement, epoch: U64,
                     d: RouteDecision, part: Option<PartitionId>)
    requires IsDecision(t, src, dst, policy, m, epoch, d) && LastHolding(t, {src, dst}, part) && Allowed(d) && !Crowded(t, src, dst, policy)
    ensures GatesOpen(t, src, dst, policy, part) && Searchable(t, src, dst, RouteConfig(policy))
    ensures d.selected.Some? && Leading(t, src, dst, policy, m, d.selected.value)
  {
    RouteNecessary(t, src, dst, policy, m, epoch, d, part);
    SelectedMeansAllowed(t, src, dst, policy, m, epoch, d);
    SelectedLeads(t, src, dst, policy, m, epoch, d, part, d.selected.value);
  }

  lemma DifferenceIsAmbiguity(t: Topology, src: DeviceId, dst: DeviceId, policy: Policy, m: BestMeasurement, epoch: U64,
                              d: RouteDecision, e: RouteDecision, part: Option<PartitionId>)
    requires IsDecision(t, src, dst, policy, m, epoch, d) && IsDecision(t, src, dst, policy, m, epoch, e) && LastHolding(t, {src, dst}, part)
    requires !Crowded(t, src, dst, policy) && d.outcome != e.outcome
    ensures Ambiguous(t, src, dst, policy, m, part)
  {
    DecisionsAgree(t, src, dst, policy, m, epoch, d, e);
    AllowedLeads(t, src, dst, policy, m, epoch, d, part);
    AllowedLeads(t, src, dst, policy, m, epoch, e, part);
    StateDecides(t, src, dst, policy, m, epoch, d);
    StateDecides(t, src, dst, policy, m, epoch, e);
    var p, q := d.selected.value, e.selected.value;
    assert Rivals(t, src, dst, policy, m, p, q) || Rivals(t, src, dst, policy, m, q, p);
  }

  lemma LeadingOutcome(t: Topology, src: DeviceId, dst: DeviceId, policy: Policy, m: BestMeasurement, epoch: U64,
                       d: RouteDecision, part: Option<PartitionId>, q: FabricPath) returns (e: RouteDecision)
    requires IsDecision(t, src, dst, policy, m, epoch, d) && LastHolding(t, {src, dst}, part)
    requires GatesOpen(t, src, dst, policy, part) && Searchable(t, src, dst, RouteConfig(policy))
    requires Integrity(t) && !Crowded(t, src, dst, policy) && Leading(t, src, dst, policy, m, q)
    ensures IsDecision(t, src, dst, policy, m, epoch, e)
    ensures e.outcome == if q.state == DEGRADED then ROUTE_ALLOWED_DEGRADED else ROUTE_ALLOWED
  {
    e := LeadingSelected(t, src, dst, policy, m, epoch, d, part, q);
    StateDecides(t, src, dst, policy, m, epoch, e);
  }

  lemma RivalDiffers(t: Topology, src: DeviceId, dst: DeviceId, policy: Policy, m: BestMeasurement, epoch: U64,
                     d: RouteDecision, part: Option<PartitionId>, p: FabricPath, q: FabricPath) returns (e: RouteDecision)
    requires IsDecision(t, src, dst, policy, m, epoch, d) && LastHolding(t, {src, dst}, part)
    requires GatesOpen(t, src, dst, policy, part) && Searchable(t, src, dst, RouteConfig(policy))
    requires Integrity(t) && !Crowded(t, src, dst, policy) && Rivals(t, src, dst, policy, m, p, q)
    ensures IsDecision(t, src, dst, policy, m, epoch, e) && Allowed(e) && e.outcome != d.outcome
  {
    if d.outcome == ROUTE_ALLOWED {
      e := LeadingOutcome(t, src, dst, policy, m, epoch, d, part, p);
      return;
    }
    e := LeadingOutcome(t, src, dst, policy, m, epoch, d, part, q);
  }

  lemma SomeRivals(t: Topology, src: DeviceId, dst: DeviceId, policy: Policy, m: BestMeasurement, part: Option<PartitionId>)
    returns (p: FabricPath, q: FabricPath)
    requires Ambiguous(t, src, dst, policy, m, part)
    ensures Rivals(t, src, dst, policy, m, p, q)
  {
    p, q :| Rivals(t, src, dst, policy, m, p, q);
  }

  /** On an ambiguous fabric no decision is the only one. */
  lemma AmbiguityDiffers(t: Topology, src: DeviceId, dst: DeviceId, policy: Policy, m: BestMeasurement, epoch: U64,
                         d: RouteDecision, part: Option<PartitionId>) returns (e: RouteDecision)
    requires IsDecision(t, src, dst, policy, m, epoch, d) && LastHolding(t, {src, dst}, part)
    requires Integrity(t) && !Crowded(t, src, dst, policy) && Ambiguous(t, src, dst, policy, m, part)
    ensures IsDecision(t, src, dst, policy, m, epoch, e) && Allowed(e) && e.outcome != d.outcome
  {
    var p, q := SomeRivals(t, src, dst, policy, m, part);
    e := RivalDiffers(t, src, dst, policy, m, epoch, d, part, p, q);
  }

  /**
   Below the path bound, all decisions on one snapshot, policy and measurement have one outcome
   if and only if the fabric is not ambiguous.
   */
  lemma OutcomeDetermined(t: Topology, src: DeviceId, dst: DeviceId, policy: Policy, m: BestMeasurement, epoch: U64,
                          d: RouteDecision, part: Option<PartitionId>)
    requires IsDecision(t, src, dst, policy, m, epoch, d) && LastHolding(t, {src, dst}, part)
    requires Integrity(t) && !Crowded(t, src, dst, policy)
    ensures (forall e :: IsDecision(t, src, dst, policy, m, epoch, e) ==> e.outcome == d.outcome) <==> !Ambiguous(t, src, dst, policy, m, part)
  {
    if Ambiguous(t, src, dst, policy, m, part) {
      var e := AmbiguityDiffers(t, src, dst, policy, m, epoch, d, part);
    } else {
      forall e | IsDecision(t, src, dst, policy, m, epoch, e) ensures e.outcome == d.outcome {
        if e.outcome != d.outcome { DifferenceIsAmbiguity(t, src, dst, policy, m, epoch, d, e, part); }
      }
    }
  }
}
