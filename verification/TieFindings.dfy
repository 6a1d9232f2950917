/**
 A concrete fabric on which decisions on one snapshot differ: two links attach the source to one
 port, one of them degraded, and the sort of the device edges leaves their order open.
 */
module TieFindings {
  import opened Wire
  import opened Fabric
  import opened Sets
  import opened Walks
  import opened Levels
  import opened Shortlex
  import opened Registry
  import opened Findings
  import opened Search
  import opened Reach
  import opened Route
  import opened Decision
  import opened RouteLaws
  import opened RouteExact
  import opened RouteOrder
  import opened RouteAgreement
  import opened Selection
  import opened Ambiguity
  import opened RouteFindings
  import SourceTies

  /** Port 0 carries links 11 and 12 to device 1, of which 12 is degraded; port 1 carries 13 and 14 to device 2. */
  const PARALLEL := Topology(
    2, 1, 0, 0, SYNTHETIC, EMPTY_TOPOLOGY.labelText, false,
    map[1 := UpDevice(1), 2 := UpDevice(2)],
    map[3 := SomeSwitch(3)],
    map[PortId(3, 0) := UpPort(PortId(3, 0)), PortId(3, 1) := UpPort(PortId(3, 1))],
    map[11 := UpLink(11, 3, 1, 0), 12 := UpLink(12, 3, 1, 0).(degraded := true), 13 := UpLink(13, 3, 2, 1), 14 := UpLink(14, 3, 2, 1)],
    map[])

  lemma ParallelLinks()
    ensures forall l :: l in PARALLEL.links ==> LinkSound(PARALLEL, PARALLEL.links[l])
  {}

  lemma ParallelStates()
    ensures PortsFresh(PARALLEL) && SwitchesSettled(PARALLEL) && forall p :: p in PARALLEL.ports ==> PortSound(PARALLEL, p)
  {}

  lemma ParallelIntegrity()
    ensures Integrity(PARALLEL)
  {
    ParallelLinks();
    ParallelStates();
  }

  lemma ParallelKeys()
    ensures KeysMatch(PARALLEL)
  {}

  lemma ParallelLimits()
    ensures WithinLimits(PARALLEL)
  {}

  lemma ParallelFirst()
    ensures FirstSnapshot(PARALLEL)
  {
    assert 1 in PARALLEL.devices && PARALLEL.devices[1].origin.provenance == SYNTHETIC;
  }

  lemma ParallelReached()
    ensures Reached(PARALLEL)
  {
    ParallelIntegrity();
    ParallelKeys();
    ParallelLimits();
    ParallelFirst();
    var e := Loaded(PARALLEL);
  }

  // ----- four walks -----

  const ENTRIES: set<LinkId> := {11, 12}
  const EXITS: set<LinkId> := {13, 14}

  predicate Way(w: Walk) {
    |w| == 2 && w[0] in ENTRIES && w[1] in EXITS
  }

  lemma WayIsTarget(n: nat, w: Walk)
    requires Way(w) && n > 0
    ensures Target(PARALLEL, 1, 2, n, w)
  {
    assert Body(w) == [w[0]] && Last(w) == w[1];
    assert StepOk(PARALLEL, 1, Body(w), 0);
    assert Exits(PARALLEL, 2, Body(w), Last(w));
  }

  lemma TargetIsWay(n: nat, w: Walk)
    requires Target(PARALLEL, 1, 2, n, w)
    ensures Way(w)
  {
    assert StepOk(PARALLEL, 1, Body(w), 0);
    assert |w| > 2 ==> StepOk(PARALLEL, 1, Body(w), 1);
  }

  predicate WayPath(q: FabricPath) {
    && Way(q.links) && q.source == 1 && q.destination == 2
    && q.hops == [PathHop(3, PortId(3, 0), PortId(3, 1), true, false)]
    && (q.state == DEGRADED <==> q.links[0] == 12)
  }

  lemma WayState(idx: Index, w: Walk)
    requires Way(w)
    ensures PathOf(PARALLEL, idx, 1, 2, w).state == DEGRADED <==> w[0] == 12
  {
    PathLinks(PARALLEL, idx, 1, 2, w);
    assert !PARALLEL.links[13].degraded && !PARALLEL.links[14].degraded;
  }

  lemma PathIsWay(idx: Index, w: Walk)
    requires Way(w)
    ensures WayPath(Capture(PARALLEL, PathOf(PARALLEL, idx, 1, 2, w)))
  {
    PathLinks(PARALLEL, idx, 1, 2, w);
    PathHops(PARALLEL, idx, 1, 2, w, 0);
    WayState(idx, w);
  }

  lemma CandidateIsWay(policy: Policy, q: FabricPath)
    requires RouteCandidate(PARALLEL, 1, 2, policy, q)
    ensures WayPath(q)
  {
    TargetIsWay(Depth(RouteConfig(policy)), q.links);
    var idx :| ValidIndex(PARALLEL, idx) && q == Capture(PARALLEL, PathOf(PARALLEL, idx, 1, 2, q.links));
    PathIsWay(idx, q.links);
  }

  /** Under a policy that tolerates degradation each of the four walks is a candidate. */
  lemma WayCandidate(idx: Index, policy: Policy, w: Walk) returns (q: FabricPath)
    requires ValidIndex(PARALLEL, idx) && Way(w) && Tolerant(policy) && Depth(RouteConfig(policy)) > 0
    ensures RouteCandidate(PARALLEL, 1, 2, policy, q) && q.links == w
  {
    ParallelIntegrity();
    ParallelStates();
    WayIsTarget(Depth(RouteConfig(policy)), w);
    WalkThroughCurrent(PARALLEL, 1, 2, w);
    AdmissibleWalk(PARALLEL, idx, 1, 2, policy, w);
    CandidateOf(PARALLEL, idx, 1, 2, policy, w);
    q := Capture(PARALLEL, PathOf(PARALLEL, idx, 1, 2, w));
  }

  // ----- the outcome depends on the order -----

  /** Five paths are listed, so none is cut off. */
  const FOUR_HOPS := Policy(false, false, 4, 0.0, [FEWER_SWITCHES])

  lemma FourHopBounds()
    ensures RouteConfig(FOUR_HOPS) == Config(5, 4, true) && Depth(RouteConfig(FOUR_HOPS)) == 4 && Tolerant(FOUR_HOPS)
    ensures Searchable(PARALLEL, 1, 2, RouteConfig(FOUR_HOPS)) && GatesOpen(PARALLEL, 1, 2, FOUR_HOPS, None)
    ensures LastHolding(PARALLEL, {1, 2}, None)
  {}

  lemma ParallelUncrowded()
    ensures !Crowded(PARALLEL, 1, 2, FOUR_HOPS)
  {
    FourHopBounds();
    var ways := {[11, 13], [11, 14], [12, 13], [12, 14]};
    forall ws: set<Walk> | forall x :: x in ws ==> Target(PARALLEL, 1, 2, 4, x) ensures |ws| < 5 {
      forall x | x in ws ensures x in ways {
        TargetIsWay(4, x);
        assert x == [x[0], x[1]];
      }
      SubsetSize(ws, ways);
    }
  }

  lemma WaysTied(m: BestMeasurement, p: FabricPath, q: FabricPath)
    requires WayPath(p) && WayPath(q)
    ensures Tied(PARALLEL, m, FOUR_HOPS.factors, p, q) && RankLeq(PARALLEL, m, FOUR_HOPS.factors, p, q)
  {
    assert FOUR_HOPS.factors[1..] == [];
    BetterTotal(PARALLEL, m, FOUR_HOPS.factors, p, q);
  }

  lemma FirstExitAhead(l: LinkId)
    ensures Ahead(PARALLEL, [l, 13], [l, 14])
  {
    var x, y := [l, 13], [l, 14];
    assert PartAt(x, y, 1) && LinkBefore(PARALLEL, x[1], y[1]);
  }

  lemma FirstExitOf(m: BestMeasurement, cand: FabricPath -> bool, q: FabricPath)
    requires cand(q) && WayPath(q) && q.links[1] == 13
    requires forall p :: cand(p) ==> WayPath(p) && (p.links == q.links ==> p == q)
    ensures LeadingOf(PARALLEL, m, FOUR_HOPS.factors, cand, q)
  {
    forall p | cand(p) ensures RankLeq(PARALLEL, m, FOUR_HOPS.factors, q, p) { WaysTied(m, q, p); }
    FirstExitAhead(q.links[0]);
    forall p | cand(p) && p != q && SameStart(p, q) ensures Ahead(PARALLEL, q.links, p.links) {
      assert q.links == [q.links[0], 13] && p.links == [q.links[0], p.links[1]];
    }
  }

  lemma FirstExitLeads(m: BestMeasurement, q: FabricPath)
    requires RouteCandidate(PARALLEL, 1, 2, FOUR_HOPS, q) && q.links[1] == 13
    ensures Leading(PARALLEL, 1, 2, FOUR_HOPS, m, q)
  {
    CandidateIsWay(FOUR_HOPS, q);
    var cand := Candidates(PARALLEL, 1, 2, FOUR_HOPS);
    forall p | cand(p) ensures WayPath(p) && (p.links == q.links ==> p == q) {
      CandidateIsWay(FOUR_HOPS, p);
      if p.links == q.links { CandidateUnique(PARALLEL, 1, 2, FOUR_HOPS, p, q); }
    }
    FirstExitOf(m, cand, q);
  }

  lemma EntryLeads(idx: Index, m: BestMeasurement, l: LinkId) returns (q: FabricPath)
    requires ValidIndex(PARALLEL, idx) && l in ENTRIES
    ensures Leading(PARALLEL, 1, 2, FOUR_HOPS, m, q) && (q.state == DEGRADED <==> l == 12)
  {
    FourHopBounds();
    q := WayCandidate(idx, FOUR_HOPS, [l, 13]);
    CandidateIsWay(FOUR_HOPS, q);
    FirstExitLeads(m, q);
  }

  lemma ParallelAmbiguous(idx: Index, m: BestMeasurement)
    requires ValidIndex(PARALLEL, idx)
    ensures Ambiguous(PARALLEL, 1, 2, FOUR_HOPS, m, None)
  {
    FourHopBounds();
    var p := EntryLeads(idx, m, 12);
    var q := EntryLeads(idx, m, 11);
    assert Rivals(PARALLEL, 1, 2, FOUR_HOPS, m, p, q);
  }

  /**
   A registry that received this fabric in one bulk edit: no path is cut off, and each decision has
   a counterpart, reached by the other order of links 11 and 12, with another, allowed, outcome.
   */
  lemma TieChangesOutcome(m: BestMeasurement, epoch: U64, d: RouteDecision) returns (e: RouteDecision)
    requires IsDecision(PARALLEL, 1, 2, FOUR_HOPS, m, epoch, d)
    ensures Reached(PARALLEL) && !Crowded(PARALLEL, 1, 2, FOUR_HOPS)
    ensures IsDecision(PARALLEL, 1, 2, FOUR_HOPS, m, epoch, e) && Allowed(e) && d.outcome != e.outcome
  {
    ParallelReached();
    ParallelIntegrity();
    ParallelUncrowded();
    FourHopBounds();
    var idx, _ := DecisionIndex(PARALLEL, 1, 2, FOUR_HOPS, m, epoch, d);
    ParallelAmbiguous(idx, m);
    e := AmbiguityDiffers(PARALLEL, 1, 2, FOUR_HOPS, m, epoch, d, None);
  }

  // ----- so may whether a route is allowed at all -----

  /** Two paths are listed, and degraded ones are refused. */
  const CLEAN_HOP := Policy(true, false, 1, 0.0, [])

  lemma CleanHopBounds()
    ensures RouteConfig(CLEAN_HOP) == Config(2, 1, true) && Depth(RouteConfig(CLEAN_HOP)) == 1
    ensures Searchable(PARALLEL, 1, 2, RouteConfig(CLEAN_HOP)) && GatesOpen(PARALLEL, 1, 2, CLEAN_HOP, None)
    ensures LastHolding(PARALLEL, {1, 2}, None)
  {}

  lemma SeedsAre(seeds: seq<LinkId>)
    requires ValidSeeds(PARALLEL, 1, seeds)
    ensures forall l :: l in seeds <==> l in ENTRIES
  {
    forall l ensures l in seeds <==> l in ENTRIES { assert l in seeds <==> Usable(PARALLEL, l) && ToDevice(PARALLEL, l, 1); }
  }

  lemma EntryFirst(seeds: seq<LinkId>, l: LinkId, v: Walk, w: Walk)
    requires ValidSeeds(PARALLEL, 1, seeds) && Leads(PARALLEL, seeds, l) && Way(v) && Way(w) && v[0] == l && w[0] != l
    ensures Before(PARALLEL, seeds, v, w) && !Before(PARALLEL, seeds, w, v)
  {
    SeedsAre(seeds);
    assert EarlierAt(PARALLEL, seeds, v, w, 0);
    BeforeOnce(PARALLEL, seeds, v, w);
  }

  /** With link 11 tried first, the first walk of all starts with it. */
  lemma CleanFirst(seeds: seq<LinkId>, x: Walk)
    requires ValidSeeds(PARALLEL, 1, seeds) && Leads(PARALLEL, seeds, 11) && Way(x)
    ensures !Before(PARALLEL, seeds, x, [11, 13])
  {
    if x[0] != 11 { EntryFirst(seeds, 11, [11, 13], x); return; }
    if x[1] == 14 {
      assert x == [11, 14];
      FirstExitAhead(11);
      BeforeSameStart(PARALLEL, seeds, [11, 13], x);
      BeforeOnce(PARALLEL, seeds, [11, 13], x);
      return;
    }
    assert x == [11, 13];
    if Before(PARALLEL, seeds, x, x) { BeforeOnce(PARALLEL, seeds, x, x); }
  }

  lemma CleanNotOvertaken(seeds: seq<LinkId>)
    requires ValidSeeds(PARALLEL, 1, seeds) && Leads(PARALLEL, seeds, 11)
    ensures !Overtaken(PARALLEL, 1, 2, RouteConfig(CLEAN_HOP), seeds, [11, 13])
  {
    CleanHopBounds();
    forall ws | AllBefore(PARALLEL, 1, 2, RouteConfig(CLEAN_HOP), seeds, [11, 13], ws) ensures ws == {} {
      forall x | x in ws ensures false {
        TargetIsWay(1, x);
        CleanFirst(seeds, x);
      }
    }
  }

  /** With link 12 tried first, its two walks fill the list. */
  lemma CleanOvertaken(seeds: seq<LinkId>, w: Walk)
    requires ValidSeeds(PARALLEL, 1, seeds) && Leads(PARALLEL, seeds, 12) && Way(w) && w[0] == 11
    ensures Overtaken(PARALLEL, 1, 2, RouteConfig(CLEAN_HOP), seeds, w)
  {
    CleanHopBounds();
    var ws: set<Walk> := {[12, 13], [12, 14]};
    forall x | x in ws ensures Target(PARALLEL, 1, 2, 1, x) && Before(PARALLEL, seeds, x, w) {
      WayIsTarget(1, x);
      EntryFirst(seeds, 12, x, w);
    }
    assert [12, 13][1] != [12, 14][1];
    assert |ws| == 2 && AllBefore(PARALLEL, 1, 2, RouteConfig(CLEAN_HOP), seeds, w, ws);
  }

  lemma CleanRefusesDegraded(q: FabricPath)
    requires RouteCandidate(PARALLEL, 1, 2, CLEAN_HOP, q)
    ensures Way(q.links) && q.links[0] == 11
  {
    CandidateIsWay(CLEAN_HOP, q);
    SourceTies.DegradedTolerated(PARALLEL, 1, 2, CLEAN_HOP, q);
  }

  lemma CleanCandidate(idx: Index) returns (q: FabricPath)
    requires ValidIndex(PARALLEL, idx)
    ensures RouteCandidate(PARALLEL, 1, 2, CLEAN_HOP, q) && q.links == [11, 13]
  {
    CleanHopBounds();
    var loose := CLEAN_HOP.(requireNonDegradedPath := false);
    var w := [11, 13];
    q := WayCandidate(idx, loose, w);
    CandidateIsEligible(PARALLEL, idx, 1, 2, loose, q);
    WayState(idx, w);
    CandidateOf(PARALLEL, idx, 1, 2, CLEAN_HOP, w);
  }

  lemma CleanAllowed(idx: Index, m: BestMeasurement, epoch: U64, seeds: seq<LinkId>, d: RouteDecision)
    requires ValidIndex(PARALLEL, idx) && ValidSeeds(PARALLEL, 1, seeds) && Leads(PARALLEL, seeds, 11)
    requires DecidedFrom(PARALLEL, 1, 2, CLEAN_HOP, m, epoch, seeds, d)
    ensures Allowed(d)
  {
    CleanHopBounds();
    var q := CleanCandidate(idx);
    CleanNotOvertaken(seeds);
    assert InReach(PARALLEL, 1, 2, CLEAN_HOP, seeds, q);
    AllowedFrom(PARALLEL, 1, 2, CLEAN_HOP, m, epoch, seeds, d, None);
  }

  lemma CleanBlocked(m: BestMeasurement, epoch: U64, seeds: seq<LinkId>, d: RouteDecision)
    requires ValidSeeds(PARALLEL, 1, seeds) && Leads(PARALLEL, seeds, 12)
    requires DecidedFrom(PARALLEL, 1, 2, CLEAN_HOP, m, epoch, seeds, d)
    ensures !Allowed(d)
  {
    CleanHopBounds();
    forall q | RouteCandidate(PARALLEL, 1, 2, CLEAN_HOP, q) ensures !InReach(PARALLEL, 1, 2, CLEAN_HOP, seeds, q) {
      CleanRefusesDegraded(q);
      CleanOvertaken(seeds, q.links);
    }
    AllowedFrom(PARALLEL, 1, 2, CLEAN_HOP, m, epoch, seeds, d, None);
  }

  lemma EntryTriedFirst(m: BestMeasurement, epoch: U64, d: RouteDecision, l: LinkId) returns (idx: Index, seeds: seq<LinkId>, e: RouteDecision)
    requires IsDecision(PARALLEL, 1, 2, CLEAN_HOP, m, epoch, d) && l in ENTRIES
    ensures ValidIndex(PARALLEL, idx) && ValidSeeds(PARALLEL, 1, seeds) && Leads(PARALLEL, seeds, l)
    ensures DecidedFrom(PARALLEL, 1, 2, CLEAN_HOP, m, epoch, seeds, e) && IsDecision(PARALLEL, 1, 2, CLEAN_HOP, m, epoch, e)
  {
    CleanHopBounds();
    var some;
    idx, some := DecisionIndex(PARALLEL, 1, 2, CLEAN_HOP, m, epoch, d);
    SeedsAre(some);
    seeds := Promoted(PARALLEL, 1, some, l);
    WayIsTarget(1, [11, 13]);
    e := DecisionExists(PARALLEL, idx, 1, 2, CLEAN_HOP, m, epoch, seeds, None, [11, 13]);
  }

  /**
   On the same fabric, under a policy that lists two paths and refuses degraded ones: each decision
   has a counterpart, reached by the other order, that allows a route exactly when it does not.
   */
  lemma TieBlocksRoute(m: BestMeasurement, epoch: U64, d: RouteDecision) returns (e: RouteDecision)
    requires IsDecision(PARALLEL, 1, 2, CLEAN_HOP, m, epoch, d)
    ensures Reached(PARALLEL) && IsDecision(PARALLEL, 1, 2, CLEAN_HOP, m, epoch, e) && (Allowed(e) <==> !Allowed(d))
  {
    ParallelReached();
    var idx, seeds;
    if Allowed(d) {
      idx, seeds, e := EntryTriedFirst(m, epoch, d, 12);
      CleanBlocked(m, epoch, seeds, e);
      return;
    }
    idx, seeds, e := EntryTriedFirst(m, epoch, d, 11);
    CleanAllowed(idx, m, epoch, seeds, e);
  }
}
