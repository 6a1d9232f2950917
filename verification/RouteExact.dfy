/**
 Exactly when a route is allowed. Only maxAllowedHops+1 paths are enumerated, and
 they are filtered afterwards, so an eligible path may never be looked at.
 */
module RouteExact {
  import opened Wire
  import opened Fabric
  import opened Sets
  import opened Walks
  import opened Levels
  import opened Sorting
  import opened Search
  import opened Reach
  import opened Route
  import opened Decision
  import opened RouteLaws

  // ----- walks that would do -----

  /** A walk within the policy's depth whose path passes every filter, listed or not. */
  ghost predicate Admissible(t: Topology, src: DeviceId, dst: DeviceId, policy: Policy, w: Walk) {
    && Target(t, src, dst, Depth(RouteConfig(policy)), w) && Linked(t, w)
    && exists idx :: ValidIndex(t, idx) && PathEligible(t, policy, PathOf(t, idx, src, dst, w))
  }

  lemma ListedAdmissible(t: Topology, src: DeviceId, dst: DeviceId, policy: Policy, raw: seq<FabricPath>, p: FabricPath)
    requires Searchable(t, src, dst, RouteConfig(policy)) && Searched(t, src, dst, RouteConfig(policy), raw) && p in raw
    ensures PathEligible(t, policy, p) <==> Admissible(t, src, dst, policy, p.links)
  {
    var idx, w := EnumeratedPath(t, src, dst, RouteConfig(policy), raw, p);
    if Admissible(t, src, dst, policy, w) {
      var idx' :| ValidIndex(t, idx') && PathEligible(t, policy, PathOf(t, idx', src, dst, w));
      SamePath(t, src, dst, RouteConfig(policy), raw, idx', w, p);
    }
  }

  lemma RankedNonempty(t: Topology, policy: Policy, m: BestMeasurement, raw: seq<FabricPath>, ranked: seq<FabricPath>)
    requires IsRanking(t, m, policy.factors, Eligible(t, policy, raw), ranked)
    ensures ranked != [] <==> exists p :: p in raw && PathEligible(t, policy, p)
  {
    if ranked != [] {
      var best := FrontWasEligible(t, policy, m, raw, ranked);
    }
    if p :| p in raw && PathEligible(t, policy, p) {
      EligibleExact(t, policy, raw, Capture(t, p));
      SameElements(Eligible(t, policy, raw), ranked);
    }
  }

  /** The gates a request has to pass before any path is looked for. */
  predicate GatesOpen(t: Topology, src: DeviceId, dst: DeviceId, policy: Policy, part: Option<PartitionId>) {
    EndpointGate(t, src, dst).None? && PartitionGate(t, policy, part).None?
  }

  /** Whatever was chosen along the way, allowed means that the gates are open and a path was found and ranked. */
  lemma AllowedIff(t: Topology, src: DeviceId, dst: DeviceId, policy: Policy, m: BestMeasurement, epoch: U64,
                   part: Option<PartitionId>, raw: seq<FabricPath>, reach: Reachability, ranked: seq<FabricPath>)
    requires part.Some? ==> part.value in t.partitions
    ensures Allowed(Outcomes(t, src, dst, policy, m, epoch, part, raw, reach, ranked)) <==>
      GatesOpen(t, src, dst, policy, part) && raw != [] && ranked != []
  {
    NoPathNeverAllows(reach);
  }

  ghost predicate ListsAdmissible(t: Topology, src: DeviceId, dst: DeviceId, policy: Policy, raw: seq<FabricPath>) {
    exists i :: 0 <= i < |raw| && Admissible(t, src, dst, policy, raw[i].links)
  }

  lemma RankedIff(t: Topology, src: DeviceId, dst: DeviceId, policy: Policy, m: BestMeasurement, raw: seq<FabricPath>, ranked: seq<FabricPath>)
    requires Searched(t, src, dst, RouteConfig(policy), raw)
    requires IsRanking(t, m, policy.factors, Eligible(t, policy, raw), ranked)
    ensures ranked != [] <==> ListsAdmissible(t, src, dst, policy, raw)
  {
    RankedNonempty(t, policy, m, raw, ranked);
    if Searchable(t, src, dst, RouteConfig(policy)) {
      forall i | 0 <= i < |raw| ensures PathEligible(t, policy, raw[i]) <==> Admissible(t, src, dst, policy, raw[i].links) {
        ListedAdmissible(t, src, dst, policy, raw, raw[i]);
      }
    }
  }

  /** What a decision rests on: some answer of the search, and whether it lists an admissible walk. */
  lemma AllowedByList(t: Topology, src: DeviceId, dst: DeviceId, policy: Policy, m: BestMeasurement, epoch: U64,
                      d: RouteDecision, part: Option<PartitionId>) returns (raw: seq<FabricPath>)
    requires IsDecision(t, src, dst, policy, m, epoch, d) && LastHolding(t, {src, dst}, part)
    ensures IsEnumeration(t, src, dst, RouteConfig(policy), raw) && Searched(t, src, dst, RouteConfig(policy), raw)
    ensures Allowed(d) <==> GatesOpen(t, src, dst, policy, part) && ListsAdmissible(t, src, dst, policy, raw)
  {
    var q, reach, ranked;
    q, raw, reach, ranked := DecisionChoices(t, src, dst, policy, m, epoch, d);
    LastUnique(t, {src, dst}, part, q);
    AllowedIff(t, src, dst, policy, m, epoch, q, raw, reach, ranked);
    RankedIff(t, src, dst, policy, m, raw, ranked);
  }

  // ----- crowds -----

  /** A walk within the policy's bounds and strictly shorter than w. */
  predicate Precedes(t: Topology, src: DeviceId, dst: DeviceId, policy: Policy, w: Walk, x: Walk) {
    Target(t, src, dst, Depth(RouteConfig(policy)), x) && |x| < |w|
  }

  /** A walk within the policy's bounds, no longer than w, that would not pass the filters. */
  ghost predicate Blocks(t: Topology, src: DeviceId, dst: DeviceId, policy: Policy, w: Walk, x: Walk) {
    Target(t, src, dst, Depth(RouteConfig(policy)), x) && |x| <= |w| && !Admissible(t, src, dst, policy, x)
  }

  predicate AllPrecede(t: Topology, src: DeviceId, dst: DeviceId, policy: Policy, w: Walk, ws: set<Walk>) {
    forall x :: x in ws ==> Precedes(t, src, dst, policy, w, x)
  }

  ghost predicate ShorterCrowd(t: Topology, src: DeviceId, dst: DeviceId, policy: Policy, w: Walk, n: nat) {
    exists ws :: |ws| >= n && AllPrecede(t, src, dst, policy, w, ws)
  }

  ghost predicate BlockingCrowd(t: Topology, src: DeviceId, dst: DeviceId, policy: Policy, w: Walk, n: nat) {
    exists ws: set<Walk> :: |ws| >= n && forall x :: x in ws ==> Blocks(t, src, dst, policy, w, x)
  }

  /** As many walks within the policy's bounds as the search will list. */
  ghost predicate Crowded(t: Topology, src: DeviceId, dst: DeviceId, policy: Policy) {
    exists ws: set<Walk> ::
      |ws| >= RouteConfig(policy).maxPaths && forall x :: x in ws ==> Target(t, src, dst, Depth(RouteConfig(policy)), x)
  }

  function LinkLists(ps: seq<FabricPath>): (ws: set<Walk>)
    ensures forall w :: w in ws <==> exists i :: 0 <= i < |ps| && ps[i].links == w
  {
    set i | 0 <= i < |ps| :: ps[i].links
  }

  lemma {:induction false} LinkListsSize(ps: seq<FabricPath>)
    requires forall i, j :: 0 <= i < j < |ps| ==> ps[i].links != ps[j].links
    ensures |LinkLists(ps)| == |ps|
  {
    if ps != [] {
      var rest, last := ps[..|ps| - 1], ps[|ps| - 1].links;
      LinkListsSize(rest);
      assert last !in LinkLists(rest);
      assert LinkLists(ps) == LinkLists(rest) + {last};
    }
  }

  /** What a search lists, as a set: as many walks as paths, all within the bounds. */
  lemma ListedSet(t: Topology, src: DeviceId, dst: DeviceId, cfg: Config, raw: seq<FabricPath>)
    requires Searchable(t, src, dst, cfg) && Searched(t, src, dst, cfg, raw)
    ensures |LinkLists(raw)| == |raw| <= cfg.maxPaths
    ensures forall x :: x in LinkLists(raw) ==> Target(t, src, dst, Depth(cfg), x)
  {
    LinkListsSize(raw);
    forall x | x in LinkLists(raw) ensures Target(t, src, dst, Depth(cfg), x) {
      var i :| 0 <= i < |raw| && raw[i].links == x;
      assert PathFor(t, src, dst, Depth(cfg), raw[i]);
    }
  }

  lemma BlockedBy(t: Topology, src: DeviceId, dst: DeviceId, policy: Policy, raw: seq<FabricPath>, w: Walk)
    requires Searchable(t, src, dst, RouteConfig(policy)) && Searched(t, src, dst, RouteConfig(policy), raw)
    requires !ListsAdmissible(t, src, dst, policy, raw) && CutOff(RouteConfig(policy), raw, w)
    ensures BlockingCrowd(t, src, dst, policy, w, RouteConfig(policy).maxPaths)
  {
    var cfg := RouteConfig(policy);
    ListedSet(t, src, dst, cfg, raw);
    forall x | x in LinkLists(raw) ensures Blocks(t, src, dst, policy, w, x) {
      var i :| 0 <= i < |raw| && raw[i].links == x;
      assert Target(t, src, dst, Depth(cfg), x) && !Admissible(t, src, dst, policy, raw[i].links);
    }
  }

  lemma UncrowdedListed(t: Topology, src: DeviceId, dst: DeviceId, policy: Policy, raw: seq<FabricPath>, w: Walk)
    requires Searchable(t, src, dst, RouteConfig(policy)) && Searched(t, src, dst, RouteConfig(policy), raw)
    requires Admissible(t, src, dst, policy, w) && !BlockingCrowd(t, src, dst, policy, w, RouteConfig(policy).maxPaths)
    ensures ListsAdmissible(t, src, dst, policy, raw)
  {
    if !ListsAdmissible(t, src, dst, policy, raw) {
      assert !Listed(raw, w);
      assert CutOff(RouteConfig(policy), raw, w);
      BlockedBy(t, src, dst, policy, raw, w);
      assert false;
    }
  }

  lemma PrecedingListed(t: Topology, src: DeviceId, dst: DeviceId, policy: Policy, raw: seq<FabricPath>, w: Walk, x: Walk)
    requires Searchable(t, src, dst, RouteConfig(policy)) && Searched(t, src, dst, RouteConfig(policy), raw)
    requires Listed(raw, w) && Precedes(t, src, dst, policy, w, x)
    ensures x in LinkLists(raw)
  {
    assert Listed(raw, x) || CutOff(RouteConfig(policy), raw, x);
  }

  lemma CrowdFits(ws: set<Walk>, w: Walk, listed: set<Walk>)
    requires w !in ws && w in listed && ws <= listed
    ensures |ws| < |listed|
  {
    SubsetSize(ws, listed - {w});
  }

  lemma ListedUncrowded(t: Topology, src: DeviceId, dst: DeviceId, policy: Policy, raw: seq<FabricPath>, w: Walk)
    requires Searchable(t, src, dst, RouteConfig(policy)) && Searched(t, src, dst, RouteConfig(policy), raw) && Listed(raw, w)
    ensures !ShorterCrowd(t, src, dst, policy, w, RouteConfig(policy).maxPaths)
  {
    ListedSet(t, src, dst, RouteConfig(policy), raw);
    var listed := LinkLists(raw);
    forall ws | AllPrecede(t, src, dst, policy, w, ws) ensures |ws| < |listed| {
      forall x | x in ws ensures x in listed { PrecedingListed(t, src, dst, policy, raw, w, x); }
      assert !Precedes(t, src, dst, policy, w, w);
      CrowdFits(ws, w, listed);
    }
  }

  lemma AdmissibleUncrowded(t: Topology, src: DeviceId, dst: DeviceId, policy: Policy, raw: seq<FabricPath>)
    requires Searched(t, src, dst, RouteConfig(policy), raw) && ListsAdmissible(t, src, dst, policy, raw)
    ensures Searchable(t, src, dst, RouteConfig(policy))
    ensures exists w :: Admissible(t, src, dst, policy, w) && !ShorterCrowd(t, src, dst, policy, w, RouteConfig(policy).maxPaths)
  {
    var i :| 0 <= i < |raw| && Admissible(t, src, dst, policy, raw[i].links);
    ListedUncrowded(t, src, dst, policy, raw, raw[i].links);
  }

  // ----- when a route is allowed -----

  /**
   Necessary, on every fabric: the gates are open, a search is possible, and some admissible
   walk has fewer strictly shorter rivals than the search lists.
   */
  lemma RouteNecessary(t: Topology, src: DeviceId, dst: DeviceId, policy: Policy, m: BestMeasurement, epoch: U64,
                       d: RouteDecision, part: Option<PartitionId>)
    requires IsDecision(t, src, dst, policy, m, epoch, d) && LastHolding(t, {src, dst}, part) && Allowed(d)
    ensures GatesOpen(t, src, dst, policy, part) && Searchable(t, src, dst, RouteConfig(policy))
    ensures exists w :: Admissible(t, src, dst, policy, w) && !ShorterCrowd(t, src, dst, policy, w, RouteConfig(policy).maxPaths)
  {
    var raw := AllowedByList(t, src, dst, policy, m, epoch, d, part);
    AdmissibleUncrowded(t, src, dst, policy, raw);
  }

  /**
   Sufficient, on every fabric: the gates are open, a search is possible, and some admissible
   walk has fewer inadmissible rivals no longer than itself than the search lists.
   */
  lemma RouteSufficient(t: Topology, src: DeviceId, dst: DeviceId, policy: Policy, m: BestMeasurement, epoch: U64,
                        d: RouteDecision, part: Option<PartitionId>, w: Walk)
    requires IsDecision(t, src, dst, policy, m, epoch, d) && LastHolding(t, {src, dst}, part)
    requires GatesOpen(t, src, dst, policy, part) && Searchable(t, src, dst, RouteConfig(policy))
    requires Admissible(t, src, dst, policy, w) && !BlockingCrowd(t, src, dst, policy, w, RouteConfig(policy).maxPaths)
    ensures Allowed(d)
  {
    var raw := AllowedByList(t, src, dst, policy, m, epoch, d, part);
    UncrowdedListed(t, src, dst, policy, raw, w);
  }

  /**
   When the policy's bounds hold fewer walks than the search lists, whatever the states of
   switches and ports and whatever the policy refuses: a route is allowed if and only if the
   gates are open, a search is possible and some walk within the bounds passes the filters.
   */
  lemma RoutedExactly(t: Topology, src: DeviceId, dst: DeviceId, policy: Policy, m: BestMeasurement, epoch: U64,
                      d: RouteDecision, part: Option<PartitionId>)
    requires IsDecision(t, src, dst, policy, m, epoch, d) && LastHolding(t, {src, dst}, part)
    requires !Crowded(t, src, dst, policy)
    ensures Allowed(d) <==>
      GatesOpen(t, src, dst, policy, part) && Searchable(t, src, dst, RouteConfig(policy)) && exists w :: Admissible(t, src, dst, policy, w)
  {
    if Allowed(d) { RouteNecessary(t, src, dst, policy, m, epoch, d, part); return; }
    if GatesOpen(t, src, dst, policy, part) && Searchable(t, src, dst, RouteConfig(policy)) {
      if w :| Admissible(t, src, dst, policy, w) {
        RouteSufficient(t, src, dst, policy, m, epoch, d, part, w);
      }
    }
  }

  /** When walks exist but every listed path was filtered out, the outcome says only whether some switch has expired. */
  lemma FilteredOut(t: Topology, src: DeviceId, dst: DeviceId, policy: Policy, m: BestMeasurement, epoch: U64,
                    d: RouteDecision, part: Option<PartitionId>, w: Walk)
    requires IsDecision(t, src, dst, policy, m, epoch, d) && LastHolding(t, {src, dst}, part) && !Allowed(d)
    requires GatesOpen(t, src, dst, policy, part) && Searchable(t, src, dst, RouteConfig(policy))
    requires Target(t, src, dst, Depth(RouteConfig(policy)), w)
    ensures d.outcome == if AnySwitchExpired(t) then STALE_SWITCH else NO_ROUTE
  {
    var q, raw, reach, ranked := DecisionChoices(t, src, dst, policy, m, epoch, d);
    LastUnique(t, {src, dst}, part, q);
    AllowedIff(t, src, dst, policy, m, epoch, q, raw, reach, ranked);
    FoundIffConnected(t, src, dst, RouteConfig(policy), raw);
  }

  // ----- fabrics with nothing awaiting revalidation -----

  predicate PortsFresh(t: Topology) {
    forall p :: p in t.ports ==> !Expired(t.ports[p].state)
  }

  /** A policy that does not refuse degraded paths. */
  predicate Tolerant(policy: Policy) {
    !policy.requireNonDegradedPath && !(policy.requiredMinRelativeBandwidth > 0.0)
  }

  lemma {:induction false} ReversePortKnown(t: Topology, edges: seq<Edge>, s: SwitchId, back: SwitchId)
    requires Integrity(t) && forall e :: e in edges ==> Describes(t, s, e)
    ensures var p := ReversePort(edges, back); p == UNKNOWN_PORT || p in t.ports
  {
    if edges != [] {
      assert edges[0] in edges && LinkSound(t, t.links[edges[0].link]);
      ReversePortKnown(t, edges[1..], s, back);
    }
  }

  lemma HopIsFresh(t: Topology, idx: Index, src: DeviceId, dst: DeviceId, w: Walk, i: nat, h: PathHop)
    requires Integrity(t) && PortsFresh(t) && ValidIndex(t, idx) && IsWalk(t, src, dst, w) && Linked(t, w)
    requires i + 1 < |w| && PathHopOk(t, idx, w, i, h)
    ensures HopFresh(t, h)
  {
    ExitRooted(t, src, dst, w, i);
    if i == 0 {
      assert StepOk(t, src, Body(w), 0);
    } else {
      var s := Enters(t, w, i);
      ReversePortKnown(t, EdgesAt(idx, s), s, Enters(t, w, i - 1));
    }
  }

  lemma WalkLinkUsable(t: Topology, src: DeviceId, dst: DeviceId, w: Walk, i: nat)
    requires IsWalk(t, src, dst, w) && i < |w|
    ensures Usable(t, w[i])
  {
    if i == 0 { assert StepOk(t, src, Body(w), 0); } else { ExitRooted(t, src, dst, w, i - 1); }
  }

  /** The switches a walk passes through are all current. */
  predicate ThroughCurrent(t: Topology, w: Walk)
    requires |w| > 0
  {
    forall i :: 0 <= i < |w| - 1 ==> Enters(t, w, i) in t.switches && Current(t.switches[Enters(t, w, i)].state)
  }

  /** Without expired ports and under a tolerant policy, the filters come down to the states of the switches. */
  lemma AdmissibleWalk(t: Topology, idx: Index, src: DeviceId, dst: DeviceId, policy: Policy, w: Walk)
    requires Integrity(t) && PortsFresh(t) && Tolerant(policy) && ValidIndex(t, idx)
    requires Target(t, src, dst, Depth(RouteConfig(policy)), w)
    ensures Admissible(t, src, dst, policy, w) <==> ThroughCurrent(t, w)
  {
    forall i | 0 <= i < |w| ensures w[i] in t.links && !Expired(t.links[w[i]].state) { WalkLinkUsable(t, src, dst, w, i); }
    if ThroughCurrent(t, w) { CurrentEligible(t, idx, src, dst, policy, w); }
    if Admissible(t, src, dst, policy, w) {
      var idx' :| ValidIndex(t, idx') && PathEligible(t, policy, PathOf(t, idx', src, dst, w));
      EligibleCurrent(t, idx', src, dst, policy, w);
    }
  }

  lemma EligibleCurrent(t: Topology, idx: Index, src: DeviceId, dst: DeviceId, policy: Policy, w: Walk)
    requires |w| >= 2 && Linked(t, w) && PathEligible(t, policy, PathOf(t, idx, src, dst, w))
    ensures ThroughCurrent(t, w)
  {
    PathSize(t, idx, src, dst, w);
    var p := PathOf(t, idx, src, dst, w);
    forall i | 0 <= i < |w| - 1 ensures Enters(t, w, i) in t.switches && Current(t.switches[Enters(t, w, i)].state) {
      EntersPrefix(t, w, i);
      assert p.switchSequence[i] == Enters(t, Body(w), i);
    }
  }

  lemma CurrentEligible(t: Topology, idx: Index, src: DeviceId, dst: DeviceId, policy: Policy, w: Walk)
    requires Integrity(t) && PortsFresh(t) && Tolerant(policy) && ValidIndex(t, idx) && IsWalk(t, src, dst, w) && Linked(t, w)
    requires ThroughCurrent(t, w) && forall i :: 0 <= i < |w| ==> !Expired(t.links[w[i]].state)
    ensures PathEligible(t, policy, PathOf(t, idx, src, dst, w))
  {
    PassedCurrent(t, idx, src, dst, w);
    HopsFresh(t, idx, src, dst, w);
    UsedFresh(t, idx, src, dst, w);
  }

  lemma PassedCurrent(t: Topology, idx: Index, src: DeviceId, dst: DeviceId, w: Walk)
    requires |w| >= 2 && Linked(t, w) && ThroughCurrent(t, w)
    ensures SwitchesCurrent(t, PathOf(t, idx, src, dst, w))
  {
    var p := PathOf(t, idx, src, dst, w);
    PathSize(t, idx, src, dst, w);
    forall i | 0 <= i < |p.switchSequence|
      ensures p.switchSequence[i] in t.switches && Current(t.switches[p.switchSequence[i]].state)
    {
      EntersPrefix(t, w, i);
    }
  }

  lemma UsedFresh(t: Topology, idx: Index, src: DeviceId, dst: DeviceId, w: Walk)
    requires |w| >= 2 && Linked(t, w) && forall i :: 0 <= i < |w| ==> !Expired(t.links[w[i]].state)
    ensures LinksFresh(t, PathOf(t, idx, src, dst, w))
  {
    PathLinks(t, idx, src, dst, w);
  }

  lemma HopsFresh(t: Topology, idx: Index, src: DeviceId, dst: DeviceId, w: Walk)
    requires Integrity(t) && PortsFresh(t) && ValidIndex(t, idx) && IsWalk(t, src, dst, w) && Linked(t, w)
    ensures forall h :: h in PathOf(t, idx, src, dst, w).hops ==> HopFresh(t, h)
  {
    var p := PathOf(t, idx, src, dst, w);
    PathSize(t, idx, src, dst, w);
    forall i | 0 <= i < |p.hops| ensures HopFresh(t, p.hops[i]) {
      PathHops(t, idx, src, dst, w, i);
      HopIsFresh(t, idx, src, dst, w, i, p.hops[i]);
    }
  }

  predicate SwitchesSettled(t: Topology) {
    forall s :: s in t.switches ==> Current(t.switches[s].state)
  }

  lemma WalkThroughCurrent(t: Topology, src: DeviceId, dst: DeviceId, w: Walk)
    requires Integrity(t) && SwitchesSettled(t) && IsWalk(t, src, dst, w)
    ensures ThroughCurrent(t, w)
  {
    forall i | 0 <= i < |w| - 1 ensures Enters(t, w, i) in t.switches {
      EntersPrefix(t, w, i);
      WalkStaysInside(t, src, Body(w), i);
    }
  }

  /**
   With every switch current too, truncation does not matter: a route is allowed if and only
   if the gates are open, a search is possible and any usable walk joins the endpoints within
   the depth, loops included.
   */
  lemma SettledRoutes(t: Topology, src: DeviceId, dst: DeviceId, policy: Policy, m: BestMeasurement, epoch: U64,
                      d: RouteDecision, part: Option<PartitionId>)
    requires Integrity(t) && PortsFresh(t) && SwitchesSettled(t) && Tolerant(policy)
    requires IsDecision(t, src, dst, policy, m, epoch, d) && LastHolding(t, {src, dst}, part)
    ensures Allowed(d) <==>
      && GatesOpen(t, src, dst, policy, part)
      && Searchable(t, src, dst, RouteConfig(policy))
      && exists w :: IsWalk(t, src, dst, w) && Hops(w) <= Depth(RouteConfig(policy))
  {
    var cfg := RouteConfig(policy);
    var raw := AllowedByList(t, src, dst, policy, m, epoch, d, part);
    if !Searchable(t, src, dst, cfg) { return; }
    FoundIffConnected(t, src, dst, cfg, raw);
    if raw == [] { return; }
    ListedWalkAdmissible(t, src, dst, policy, raw, raw[0]);
  }

  lemma ListedWalkAdmissible(t: Topology, src: DeviceId, dst: DeviceId, policy: Policy, raw: seq<FabricPath>, p: FabricPath)
    requires Integrity(t) && PortsFresh(t) && SwitchesSettled(t) && Tolerant(policy)
    requires Searchable(t, src, dst, RouteConfig(policy)) && Searched(t, src, dst, RouteConfig(policy), raw) && p in raw
    ensures Admissible(t, src, dst, policy, p.links)
  {
    var idx, w := EnumeratedPath(t, src, dst, RouteConfig(policy), raw, p);
    WalkThroughCurrent(t, src, dst, w);
    AdmissibleWalk(t, idx, src, dst, policy, w);
  }

  /** On such a fabric every path the search lists passes every filter. */
  lemma ListedEligible(t: Topology, src: DeviceId, dst: DeviceId, policy: Policy, raw: seq<FabricPath>, p: FabricPath)
    requires Integrity(t) && PortsFresh(t) && SwitchesSettled(t) && Tolerant(policy)
    requires Searchable(t, src, dst, RouteConfig(policy)) && Searched(t, src, dst, RouteConfig(policy), raw) && p in raw
    ensures PathEligible(t, policy, p)
  {
    ListedWalkAdmissible(t, src, dst, policy, raw, p);
    ListedAdmissible(t, src, dst, policy, raw, p);
  }
}
