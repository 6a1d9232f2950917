/** The same exactly, in the order of the search: the walks are listed in shortlex order until the list is full. */
module RouteOrder {
  import opened Wire
  import opened Fabric
  import opened Walks
  import opened Levels
  import opened Sets
  import opened Shortlex
  import opened Search
  import opened Reach
  import opened Route
  import opened Decision
  import opened RouteExact

  /** A level order of the walks within the bounds; it is free only among source attachments on one port. */
  ghost predicate SearchOrder(t: Topology, src: DeviceId, dst: DeviceId, cfg: Config, all: seq<Walk>) {
    exists idx, seeds :: ValidIndex(t, idx) && ValidSeeds(t, src, seeds) && all == Found(t, idx, dst, seeds, Depth(cfg))
  }

  /** An admissible walk comes up before the list is full. */
  ghost predicate InTime(t: Topology, src: DeviceId, dst: DeviceId, policy: Policy, all: seq<Walk>) {
    exists i :: 0 <= i < |all| && i < RouteConfig(policy).maxPaths && Admissible(t, src, dst, policy, all[i])
  }

  lemma EnumerationOrder(t: Topology, src: DeviceId, dst: DeviceId, cfg: Config, raw: seq<FabricPath>) returns (all: seq<Walk>)
    requires Searchable(t, src, dst, cfg) && IsEnumeration(t, src, dst, cfg, raw)
    ensures SearchOrder(t, src, dst, cfg, all) && LinksArePrefix(all, cfg.maxPaths, raw)
  {
    var idx, seeds :| Enumerates(t, idx, src, dst, seeds, cfg, raw);
    all := Found(t, idx, dst, seeds, Depth(cfg));
    ListedLinks(t, idx, src, dst, all, cfg.maxPaths, raw);
  }

  lemma ListedInTime(t: Topology, src: DeviceId, dst: DeviceId, policy: Policy, raw: seq<FabricPath>, all: seq<Walk>)
    requires LinksArePrefix(all, RouteConfig(policy).maxPaths, raw)
    ensures ListsAdmissible(t, src, dst, policy, raw) <==> InTime(t, src, dst, policy, all)
  {
    if InTime(t, src, dst, policy, all) {
      var i :| 0 <= i < |all| && i < RouteConfig(policy).maxPaths && Admissible(t, src, dst, policy, all[i]);
      assert raw[i].links == all[i];
    }
  }

  /**
   On every fabric and under every policy: a route is allowed if and only if the gates are
   open and, in the order of the search, an admissible walk is among the first ones listed.
   */
  lemma RoutedInOrder(t: Topology, src: DeviceId, dst: DeviceId, policy: Policy, m: BestMeasurement, epoch: U64,
                      d: RouteDecision, part: Option<PartitionId>) returns (all: seq<Walk>)
    requires IsDecision(t, src, dst, policy, m, epoch, d) && LastHolding(t, {src, dst}, part)
    requires Searchable(t, src, dst, RouteConfig(policy))
    ensures SearchOrder(t, src, dst, RouteConfig(policy), all)
    ensures Allowed(d) <==> GatesOpen(t, src, dst, policy, part) && InTime(t, src, dst, policy, all)
  {
    var raw := AllowedByList(t, src, dst, policy, m, epoch, d, part);
    all := EnumerationOrder(t, src, dst, RouteConfig(policy), raw);
    ListedInTime(t, src, dst, policy, raw, all);
  }

  /** If no admissible walk ever comes up in time, the outcome says only whether some switch has expired. */
  lemma Starved(t: Topology, src: DeviceId, dst: DeviceId, policy: Policy, m: BestMeasurement, epoch: U64,
                d: RouteDecision, part: Option<PartitionId>, w: Walk)
    requires IsDecision(t, src, dst, policy, m, epoch, d) && LastHolding(t, {src, dst}, part)
    requires GatesOpen(t, src, dst, policy, part) && Searchable(t, src, dst, RouteConfig(policy))
    requires Target(t, src, dst, Depth(RouteConfig(policy)), w)
    requires forall all :: SearchOrder(t, src, dst, RouteConfig(policy), all) ==> !InTime(t, src, dst, policy, all)
    ensures d.outcome == if AnySwitchExpired(t) then STALE_SWITCH else NO_ROUTE
  {
    var all := RoutedInOrder(t, src, dst, policy, m, epoch, d, part);
    FilteredOut(t, src, dst, policy, m, epoch, d, part, w);
  }

  // ----- the order is unique -----

  lemma {:induction false} OnwardAllUnique(t: Topology, a: Index, b: Index, ws: seq<Walk>)
    requires ValidIndex(t, a) && ValidIndex(t, b)
    ensures OnwardAll(t, a, ws) == OnwardAll(t, b, ws)
  {
    if ws != [] {
      var w := ws[|ws| - 1];
      OnwardAllUnique(t, a, b, ws[..|ws| - 1]);
      if w != [] { IndexUnique(t, a, b, Enters(t, w, |w| - 1)); }
    }
  }

  lemma {:induction false} FinishAllUnique(t: Topology, a: Index, b: Index, dst: DeviceId, ws: seq<Walk>)
    requires ValidIndex(t, a) && ValidIndex(t, b)
    ensures FinishAll(t, a, dst, ws) == FinishAll(t, b, dst, ws)
  {
    if ws != [] {
      var w := ws[|ws| - 1];
      FinishAllUnique(t, a, b, dst, ws[..|ws| - 1]);
      if w != [] { IndexUnique(t, a, b, Enters(t, w, |w| - 1)); }
    }
  }

  lemma NextLevelUnique(t: Topology, a: Index, b: Index, seeds: seq<LinkId>, n: nat)
    requires ValidIndex(t, a) && ValidIndex(t, b) && Level(t, a, seeds, n) == Level(t, b, seeds, n)
    ensures Level(t, a, seeds, n + 1) == Level(t, b, seeds, n + 1)
  {
    OnwardAllUnique(t, a, b, Level(t, a, seeds, n));
  }

  lemma NextFoundUnique(t: Topology, a: Index, b: Index, dst: DeviceId, seeds: seq<LinkId>, n: nat)
    requires ValidIndex(t, a) && ValidIndex(t, b) && Level(t, a, seeds, n) == Level(t, b, seeds, n)
    requires Found(t, a, dst, seeds, n) == Found(t, b, dst, seeds, n)
    ensures Found(t, a, dst, seeds, n + 1) == Found(t, b, dst, seeds, n + 1)
  {
    FinishAllUnique(t, a, b, dst, Level(t, a, seeds, n));
  }

  lemma {:induction false} FoundUniqueFrom(t: Topology, a: Index, b: Index, dst: DeviceId, seeds: seq<LinkId>, k: nat, n: nat)
    requires ValidIndex(t, a) && ValidIndex(t, b) && k <= n
    requires Level(t, a, seeds, k) == Level(t, b, seeds, k) && Found(t, a, dst, seeds, k) == Found(t, b, dst, seeds, k)
    ensures Found(t, a, dst, seeds, n) == Found(t, b, dst, seeds, n)
    decreases n - k
  {
    if k < n {
      NextLevelUnique(t, a, b, seeds, k);
      NextFoundUnique(t, a, b, dst, seeds, k);
      FoundUniqueFrom(t, a, b, dst, seeds, k + 1, n);
    }
  }

  lemma FoundUnique(t: Topology, a: Index, b: Index, dst: DeviceId, seeds: seq<LinkId>, n: nat)
    requires ValidIndex(t, a) && ValidIndex(t, b)
    ensures Found(t, a, dst, seeds, n) == Found(t, b, dst, seeds, n)
  {
    FoundUniqueFrom(t, a, b, dst, seeds, 0, n);
  }

  predicate PortsIncrease(t: Topology, ls: seq<LinkId>) {
    && (forall i :: 0 <= i < |ls| ==> ls[i] in t.links)
    && forall i, j :: 0 <= i < j < |ls| ==> PortLess(t.links[ls[i]].port, t.links[ls[j]].port)
  }

  lemma SeedsIncrease(t: Topology, src: DeviceId, seeds: seq<LinkId>)
    requires SinglyAttached(t, src) && ValidSeeds(t, src, seeds)
    ensures PortsIncrease(t, seeds)
  {
    forall i | 0 <= i < |seeds| ensures Usable(t, seeds[i]) && ToDevice(t, seeds[i], src) { assert seeds[i] in seeds; }
  }

  lemma {:induction false} IncreasingUnique(t: Topology, a: seq<LinkId>, b: seq<LinkId>)
    requires PortsIncrease(t, a) && PortsIncrease(t, b) && forall l :: l in a <==> l in b
    ensures a == b
  {
    if |b| > 0 { assert b[0] in a; }
    if |a| > 0 {
      assert a[0] in b && b[0] in a;
      assert a[0] == b[0];
      forall l ensures l in a[1..] <==> l in b[1..] {
        assert l in a[1..] <==> l in a && l != a[0];
        assert l in b[1..] <==> l in b && l != b[0];
      }
      IncreasingUnique(t, a[1..], b[1..]);
    }
  }

  lemma SeedsUnique(t: Topology, src: DeviceId, p: seq<LinkId>, q: seq<LinkId>)
    requires SinglyAttached(t, src) && ValidSeeds(t, src, p) && ValidSeeds(t, src, q)
    ensures p == q
  {
    SeedsIncrease(t, src, p);
    SeedsIncrease(t, src, q);
    IncreasingUnique(t, p, q);
  }

  lemma OrderFrom(t: Topology, src: DeviceId, dst: DeviceId, cfg: Config, all: seq<Walk>) returns (idx: Index, seeds: seq<LinkId>)
    requires SearchOrder(t, src, dst, cfg, all)
    ensures ValidIndex(t, idx) && ValidSeeds(t, src, seeds) && all == Found(t, idx, dst, seeds, Depth(cfg))
  {
    idx, seeds :| ValidIndex(t, idx) && ValidSeeds(t, src, seeds) && all == Found(t, idx, dst, seeds, Depth(cfg));
  }

  /** When the source is singly attached there is one order, so the condition of RoutedInOrder is determined. */
  lemma OrderUnique(t: Topology, src: DeviceId, dst: DeviceId, cfg: Config, x: seq<Walk>, y: seq<Walk>)
    requires SinglyAttached(t, src) && SearchOrder(t, src, dst, cfg, x) && SearchOrder(t, src, dst, cfg, y)
    ensures x == y
  {
    var a, p := OrderFrom(t, src, dst, cfg, x);
    var b, q := OrderFrom(t, src, dst, cfg, y);
    SeedsUnique(t, src, p, q);
    FoundUnique(t, a, b, dst, p, Depth(cfg));
  }

  /** With the source singly attached, exactly: the gates are open and an admissible walk comes up before the list is full. */
  lemma RoutedByRank(t: Topology, src: DeviceId, dst: DeviceId, policy: Policy, m: BestMeasurement, epoch: U64,
                     d: RouteDecision, part: Option<PartitionId>, all: seq<Walk>)
    requires IsDecision(t, src, dst, policy, m, epoch, d) && LastHolding(t, {src, dst}, part)
    requires Searchable(t, src, dst, RouteConfig(policy)) && SinglyAttached(t, src)
    requires SearchOrder(t, src, dst, RouteConfig(policy), all)
    ensures Allowed(d) <==> GatesOpen(t, src, dst, policy, part) && InTime(t, src, dst, policy, all)
  {
    var own := RoutedInOrder(t, src, dst, policy, m, epoch, d, part);
    OrderUnique(t, src, dst, RouteConfig(policy), own, all);
  }

  // ----- the order, declaratively -----

  /** What the search, trying the source's links in this order, has found for this depth. */
  ghost predicate OrderOf(t: Topology, src: DeviceId, dst: DeviceId, cfg: Config, seeds: seq<LinkId>, all: seq<Walk>) {
    && ValidSeeds(t, src, seeds) && Distinct(all) && InShortlexOrder(t, seeds, all)
    && forall w :: w in all <==> Target(t, src, dst, Depth(cfg), w)
  }

  lemma OrderHolds(t: Topology, src: DeviceId, dst: DeviceId, cfg: Config, all: seq<Walk>) returns (seeds: seq<LinkId>)
    requires SearchOrder(t, src, dst, cfg, all)
    ensures OrderOf(t, src, dst, cfg, seeds, all)
  {
    var idx;
    idx, seeds := OrderFrom(t, src, dst, cfg, all);
    FoundHolds(t, idx, src, dst, cfg, seeds);
  }

  lemma FoundHolds(t: Topology, idx: Index, src: DeviceId, dst: DeviceId, cfg: Config, seeds: seq<LinkId>)
    requires ValidIndex(t, idx) && ValidSeeds(t, src, seeds)
    ensures OrderOf(t, src, dst, cfg, seeds, Found(t, idx, dst, seeds, Depth(cfg)))
  {
    FoundAll(t, idx, src, dst, seeds, Depth(cfg));
    FoundInShortlex(t, idx, src, dst, seeds, Depth(cfg));
  }

  /** Walks that start at a smaller port, no longer, come up earlier. */
  lemma EarlierPort(t: Topology, src: DeviceId, dst: DeviceId, cfg: Config, all: seq<Walk>, i: nat, w: Walk) returns (p: nat)
    requires SearchOrder(t, src, dst, cfg, all) && i < |all| && Target(t, src, dst, Depth(cfg), w) && |w| <= |all[i]|
    requires |all[i]| > 0 && all[i][0] in t.links && w[0] in t.links && PortLess(t.links[w[0]].port, t.links[all[i][0]].port)
    ensures p < i && all[p] == w
  {
    var seeds := OrderHolds(t, src, dst, cfg, all);
    assert all[i] in all && w in all;
    p :| 0 <= p < |all| && all[p] == w;
    StartsAtSeed(t, src, dst, seeds, w);
    StartsAtSeed(t, src, dst, seeds, all[i]);
    PortDecides(t, src, seeds, w[0], all[i][0]);
    assert EarlierAt(t, seeds, w, all[i], 0);
    PlacesAreOrder(t, seeds, all, p, i);
  }

  // ----- places counted -----

  predicate AllBefore(t: Topology, src: DeviceId, dst: DeviceId, cfg: Config, seeds: seq<LinkId>, w: Walk, ws: set<Walk>) {
    forall x :: x in ws ==> Target(t, src, dst, Depth(cfg), x) && Before(t, seeds, x, w)
  }

  /** As many walks within the bounds as the search lists come before this one. */
  ghost predicate Overtaken(t: Topology, src: DeviceId, dst: DeviceId, cfg: Config, seeds: seq<LinkId>, w: Walk) {
    exists ws: set<Walk> :: |ws| >= cfg.maxPaths && AllBefore(t, src, dst, cfg, seeds, w, ws)
  }

  /** What is listed before a walk is exactly what comes before it in the order. */
  lemma ListedBefore(t: Topology, src: DeviceId, dst: DeviceId, cfg: Config, seeds: seq<LinkId>, all: seq<Walk>, i: nat, x: Walk)
    requires OrderOf(t, src, dst, cfg, seeds, all) && i < |all|
    ensures x in all[..i] <==> Target(t, src, dst, Depth(cfg), x) && Before(t, seeds, x, all[i])
  {
    if x in all {
      var j :| 0 <= j < |all| && all[j] == x;
      PlacesAreOrder(t, seeds, all, j, i);
      if x in all[..i] { var k :| 0 <= k < i && all[k] == x; assert k == j; }
      if j < i { assert all[..i][j] == x; }
    }
    if x in all[..i] { assert x in all; }
  }

  /** The place of a walk is the number of walks before it. */
  lemma PlaceCounts(t: Topology, src: DeviceId, dst: DeviceId, cfg: Config, seeds: seq<LinkId>, all: seq<Walk>, i: nat)
    requires OrderOf(t, src, dst, cfg, seeds, all) && i < |all|
    ensures Overtaken(t, src, dst, cfg, seeds, all[i]) <==> i >= cfg.maxPaths
  {
    var listed := set x | x in all[..i];
    forall x ensures x in listed <==> Target(t, src, dst, Depth(cfg), x) && Before(t, seeds, x, all[i]) {
      ListedBefore(t, src, dst, cfg, seeds, all, i, x);
    }
    ListSize(all[..i]);
    assert AllBefore(t, src, dst, cfg, seeds, all[i], listed);
    forall ws | AllBefore(t, src, dst, cfg, seeds, all[i], ws) ensures |ws| <= i { SubsetSize(ws, listed); }
  }

  lemma InTimeCounts(t: Topology, src: DeviceId, dst: DeviceId, policy: Policy, seeds: seq<LinkId>, all: seq<Walk>)
    requires OrderOf(t, src, dst, RouteConfig(policy), seeds, all)
    ensures InTime(t, src, dst, policy, all) <==>
      exists w :: Admissible(t, src, dst, policy, w) && !Overtaken(t, src, dst, RouteConfig(policy), seeds, w)
  {
    var cfg := RouteConfig(policy);
    forall i | 0 <= i < |all| ensures Overtaken(t, src, dst, cfg, seeds, all[i]) <==> i >= cfg.maxPaths {
      PlaceCounts(t, src, dst, cfg, seeds, all, i);
    }
    if w :| Admissible(t, src, dst, policy, w) && !Overtaken(t, src, dst, cfg, seeds, w) {
      assert w in all;
      var i :| 0 <= i < |all| && all[i] == w;
    }
  }

  // ----- in terms of the fabric alone -----

  predicate AllAhead(t: Topology, src: DeviceId, dst: DeviceId, cfg: Config, w: Walk, ws: set<Walk>) {
    forall x :: x in ws ==> Target(t, src, dst, Depth(cfg), x) && Ahead(t, x, w)
  }

  /** The same by length and then by (port, link), link by link. */
  ghost predicate Outrun(t: Topology, src: DeviceId, dst: DeviceId, cfg: Config, w: Walk) {
    exists ws: set<Walk> :: |ws| >= cfg.maxPaths && AllAhead(t, src, dst, cfg, w, ws)
  }

  lemma OvertakenIsOutrun(t: Topology, src: DeviceId, dst: DeviceId, cfg: Config, seeds: seq<LinkId>, w: Walk)
    requires SinglyAttached(t, src) && ValidSeeds(t, src, seeds) && IsWalk(t, src, dst, w)
    ensures Overtaken(t, src, dst, cfg, seeds, w) <==> Outrun(t, src, dst, cfg, w)
  {
    forall ws ensures AllBefore(t, src, dst, cfg, seeds, w, ws) <==> AllAhead(t, src, dst, cfg, w, ws) {
      forall x | x in ws && Target(t, src, dst, Depth(cfg), x) ensures Before(t, seeds, x, w) <==> Ahead(t, x, w) {
        BeforeIsAhead(t, src, dst, seeds, x, w);
      }
    }
  }

  /**
   With the source singly attached, in terms of the fabric alone: a route is allowed if and only
   if the gates are open, a search is possible and some admissible walk has fewer walks ahead of
   it, by length and then by (port, link) link by link, than the search lists.
   */
  lemma RoutedByCount(t: Topology, src: DeviceId, dst: DeviceId, policy: Policy, m: BestMeasurement, epoch: U64,
                      d: RouteDecision, part: Option<PartitionId>)
    requires IsDecision(t, src, dst, policy, m, epoch, d) && LastHolding(t, {src, dst}, part) && SinglyAttached(t, src)
    ensures Allowed(d) <==>
      && GatesOpen(t, src, dst, policy, part) && Searchable(t, src, dst, RouteConfig(policy))
      && exists w :: Admissible(t, src, dst, policy, w) && !Outrun(t, src, dst, RouteConfig(policy), w)
  {
    if !Searchable(t, src, dst, RouteConfig(policy)) {
      if Allowed(d) { RouteNecessary(t, src, dst, policy, m, epoch, d, part); }
      return;
    }
    var all := RoutedInOrder(t, src, dst, policy, m, epoch, d, part);
    var seeds := OrderHolds(t, src, dst, RouteConfig(policy), all);
    InTimeCounts(t, src, dst, policy, seeds, all);
    forall w | Admissible(t, src, dst, policy, w)
      ensures Overtaken(t, src, dst, RouteConfig(policy), seeds, w) <==> Outrun(t, src, dst, RouteConfig(policy), w)
    {
      OvertakenIsOutrun(t, src, dst, RouteConfig(policy), seeds, w);
    }
  }
}
