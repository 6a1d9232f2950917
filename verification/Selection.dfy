/**
 Which path a decision selects, declaratively and truncated or not: the best ranked
 of the admissible paths within reach, and among ties the first in shortlex order.
 */
module Selection {
  import opened Wire
  import opened Fabric
  import opened Walks
  import opened Levels
  import opened Sorting
  import opened Shortlex
  import opened Search
  import opened Keys
  import opened Reach
  import opened Route
  import opened Decision
  import opened RouteLaws
  import opened RouteExact
  import opened RouteOrder
  import opened RouteAgreement

  // ----- candidates -----

  /** The path of an admissible walk, as it would be ranked if it were listed. */
  ghost predicate RouteCandidate(t: Topology, src: DeviceId, dst: DeviceId, policy: Policy, q: FabricPath) {
    && Admissible(t, src, dst, policy, q.links)
    && exists idx :: ValidIndex(t, idx) && q == Capture(t, PathOf(t, idx, src, dst, q.links))
  }

  lemma CandidateUnique(t: Topology, src: DeviceId, dst: DeviceId, policy: Policy, p: FabricPath, q: FabricPath)
    requires RouteCandidate(t, src, dst, policy, p) && RouteCandidate(t, src, dst, policy, q) && p.links == q.links
    ensures p == q
  {
    var a :| ValidIndex(t, a) && p == Capture(t, PathOf(t, a, src, dst, p.links));
    var b :| ValidIndex(t, b) && q == Capture(t, PathOf(t, b, src, dst, q.links));
    PathUnique(t, a, b, src, dst, p.links);
  }

  /** An admissible walk has a candidate, and an eligible path is one. */
  lemma CandidateOf(t: Topology, idx: Index, src: DeviceId, dst: DeviceId, policy: Policy, w: Walk)
    requires ValidIndex(t, idx) && |w| >= 2 && Linked(t, w)
    ensures Capture(t, PathOf(t, idx, src, dst, w)).links == w
    ensures RouteCandidate(t, src, dst, policy, Capture(t, PathOf(t, idx, src, dst, w))) <==> Admissible(t, src, dst, policy, w)
  {
    PathLinks(t, idx, src, dst, w);
  }

  // ----- the eligible list -----

  /** A listed path, filtered and captured, is the candidate of a walk before which the list was not yet full. */
  lemma EligibleInReach(t: Topology, src: DeviceId, dst: DeviceId, policy: Policy, idx: Index, seeds: seq<LinkId>, raw: seq<FabricPath>, q: FabricPath)
    requires Searchable(t, src, dst, RouteConfig(policy)) && Enumerates(t, idx, src, dst, seeds, RouteConfig(policy), raw)
    ensures q in Eligible(t, policy, raw) <==>
      RouteCandidate(t, src, dst, policy, q) && !Overtaken(t, src, dst, RouteConfig(policy), seeds, q.links)
  {
    var cfg := RouteConfig(policy);
    EligibleExact(t, policy, raw, q);
    if q in Eligible(t, policy, raw) {
      var p :| p in raw && PathEligible(t, policy, p) && q == Capture(t, p);
      var i :| 0 <= i < |raw| && raw[i] == p;
      ListedCandidate(t, src, dst, policy, idx, seeds, raw, i);
    }
    if RouteCandidate(t, src, dst, policy, q) && !Overtaken(t, src, dst, cfg, seeds, q.links) {
      CandidateListed(t, src, dst, policy, idx, seeds, raw, q);
    }
  }

  lemma ListedCandidate(t: Topology, src: DeviceId, dst: DeviceId, policy: Policy, idx: Index, seeds: seq<LinkId>, raw: seq<FabricPath>, i: nat)
    requires Searchable(t, src, dst, RouteConfig(policy)) && Enumerates(t, idx, src, dst, seeds, RouteConfig(policy), raw)
    requires i < |raw| && PathEligible(t, policy, raw[i])
    ensures RouteCandidate(t, src, dst, policy, Capture(t, raw[i])) && !Overtaken(t, src, dst, RouteConfig(policy), seeds, raw[i].links)
  {
    var cfg := RouteConfig(policy);
    var all := Found(t, idx, dst, seeds, Depth(cfg));
    FoundHolds(t, idx, src, dst, cfg, seeds);
    ListedLinks(t, idx, src, dst, all, cfg.maxPaths, raw);
    assert all[i] in all && Take(all, cfg.maxPaths)[i] == all[i];
    CandidateOf(t, idx, src, dst, policy, all[i]);
    PlaceCounts(t, src, dst, cfg, seeds, all, i);
  }

  lemma ListedPlace(t: Topology, src: DeviceId, dst: DeviceId, cfg: Config, idx: Index, seeds: seq<LinkId>, raw: seq<FabricPath>, w: Walk)
    returns (i: nat)
    requires Enumerates(t, idx, src, dst, seeds, cfg, raw) && Target(t, src, dst, Depth(cfg), w) && !Overtaken(t, src, dst, cfg, seeds, w)
    ensures Linked(t, w) && i < |raw| && raw[i] == PathOf(t, idx, src, dst, w)
  {
    var all := Found(t, idx, dst, seeds, Depth(cfg));
    FoundHolds(t, idx, src, dst, cfg, seeds);
    assert w in all;
    i :| 0 <= i < |all| && all[i] == w;
    PlaceCounts(t, src, dst, cfg, seeds, all, i);
    assert Take(all, cfg.maxPaths)[i] == w;
  }

  lemma CandidateListed(t: Topology, src: DeviceId, dst: DeviceId, policy: Policy, idx: Index, seeds: seq<LinkId>, raw: seq<FabricPath>, q: FabricPath)
    requires Enumerates(t, idx, src, dst, seeds, RouteConfig(policy), raw)
    requires RouteCandidate(t, src, dst, policy, q) && !Overtaken(t, src, dst, RouteConfig(policy), seeds, q.links)
    ensures exists p :: p in raw && PathEligible(t, policy, p) && q == Capture(t, p)
  {
    var i := ListedPlace(t, src, dst, RouteConfig(policy), idx, seeds, raw, q.links);
    CandidateIsEligible(t, idx, src, dst, policy, q);
    assert raw[i] in raw;
  }

  lemma CandidateIsEligible(t: Topology, idx: Index, src: DeviceId, dst: DeviceId, policy: Policy, q: FabricPath)
    requires ValidIndex(t, idx) && RouteCandidate(t, src, dst, policy, q)
    ensures PathEligible(t, policy, PathOf(t, idx, src, dst, q.links)) && q == Capture(t, PathOf(t, idx, src, dst, q.links))
  {
    var a :| ValidIndex(t, a) && PathEligible(t, policy, PathOf(t, a, src, dst, q.links));
    var b :| ValidIndex(t, b) && q == Capture(t, PathOf(t, b, src, dst, q.links));
    PathUnique(t, a, idx, src, dst, q.links);
    PathUnique(t, b, idx, src, dst, q.links);
  }

  /** One of the first j paths, captured. */
  ghost predicate CapturedBefore(t: Topology, raw: seq<FabricPath>, j: nat, q: FabricPath) {
    exists i :: 0 <= i < j && i < |raw| && q == Capture(t, raw[i])
  }

  lemma CapturedInMore(t: Topology, raw: seq<FabricPath>, n: nat, j: nat, q: FabricPath)
    requires n <= |raw| && CapturedBefore(t, raw[..n], j, q)
    ensures CapturedBefore(t, raw, j, q)
  {
    var i :| 0 <= i < j && i < n && q == Capture(t, raw[..n][i]);
    assert raw[i] == raw[..n][i];
  }

  /** Filtering keeps the order. */
  lemma {:induction false} EligibleFrom(t: Topology, policy: Policy, raw: seq<FabricPath>, b: nat) returns (j: nat)
    requires b < |Eligible(t, policy, raw)|
    ensures j < |raw| && Eligible(t, policy, raw)[b] == Capture(t, raw[j])
    ensures forall a :: 0 <= a < b ==> CapturedBefore(t, raw, j, Eligible(t, policy, raw)[a])
  {
    var n := |raw| - 1;
    var rest := Eligible(t, policy, raw[..n]);
    if b < |rest| {
      j := EligibleFrom(t, policy, raw[..n], b);
      assert raw[..n][j] == raw[j];
      forall a | 0 <= a < b ensures CapturedBefore(t, raw, j, rest[a]) { CapturedInMore(t, raw, n, j, rest[a]); }
    } else {
      j := n;
      forall a | 0 <= a < b ensures CapturedBefore(t, raw, n, rest[a]) {
        var i := EligibleFrom(t, policy, raw[..n], a);
        assert raw[i] == raw[..n][i];
      }
    }
  }

  lemma EligibleInOrder(t: Topology, src: DeviceId, dst: DeviceId, policy: Policy, idx: Index, seeds: seq<LinkId>, raw: seq<FabricPath>, a: nat, b: nat)
    requires Enumerates(t, idx, src, dst, seeds, RouteConfig(policy), raw) && a < b < |Eligible(t, policy, raw)|
    ensures Before(t, seeds, Eligible(t, policy, raw)[a].links, Eligible(t, policy, raw)[b].links)
  {
    var cfg := RouteConfig(policy);
    var all := Found(t, idx, dst, seeds, Depth(cfg));
    FoundInShortlex(t, idx, src, dst, seeds, Depth(cfg));
    ListedLinks(t, idx, src, dst, all, cfg.maxPaths, raw);
    var j := EligibleFrom(t, policy, raw, b);
    assert CapturedBefore(t, raw, j, Eligible(t, policy, raw)[a]);
  }

  // ----- the front of a stable ranking -----

  lemma {:induction false} FirstTie<T(!new)>(leq: (T, T) -> bool, x: T, v: seq<T>, b: nat) returns (a: nat)
    requires b < |v| && Tie(leq, x, v[b])
    ensures a <= b && Ties(leq, x, v) != [] && Ties(leq, x, v)[0] == v[a]
  {
    var n := |v| - 1;
    if b < n {
      a := FirstTie(leq, x, v[..n], b);
    } else if Ties(leq, x, v[..n]) == [] {
      a := n;
    } else {
      var y := Ties(leq, x, v[..n])[0];
      TiesFrom(leq, x, v[..n], y);
      a :| 0 <= a < n && v[a] == y;
    }
  }

  lemma {:induction false} FrontTie<T(!new)>(leq: (T, T) -> bool, x: T, v: seq<T>)
    requires v != [] && Tie(leq, x, v[0])
    ensures Ties(leq, x, v) != [] && Ties(leq, x, v)[0] == v[0]
  {
    if |v| > 1 { FrontTie(leq, x, v[..|v| - 1]); }
  }

  /** What a stable sort puts first stood before everything tied with it. */
  lemma FrontFirst<T(!new)>(leq: (T, T) -> bool, v: seq<T>, r: seq<T>, b: nat) returns (a: nat)
    requires TotalPreorder(leq) && KeepsTies(leq, v, r) && r != [] && b < |v| && Tie(leq, r[0], v[b])
    ensures a <= b && v[a] == r[0]
  {
    assert Tie(leq, r[0], r[0]);
    FrontTie(leq, r[0], r);
    a := FirstTie(leq, r[0], v, b);
  }

  // ----- the selected path -----

  predicate Tied(t: Topology, m: BestMeasurement, factors: seq<Byte>, p: FabricPath, q: FabricPath) {
    Scores(t, m, factors, p) == Scores(t, m, factors, q) && CanonicalKey(p) == CanonicalKey(q)
  }

  /** Ranked before: better, or as good and earlier in the search. */
  predicate Outranks(t: Topology, m: BestMeasurement, factors: seq<Byte>, seeds: seq<LinkId>, p: FabricPath, q: FabricPath) {
    Better(t, m, factors, p, q) || (Tied(t, m, factors, p, q) && Before(t, seeds, p.links, q.links))
  }

  ghost predicate InReach(t: Topology, src: DeviceId, dst: DeviceId, policy: Policy, seeds: seq<LinkId>, q: FabricPath) {
    RouteCandidate(t, src, dst, policy, q) && !Overtaken(t, src, dst, RouteConfig(policy), seeds, q.links)
  }

  /** The candidate within reach that outranks every other. */
  ghost predicate Chosen(t: Topology, src: DeviceId, dst: DeviceId, policy: Policy, m: BestMeasurement, seeds: seq<LinkId>, q: FabricPath) {
    && InReach(t, src, dst, policy, seeds, q)
    && forall p :: InReach(t, src, dst, policy, seeds, p) && p != q ==> Outranks(t, m, policy.factors, seeds, q, p)
  }

  lemma ChosenUnique(t: Topology, src: DeviceId, dst: DeviceId, policy: Policy, m: BestMeasurement, seeds: seq<LinkId>, p: FabricPath, q: FabricPath)
    requires Distinct(seeds) && Chosen(t, src, dst, policy, m, seeds, p) && Chosen(t, src, dst, policy, m, seeds, q)
    ensures p == q
  {
    if p != q {
      BetterTotal(t, m, policy.factors, p, q);
      if Before(t, seeds, p.links, q.links) { BeforeOnce(t, seeds, p.links, q.links); }
      assert false;
    }
  }

  lemma FrontOutranks(t: Topology, src: DeviceId, dst: DeviceId, policy: Policy, m: BestMeasurement, idx: Index, seeds: seq<LinkId>,
                      raw: seq<FabricPath>, ranked: seq<FabricPath>, p: FabricPath)
    requires Enumerates(t, idx, src, dst, seeds, RouteConfig(policy), raw)
    requires IsRanking(t, m, policy.factors, Eligible(t, policy, raw), ranked) && ranked != []
    requires p in Eligible(t, policy, raw) && p != ranked[0]
    ensures Outranks(t, m, policy.factors, seeds, ranked[0], p)
  {
    var eligible := Eligible(t, policy, raw);
    FrontIsBest(t, m, policy.factors, eligible, ranked);
    BetterTotal(t, m, policy.factors, ranked[0], p);
    if !Better(t, m, policy.factors, ranked[0], p) {
      var b :| 0 <= b < |eligible| && eligible[b] == p;
      RankingTotal(t, m, policy.factors);
      var a := FrontFirst(RankOrder(t, m, policy.factors), eligible, ranked, b);
      EligibleInOrder(t, src, dst, policy, idx, seeds, raw, a, b);
    }
  }

  lemma FrontIsChosen(t: Topology, src: DeviceId, dst: DeviceId, policy: Policy, m: BestMeasurement, idx: Index, seeds: seq<LinkId>,
                      raw: seq<FabricPath>, ranked: seq<FabricPath>)
    requires Searchable(t, src, dst, RouteConfig(policy)) && Enumerates(t, idx, src, dst, seeds, RouteConfig(policy), raw)
    requires IsRanking(t, m, policy.factors, Eligible(t, policy, raw), ranked) && ranked != []
    ensures Chosen(t, src, dst, policy, m, seeds, ranked[0])
  {
    SameElements(Eligible(t, policy, raw), ranked);
    assert ranked[0] in ranked;
    EligibleInReach(t, src, dst, policy, idx, seeds, raw, ranked[0]);
    forall p | InReach(t, src, dst, policy, seeds, p) && p != ranked[0] ensures Outranks(t, m, policy.factors, seeds, ranked[0], p) {
      EligibleInReach(t, src, dst, policy, idx, seeds, raw, p);
      FrontOutranks(t, src, dst, policy, m, idx, seeds, raw, ranked, p);
    }
  }

  lemma ChosenRanks(t: Topology, src: DeviceId, dst: DeviceId, policy: Policy, m: BestMeasurement, idx: Index, seeds: seq<LinkId>,
                    raw: seq<FabricPath>, ranked: seq<FabricPath>, q: FabricPath)
    requires Searchable(t, src, dst, RouteConfig(policy)) && Enumerates(t, idx, src, dst, seeds, RouteConfig(policy), raw)
    requires IsRanking(t, m, policy.factors, Eligible(t, policy, raw), ranked)
    ensures ranked != [] && ranked[0] == q <==> Chosen(t, src, dst, policy, m, seeds, q)
  {
    if ranked != [] { FrontIsChosen(t, src, dst, policy, m, idx, seeds, raw, ranked); }
    if Chosen(t, src, dst, policy, m, seeds, q) {
      EligibleInReach(t, src, dst, policy, idx, seeds, raw, q);
      SameElements(Eligible(t, policy, raw), ranked);
      ChosenUnique(t, src, dst, policy, m, seeds, ranked[0], q);
    }
  }

  lemma SomeIndex(t: Topology, src: DeviceId, dst: DeviceId, cfg: Config, seeds: seq<LinkId>, raw: seq<FabricPath>) returns (idx: Index)
    requires EnumeratedFrom(t, src, dst, cfg, seeds, raw) && Searchable(t, src, dst, cfg)
    ensures Enumerates(t, idx, src, dst, seeds, cfg, raw)
  {
    idx :| Enumerates(t, idx, src, dst, seeds, cfg, raw);
  }

  /** The choices behind a decision that tried the source's links in a given order. */
  lemma DecidedChoices(t: Topology, src: DeviceId, dst: DeviceId, policy: Policy, m: BestMeasurement, epoch: U64, seeds: seq<LinkId>, d: RouteDecision)
    returns (part: Option<PartitionId>, idx: Index, raw: seq<FabricPath>, reach: Reachability, ranked: seq<FabricPath>)
    requires DecidedFrom(t, src, dst, policy, m, epoch, seeds, d) && Searchable(t, src, dst, RouteConfig(policy))
    ensures LastHolding(t, {src, dst}, part) && (part.Some? ==> part.value in t.partitions)
    ensures Enumerates(t, idx, src, dst, seeds, RouteConfig(policy), raw)
    ensures IsRanking(t, m, policy.factors, Eligible(t, policy, raw), ranked)
    ensures d == Outcomes(t, src, dst, policy, m, epoch, part, raw, reach, ranked)
  {
    part, raw, reach, ranked :| DecidedBy(t, src, dst, policy, m, epoch, seeds, part, raw, reach, ranked, d);
    idx := SomeIndex(t, src, dst, RouteConfig(policy), seeds, raw);
  }

  lemma FrontSelected(t: Topology, src: DeviceId, dst: DeviceId, policy: Policy, m: BestMeasurement, epoch: U64,
                      part: Option<PartitionId>, raw: seq<FabricPath>, reach: Reachability, ranked: seq<FabricPath>, q: FabricPath)
    requires part.Some? ==> part.value in t.partitions
    requires GatesOpen(t, src, dst, policy, part) && (ranked != [] ==> raw != [])
    ensures Outcomes(t, src, dst, policy, m, epoch, part, raw, reach, ranked).selected == Some(q) <==> ranked != [] && ranked[0] == q
  {}

  /**
   With the gates open and a search possible, on every fabric and under every policy: a decision
   selects a path if and only if that path outranks every other candidate within reach.
   */
  lemma SelectionExact(t: Topology, src: DeviceId, dst: DeviceId, policy: Policy, m: BestMeasurement, epoch: U64,
                       seeds: seq<LinkId>, d: RouteDecision, part: Option<PartitionId>, q: FabricPath)
    requires DecidedFrom(t, src, dst, policy, m, epoch, seeds, d) && LastHolding(t, {src, dst}, part)
    requires GatesOpen(t, src, dst, policy, part) && Searchable(t, src, dst, RouteConfig(policy))
    ensures d.selected == Some(q) <==> Chosen(t, src, dst, policy, m, seeds, q)
  {
    var own, idx, raw, reach, ranked := DecidedChoices(t, src, dst, policy, m, epoch, seeds, d);
    LastUnique(t, {src, dst}, part, own);
    ChosenRanks(t, src, dst, policy, m, idx, seeds, raw, ranked, q);
    SameElements(Eligible(t, policy, raw), ranked);
    FrontSelected(t, src, dst, policy, m, epoch, own, raw, reach, ranked, q);
  }

  lemma SomeMember<T(!new)>(v: seq<T>, p: T -> bool)
    requires forall x :: x in v <==> p(x)
    ensures v != [] <==> exists x :: p(x)
  {
    if v != [] { assert v[0] in v; }
  }

  lemma RankedInReach(t: Topology, src: DeviceId, dst: DeviceId, policy: Policy, m: BestMeasurement, idx: Index, seeds: seq<LinkId>,
                      raw: seq<FabricPath>, ranked: seq<FabricPath>)
    requires Searchable(t, src, dst, RouteConfig(policy)) && Enumerates(t, idx, src, dst, seeds, RouteConfig(policy), raw)
    requires IsRanking(t, m, policy.factors, Eligible(t, policy, raw), ranked)
    ensures ranked != [] <==> exists q :: InReach(t, src, dst, policy, seeds, q)
    ensures ranked != [] ==> raw != []
  {
    var reach := (q: FabricPath) => InReach(t, src, dst, policy, seeds, q);
    forall q ensures q in Eligible(t, policy, raw) <==> reach(q) { EligibleInReach(t, src, dst, policy, idx, seeds, raw, q); }
    SomeMember(Eligible(t, policy, raw), reach);
    SameElements(Eligible(t, policy, raw), ranked);
    assert forall q :: reach(q) <==> InReach(t, src, dst, policy, seeds, q);
  }

  /** And it is allowed if and only if some candidate is within reach. */
  lemma AllowedFrom(t: Topology, src: DeviceId, dst: DeviceId, policy: Policy, m: BestMeasurement, epoch: U64,
                    seeds: seq<LinkId>, d: RouteDecision, part: Option<PartitionId>)
    requires DecidedFrom(t, src, dst, policy, m, epoch, seeds, d) && LastHolding(t, {src, dst}, part)
    requires GatesOpen(t, src, dst, policy, part) && Searchable(t, src, dst, RouteConfig(policy))
    ensures Allowed(d) <==> exists q :: InReach(t, src, dst, policy, seeds, q)
  {
    var own, idx, raw, reach, ranked := DecidedChoices(t, src, dst, policy, m, epoch, seeds, d);
    LastUnique(t, {src, dst}, part, own);
    AllowedIff(t, src, dst, policy, m, epoch, own, raw, reach, ranked);
    RankedInReach(t, src, dst, policy, m, idx, seeds, raw, ranked);
  }

  // ----- in terms of the fabric alone -----

  /** Within reach by length and then by (port, link), link by link. */
  ghost predicate Near(t: Topology, src: DeviceId, dst: DeviceId, policy: Policy, q: FabricPath) {
    RouteCandidate(t, src, dst, policy, q) && !Outrun(t, src, dst, RouteConfig(policy), q.links)
  }

  ghost predicate Preferred(t: Topology, src: DeviceId, dst: DeviceId, policy: Policy, m: BestMeasurement, q: FabricPath) {
    && Near(t, src, dst, policy, q)
    && forall p :: Near(t, src, dst, policy, p) && p != q ==>
         Better(t, m, policy.factors, q, p) || (Tied(t, m, policy.factors, q, p) && Ahead(t, q.links, p.links))
  }

  lemma InReachIsNear(t: Topology, src: DeviceId, dst: DeviceId, policy: Policy, seeds: seq<LinkId>, q: FabricPath)
    requires SinglyAttached(t, src) && ValidSeeds(t, src, seeds)
    ensures InReach(t, src, dst, policy, seeds, q) <==> Near(t, src, dst, policy, q)
  {
    if RouteCandidate(t, src, dst, policy, q) { OvertakenIsOutrun(t, src, dst, RouteConfig(policy), seeds, q.links); }
  }

  lemma ChosenIsPreferred(t: Topology, src: DeviceId, dst: DeviceId, policy: Policy, m: BestMeasurement, seeds: seq<LinkId>, q: FabricPath)
    requires SinglyAttached(t, src) && ValidSeeds(t, src, seeds)
    ensures Chosen(t, src, dst, policy, m, seeds, q) <==> Preferred(t, src, dst, policy, m, q)
  {
    forall p ensures InReach(t, src, dst, policy, seeds, p) <==> Near(t, src, dst, policy, p) { InReachIsNear(t, src, dst, policy, seeds, p); }
    if Near(t, src, dst, policy, q) {
      forall p | Near(t, src, dst, policy, p) ensures Before(t, seeds, q.links, p.links) <==> Ahead(t, q.links, p.links) {
        BeforeIsAhead(t, src, dst, seeds, q.links, p.links);
      }
    }
  }

  /**
   With the source singly attached, computeRoute in one line: once the gates are open and a search
   is possible, it selects the candidate that is preferred to every other one within reach.
   */
  lemma SelectedExactly(t: Topology, src: DeviceId, dst: DeviceId, policy: Policy, m: BestMeasurement, epoch: U64,
                        d: RouteDecision, part: Option<PartitionId>, q: FabricPath)
    requires IsDecision(t, src, dst, policy, m, epoch, d) && LastHolding(t, {src, dst}, part) && SinglyAttached(t, src)
    ensures d.selected == Some(q) <==>
      && GatesOpen(t, src, dst, policy, part) && Searchable(t, src, dst, RouteConfig(policy))
      && Preferred(t, src, dst, policy, m, q)
  {
    SelectedMeansAllowed(t, src, dst, policy, m, epoch, d);
    if Allowed(d) { RouteNecessary(t, src, dst, policy, m, epoch, d, part); }
    if GatesOpen(t, src, dst, policy, part) && Searchable(t, src, dst, RouteConfig(policy)) {
      var seeds := DecidedFromSome(t, src, dst, policy, m, epoch, d);
      SelectionExact(t, src, dst, policy, m, epoch, seeds, d, part, q);
      ChosenIsPreferred(t, src, dst, policy, m, seeds, q);
    }
  }
}
