/**
 Route governance: gate on endpoints and partition, enumerate within the policy's
 bounds, filter, rank, and later re-check what the decision captured.
 */
module Route {
  import opened Wire
  import opened Fabric
  import opened Sorting
  import opened Search
  import opened Keys

  // ----- policy and measurements -----

  const FEWER_SWITCHES: Byte := 0
  const FEWER_HOPS: Byte := 1
  const DIRECTNESS: Byte := 2
  const REDUNDANCY: Byte := 3
  const MEASURED_THROUGHPUT: Byte := 4
  const MEASURED_LATENCY: Byte := 5
  const ACTIVE_LINK_COUNT: Byte := 6
  const DEGRADATION: Byte := 7
  const CONGESTION_EVIDENCE: Byte := 8
  const FAILURE_DOMAIN_DIVERSITY: Byte := 11

  datatype Policy = Policy(
    requireNonDegradedPath: bool, insidePartition: bool, maxAllowedHops: U64,
    requiredMinRelativeBandwidth: real, factors: seq<Byte>)

  /** The best fresh measurement of the endpoint pair; worst is the largest double. */
  datatype BestMeasurement = BestMeasurement(has: bool, throughput: real, latency: real, worst: real)

  function ActiveLinks(t: Topology, ls: seq<LinkId>): real {
    if ls == [] then 0.0
    else
      var l := ls[|ls| - 1];
      ActiveLinks(t, ls[..|ls| - 1]) + (if l !in t.links then 0.0 else if t.links[l].state == UP then 1.0 else 0.5)
  }

  function DegradedLinks(t: Topology, ls: seq<LinkId>): real {
    if ls == [] then 0.0
    else
      var l := ls[|ls| - 1];
      DegradedLinks(t, ls[..|ls| - 1]) + (if l in t.links && t.links[l].degraded then 1.0 else 0.0)
  }

  /** A candidate's score for one factor; lower is better. */
  function FactorValue(f: Byte, p: FabricPath, t: Topology, m: BestMeasurement): real {
    if f == FEWER_SWITCHES || f == FEWER_HOPS || f == DIRECTNESS || f == FAILURE_DOMAIN_DIVERSITY then |p.hops| as real
    else if f == REDUNDANCY then -(|p.hops| as real)
    else if f == MEASURED_THROUGHPUT then if !m.has || m.throughput <= 0.0 then m.worst else -m.throughput
    else if f == MEASURED_LATENCY then if !m.has || m.latency >= m.worst then m.worst else m.latency
    else if f == ACTIVE_LINK_COUNT then -ActiveLinks(t, p.links)
    else if f == DEGRADATION then if p.state == DEGRADED then 1.0 else 0.0
    else if f == CONGESTION_EVIDENCE then DegradedLinks(t, p.links)
    else 0.0
  }

  // ----- ranking -----

  predicate CharLess(a: char, b: char) {
    a < b
  }

  predicate KeyBefore(p: FabricPath, q: FabricPath) {
    StrLess(CharLess, CanonicalKey(p), CanonicalKey(q))
  }

  /** Factor by factor, then by canonical key. */
  predicate Better(t: Topology, m: BestMeasurement, factors: seq<Byte>, p: FabricPath, q: FabricPath) {
    if factors == [] then KeyBefore(p, q)
    else
      var vp, vq := FactorValue(factors[0], p, t, m), FactorValue(factors[0], q, t, m);
      if vp < vq then true else if vq < vp then false else Better(t, m, factors[1..], p, q)
  }

  function Scores(t: Topology, m: BestMeasurement, factors: seq<Byte>, p: FabricPath): seq<real> {
    if factors == [] then [] else [FactorValue(factors[0], p, t, m)] + Scores(t, m, factors[1..], p)
  }

  predicate RankLeq(t: Topology, m: BestMeasurement, factors: seq<Byte>, p: FabricPath, q: FabricPath) {
    !Better(t, m, factors, q, p)
  }

  lemma {:induction false} BetterTotal(t: Topology, m: BestMeasurement, factors: seq<Byte>, p: FabricPath, q: FabricPath)
    ensures !(Better(t, m, factors, p, q) && Better(t, m, factors, q, p))
    ensures !Better(t, m, factors, p, q) && !Better(t, m, factors, q, p) <==>
      Scores(t, m, factors, p) == Scores(t, m, factors, q) && CanonicalKey(p) == CanonicalKey(q)
    decreases |factors|
  {
    if factors == [] {
      StrLessTotal(CharLess, CanonicalKey(p), CanonicalKey(q));
    } else {
      BetterTotal(t, m, factors[1..], p, q);
      assert Scores(t, m, factors, p)[1..] == Scores(t, m, factors[1..], p);
      assert Scores(t, m, factors, q)[1..] == Scores(t, m, factors[1..], q);
    }
  }

  lemma {:induction false} BetterTransitive(t: Topology, m: BestMeasurement, factors: seq<Byte>, p: FabricPath, q: FabricPath, r: FabricPath)
    requires Better(t, m, factors, p, q) && Better(t, m, factors, q, r)
    ensures Better(t, m, factors, p, r)
    decreases |factors|
  {
    if factors == [] {
      StrLessTransitive(CharLess, CanonicalKey(p), CanonicalKey(q), CanonicalKey(r));
    } else {
      var vp, vq, vr := FactorValue(factors[0], p, t, m), FactorValue(factors[0], q, t, m), FactorValue(factors[0], r, t, m);
      if vp == vq == vr { BetterTransitive(t, m, factors[1..], p, q, r); }
    }
  }

  /** Better depends on a path only through its scores and its key. */
  lemma {:induction false} BetterCongruent(t: Topology, m: BestMeasurement, factors: seq<Byte>, p: FabricPath, p': FabricPath, q: FabricPath)
    requires Scores(t, m, factors, p) == Scores(t, m, factors, p') && CanonicalKey(p) == CanonicalKey(p')
    ensures Better(t, m, factors, p, q) == Better(t, m, factors, p', q)
    ensures Better(t, m, factors, q, p) == Better(t, m, factors, q, p')
    decreases |factors|
  {
    if factors != [] {
      var a, b := Scores(t, m, factors, p), Scores(t, m, factors, p');
      assert a[0] == b[0] && a[1..] == b[1..];
      assert a[1..] == Scores(t, m, factors[1..], p) && b[1..] == Scores(t, m, factors[1..], p');
      BetterCongruent(t, m, factors[1..], p, p', q);
    }
  }

  function RankOrder(t: Topology, m: BestMeasurement, factors: seq<Byte>): (FabricPath, FabricPath) -> bool {
    (p: FabricPath, q: FabricPath) => RankLeq(t, m, factors, p, q)
  }

  /** Ranking is a total preorder whose ties have equal scores and equal keys. */
  lemma RankingTotal(t: Topology, m: BestMeasurement, factors: seq<Byte>)
    ensures TotalPreorder(RankOrder(t, m, factors))
    ensures forall p, q :: RankLeq(t, m, factors, p, q) && RankLeq(t, m, factors, q, p) <==>
      Scores(t, m, factors, p) == Scores(t, m, factors, q) && CanonicalKey(p) == CanonicalKey(q)
  {
    forall p, q
      ensures RankLeq(t, m, factors, p, q) || RankLeq(t, m, factors, q, p)
      ensures RankLeq(t, m, factors, p, q) && RankLeq(t, m, factors, q, p) <==>
        Scores(t, m, factors, p) == Scores(t, m, factors, q) && CanonicalKey(p) == CanonicalKey(q)
    {
      BetterTotal(t, m, factors, p, q);
    }
    forall p, q, r | RankLeq(t, m, factors, p, q) && RankLeq(t, m, factors, q, r)
      ensures RankLeq(t, m, factors, p, r)
    {
      RankLeqTransitive(t, m, factors, p, q, r);
    }
  }

  lemma RankLeqTransitive(t: Topology, m: BestMeasurement, factors: seq<Byte>, p: FabricPath, q: FabricPath, r: FabricPath)
    requires RankLeq(t, m, factors, p, q) && RankLeq(t, m, factors, q, r)
    ensures RankLeq(t, m, factors, p, r)
  {
    BetterTotal(t, m, factors, p, q);
    BetterTotal(t, m, factors, q, r);
    BetterTotal(t, m, factors, p, r);
    if Better(t, m, factors, p, q) && Better(t, m, factors, q, r) {
      BetterTransitive(t, m, factors, p, q, r);
    } else if !Better(t, m, factors, p, q) {
      BetterCongruent(t, m, factors, p, q, r);
    } else {
      BetterCongruent(t, m, factors, q, r, p);
    }
  }

  predicate Ranked(t: Topology, m: BestMeasurement, factors: seq<Byte>, ps: seq<FabricPath>) {
    forall i, j :: 0 <= i < j < |ps| ==> RankLeq(t, m, factors, ps[i], ps[j])
  }

  /** A ranking of the eligible paths: the same paths, best first, ties in the order of enumeration. */
  ghost predicate IsRanking(t: Topology, m: BestMeasurement, factors: seq<Byte>, eligible: seq<FabricPath>, ranked: seq<FabricPath>) {
    && multiset(ranked) == multiset(eligible) && Ranked(t, m, factors, ranked)
    && KeepsTies(RankOrder(t, m, factors), eligible, ranked)
  }

  /** The front of a ranking is at least as good as every eligible path. */
  lemma FrontIsBest(t: Topology, m: BestMeasurement, factors: seq<Byte>, eligible: seq<FabricPath>, ranked: seq<FabricPath>)
    requires IsRanking(t, m, factors, eligible, ranked) && eligible != []
    ensures ranked != [] && ranked[0] in eligible
    ensures forall p :: p in eligible ==> RankLeq(t, m, factors, ranked[0], p)
  {
    SameElements(eligible, ranked);
    assert ranked[0] in ranked;
    forall p | p in eligible ensures RankLeq(t, m, factors, ranked[0], p) {
      var i :| 0 <= i < |ranked| && ranked[i] == p;
      BetterTotal(t, m, factors, p, p);
    }
  }

  /** The order in which candidates were inserted cannot change the winner's scores or key. */
  lemma SelectionIgnoresOrder(t: Topology, m: BestMeasurement, factors: seq<Byte>,
                              a: seq<FabricPath>, b: seq<FabricPath>, ra: seq<FabricPath>, rb: seq<FabricPath>)
    requires multiset(a) == multiset(b) && a != []
    requires IsRanking(t, m, factors, a, ra) && IsRanking(t, m, factors, b, rb)
    ensures ra != [] && rb != []
    ensures Scores(t, m, factors, ra[0]) == Scores(t, m, factors, rb[0])
    ensures CanonicalKey(ra[0]) == CanonicalKey(rb[0])
  {
    SameElements(a, b);
    FrontIsBest(t, m, factors, a, ra);
    FrontIsBest(t, m, factors, b, rb);
    BetterTotal(t, m, factors, ra[0], rb[0]);
  }

  method Rank(t: Topology, m: BestMeasurement, factors: seq<Byte>, eligible: seq<FabricPath>) returns (ranked: seq<FabricPath>)
    ensures IsRanking(t, m, factors, eligible, ranked)
  {
    RankingTotal(t, m, factors);
    ranked := StableSort(RankOrder(t, m, factors), eligible);
  }

  /** There is one ranking of a list of eligible paths. */
  lemma RankingUnique(t: Topology, m: BestMeasurement, factors: seq<Byte>, eligible: seq<FabricPath>, a: seq<FabricPath>, b: seq<FabricPath>)
    requires IsRanking(t, m, factors, eligible, a) && IsRanking(t, m, factors, eligible, b)
    ensures a == b
  {
    RankingTotal(t, m, factors);
    StableUnique(RankOrder(t, m, factors), a, b);
  }

  lemma RankingExists(t: Topology, m: BestMeasurement, factors: seq<Byte>, eligible: seq<FabricPath>) returns (ranked: seq<FabricPath>)
    ensures IsRanking(t, m, factors, eligible, ranked)
  {
    RankingTotal(t, m, factors);
    ranked := StableExists(RankOrder(t, m, factors), eligible);
  }

  // ----- filters -----

  predicate Current(s: Byte) {
    s == UP || s == DEGRADED || s == PRESENT || s == SUPPORTED
  }

  predicate SwitchesCurrent(t: Topology, p: FabricPath) {
    forall i :: 0 <= i < |p.switchSequence| ==>
      p.switchSequence[i] in t.switches && Current(t.switches[p.switchSequence[i]].state)
  }

  predicate PortFresh(t: Topology, port: PortId) {
    port in t.ports && !Expired(t.ports[port].state)
  }

  predicate HopFresh(t: Topology, h: PathHop) {
    (h.inPort != UNKNOWN_PORT ==> PortFresh(t, h.inPort)) && PortFresh(t, h.outPort)
  }

  predicate LinksFresh(t: Topology, p: FabricPath) {
    forall i :: 0 <= i < |p.links| ==> p.links[i] in t.links && !Expired(t.links[p.links[i]].state)
  }

  predicate PathEligible(t: Topology, policy: Policy, p: FabricPath) {
    && SwitchesCurrent(t, p)
    && (forall i :: 0 <= i < |p.hops| ==> HopFresh(t, p.hops[i]))
    && LinksFresh(t, p)
    && !((policy.requireNonDegradedPath || policy.requiredMinRelativeBandwidth > 0.0) && p.state == DEGRADED)
  }

  function SwitchGens(t: Topology, ss: seq<SwitchId>): (gs: seq<(SwitchId, Gen)>)
    ensures forall g :: g in gs <==> g.0 in ss && g.0 in t.switches && g.1 == t.switches[g.0].gen
  {
    if ss == [] then []
    else
      var rest, s := ss[..|ss| - 1], ss[|ss| - 1];
      assert ss == rest + [s];
      SwitchGens(t, rest) + (if s in t.switches then [(s, t.switches[s].gen)] else [])
  }

  function PortGen(t: Topology, port: PortId): seq<(PortId, Gen)> {
    if port in t.ports then [(port, t.ports[port].gen)] else []
  }

  predicate PathPort(hops: seq<PathHop>, port: PortId) {
    exists i :: 0 <= i < |hops| && (port == hops[i].outPort || (port == hops[i].inPort && port != UNKNOWN_PORT))
  }

  function PortGens(t: Topology, hops: seq<PathHop>): (gs: seq<(PortId, Gen)>)
    ensures forall g :: g in gs <==> PathPort(hops, g.0) && g.0 in t.ports && g.1 == t.ports[g.0].gen
  {
    if hops == [] then []
    else
      var rest, h := hops[..|hops| - 1], hops[|hops| - 1];
      assert hops == rest + [h];
      var here := (if h.inPort != UNKNOWN_PORT then PortGen(t, h.inPort) else []) + PortGen(t, h.outPort);
      assert forall q :: PathPort(hops, q) <==> PathPort(rest, q) || q == h.outPort || (q == h.inPort && q != UNKNOWN_PORT) by {
        forall q ensures PathPort(hops, q) <==> PathPort(rest, q) || q == h.outPort || (q == h.inPort && q != UNKNOWN_PORT) {
          if PathPort(rest, q) {
            var i :| 0 <= i < |rest| && (q == rest[i].outPort || (q == rest[i].inPort && q != UNKNOWN_PORT));
            assert hops[i] == rest[i];
          }
          if q == h.outPort || (q == h.inPort && q != UNKNOWN_PORT) { assert hops[|hops| - 1] == h; }
        }
      }
      PortGens(t, rest) + here
  }

  /** An eligible path, with the generations it was admitted under. */
  function Capture(t: Topology, p: FabricPath): FabricPath {
    p.(capable := true, switchGens := SwitchGens(t, p.switchSequence), portGens := PortGens(t, p.hops))
  }

  function Eligible(t: Topology, policy: Policy, raw: seq<FabricPath>): seq<FabricPath> {
    if raw == [] then []
    else
      var p := raw[|raw| - 1];
      Eligible(t, policy, raw[..|raw| - 1]) + (if PathEligible(t, policy, p) then [Capture(t, p)] else [])
  }

  lemma {:induction false} EligibleExact(t: Topology, policy: Policy, raw: seq<FabricPath>, q: FabricPath)
    ensures q in Eligible(t, policy, raw) <==> exists p :: p in raw && PathEligible(t, policy, p) && q == Capture(t, p)
  {
    if raw != [] {
      var rest, last := raw[..|raw| - 1], raw[|raw| - 1];
      EligibleExact(t, policy, rest, q);
      assert forall p :: p in raw <==> p in rest || p == last;
    }
  }

  method FilterPaths(t: Topology, policy: Policy, raw: seq<FabricPath>) returns (eligible: seq<FabricPath>)
    ensures eligible == Eligible(t, policy, raw)
  {
    eligible := [];
    for i := 0 to |raw|
      invariant eligible == Eligible(t, policy, raw[..i])
    {
      assert raw[..i + 1][..i] == raw[..i];
      if PathEligible(t, policy, raw[i]) { eligible := eligible + [Capture(t, raw[i])]; }
    }
    assert raw[..|raw|] == raw;
  }
}
