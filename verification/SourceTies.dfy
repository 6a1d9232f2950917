/**
 Where the freedom lies: rival candidates differ in nothing but the source's link, and
 exactly one of their two source links, which share a port, is degraded.
 */
module SourceTies {
  import opened Wire
  import opened Fabric
  import opened Walks
  import opened Levels
  import opened Shortlex
  import opened Search
  import opened Keys
  import opened Route
  import opened Decision
  import opened RouteLaws
  import opened RouteExact
  import opened RouteAgreement
  import opened Selection
  import opened Ambiguity

  // ----- another link at the same port -----

  /** The link may stand in for the first one of the walk. */
  predicate StandsIn(t: Topology, src: DeviceId, w: Walk, l: LinkId) {
    |w| > 0 && w[0] in t.links && Usable(t, l) && ToDevice(t, l, src) && t.links[l].port == t.links[w[0]].port
  }

  lemma ReplacedEnters(t: Topology, src: DeviceId, w: Walk, l: LinkId, i: nat)
    requires StandsIn(t, src, w, l) && i < |w|
    ensures Enters(t, w[0 := l], i) == Enters(t, w, i)
  {}

  lemma ReplacedStep(t: Topology, src: DeviceId, w: Walk, l: LinkId, i: nat)
    requires StandsIn(t, src, w, l) && i < |w| && StepOk(t, src, w, i)
    ensures StepOk(t, src, w[0 := l], i)
  {
    if i > 0 { ReplacedEnters(t, src, w, l, i - 1); }
  }

  lemma ReplacedPartial(t: Topology, src: DeviceId, w: Walk, l: LinkId)
    requires IsPartial(t, src, w) && StandsIn(t, src, w, l)
    ensures IsPartial(t, src, w[0 := l]) && Switches(t, w[0 := l]) == Switches(t, w)
  {
    var x := w[0 := l];
    forall i | 0 <= i < |w| ensures StepOk(t, src, x, i) && Switches(t, x)[i] == Switches(t, w)[i] {
      ReplacedStep(t, src, w, l, i);
      ReplacedEnters(t, src, w, l, i);
    }
  }

  lemma ReplacedTarget(t: Topology, src: DeviceId, dst: DeviceId, depth: nat, w: Walk, l: LinkId)
    requires Target(t, src, dst, depth, w) && StandsIn(t, src, w, l)
    ensures Target(t, src, dst, depth, w[0 := l])
  {
    var x, b := w[0 := l], Body(w);
    assert Body(x) == b[0 := l] && Last(x) == Last(w);
    ReplacedPartial(t, src, b, l);
    ReplacedEnters(t, src, b, l, |b| - 1);
  }

  lemma ReplacedHops(t: Topology, idx: Index, src: DeviceId, dst: DeviceId, w: Walk, l: LinkId)
    requires |w| >= 2 && Linked(t, w) && StandsIn(t, src, w, l)
    ensures Linked(t, w[0 := l])
    ensures PathOf(t, idx, src, dst, w[0 := l]).hops == PathOf(t, idx, src, dst, w).hops
    ensures PathOf(t, idx, src, dst, w[0 := l]).switchSequence == PathOf(t, idx, src, dst, w).switchSequence
  {
    var x := w[0 := l];
    var p, q := PathOf(t, idx, src, dst, w), PathOf(t, idx, src, dst, x);
    PathSize(t, idx, src, dst, w);
    PathSize(t, idx, src, dst, x);
    forall i | 0 <= i < |p.hops| ensures q.hops[i] == p.hops[i] && q.switchSequence[i] == p.switchSequence[i] {
      ReplacedHop(t, idx, src, dst, w, l, i);
    }
  }

  lemma ReplacedHop(t: Topology, idx: Index, src: DeviceId, dst: DeviceId, w: Walk, l: LinkId, i: nat)
    requires |w| >= 2 && Linked(t, w) && Linked(t, w[0 := l]) && StandsIn(t, src, w, l) && i < |w| - 1
    ensures var p, q := PathOf(t, idx, src, dst, w), PathOf(t, idx, src, dst, w[0 := l]);
      && |p.hops| == |p.switchSequence| == |q.hops| == |q.switchSequence| == |w| - 1
      && q.hops[i] == p.hops[i] && q.switchSequence[i] == p.switchSequence[i]
  {
    var x := w[0 := l];
    PathSize(t, idx, src, dst, w);
    PathSize(t, idx, src, dst, x);
    PathHops(t, idx, src, dst, w, i);
    PathHops(t, idx, src, dst, x, i);
    ReplacedEnters(t, src, w, l, i);
    if i > 0 { ReplacedEnters(t, src, w, l, i - 1); }
    EntersPrefix(t, w, i);
    EntersPrefix(t, x, i);
  }

  // ----- the candidate with the other link -----

  /** A policy with a degraded candidate refuses no path for being degraded. */
  lemma DegradedTolerated(t: Topology, src: DeviceId, dst: DeviceId, policy: Policy, q: FabricPath)
    requires RouteCandidate(t, src, dst, policy, q)
    ensures q.state == DEGRADED ==> Tolerant(policy)
  {
    var idx :| ValidIndex(t, idx) && q == Capture(t, PathOf(t, idx, src, dst, q.links));
    CandidateIsEligible(t, idx, src, dst, policy, q);
  }

  lemma VariantEligible(t: Topology, src: DeviceId, policy: Policy, p: FabricPath, l: LinkId, q: FabricPath)
    requires StandsIn(t, src, p.links, l) && Tolerant(policy) && PathEligible(t, policy, p)
    requires q.links == p.links[0 := l] && q.hops == p.hops && q.switchSequence == p.switchSequence
    ensures PathEligible(t, policy, q)
  {
    forall i | 0 <= i < |q.links| ensures q.links[i] in t.links && !Expired(t.links[q.links[i]].state) {
      assert q.links[i] == if i == 0 then l else p.links[i];
    }
  }

  lemma ReplacedEligible(t: Topology, idx: Index, src: DeviceId, dst: DeviceId, policy: Policy, w: Walk, l: LinkId)
    requires |w| >= 2 && Linked(t, w) && StandsIn(t, src, w, l) && Tolerant(policy)
    requires PathEligible(t, policy, PathOf(t, idx, src, dst, w)) && Linked(t, w[0 := l])
    ensures PathEligible(t, policy, PathOf(t, idx, src, dst, w[0 := l]))
  {
    var x := w[0 := l];
    ReplacedHops(t, idx, src, dst, w, l);
    PathLinks(t, idx, src, dst, w);
    PathLinks(t, idx, src, dst, x);
    VariantEligible(t, src, policy, PathOf(t, idx, src, dst, w), l, PathOf(t, idx, src, dst, x));
  }

  /** The same path but for the source's link. */
  predicate Variant(p: FabricPath, l: LinkId, q: FabricPath) {
    |p.links| > 0 && q.links == p.links[0 := l] && q.hops == p.hops && q.source == p.source && q.destination == p.destination
  }

  lemma VariantExists(t: Topology, src: DeviceId, dst: DeviceId, policy: Policy, p: FabricPath, l: LinkId) returns (q: FabricPath)
    requires RouteCandidate(t, src, dst, policy, p) && StandsIn(t, src, p.links, l) && Tolerant(policy)
    ensures RouteCandidate(t, src, dst, policy, q) && Variant(p, l, q)
  {
    var w, x := p.links, p.links[0 := l];
    var idx :| ValidIndex(t, idx) && p == Capture(t, PathOf(t, idx, src, dst, w));
    CandidateIsEligible(t, idx, src, dst, policy, p);
    ReplacedTarget(t, src, dst, Depth(RouteConfig(policy)), w, l);
    ReplacedHops(t, idx, src, dst, w, l);
    ReplacedEligible(t, idx, src, dst, policy, w, l);
    q := Capture(t, PathOf(t, idx, src, dst, x));
    CandidateOf(t, idx, src, dst, policy, x);
  }

  // ----- scores of exchanged links add up -----

  function ActiveValue(t: Topology, l: LinkId): real {
    if l !in t.links then 0.0 else if t.links[l].state == UP then 1.0 else 0.5
  }

  function DegradedValue(t: Topology, l: LinkId): real {
    if l in t.links && t.links[l].degraded then 1.0 else 0.0
  }

  lemma {:induction false} LinkSums(t: Topology, ls: seq<LinkId>)
    requires ls != []
    ensures ActiveLinks(t, ls) == ActiveValue(t, ls[0]) + ActiveLinks(t, ls[1..])
    ensures DegradedLinks(t, ls) == DegradedValue(t, ls[0]) + DegradedLinks(t, ls[1..])
  {
    var n := |ls| - 1;
    if n > 0 {
      LinkSums(t, ls[..n]);
      assert ls[..n][1..] == ls[1..][..n - 1];
    } else {
      assert ls[..n] == [] && ls[1..] == [];
    }
  }

  /** Two paths that have exchanged their first links. */
  predicate Exchanged(p: FabricPath, q: FabricPath, p': FabricPath, q': FabricPath) {
    && |p.links| > 0 && |q.links| > 0 && p.hops == q.hops
    && Variant(q, p.links[0], p') && Variant(p, q.links[0], q')
  }

  lemma ExchangedSums(t: Topology, p: FabricPath, q: FabricPath, p': FabricPath, q': FabricPath)
    requires Exchanged(p, q, p', q')
    ensures ActiveLinks(t, p'.links) + ActiveLinks(t, q'.links) == ActiveLinks(t, p.links) + ActiveLinks(t, q.links)
    ensures DegradedLinks(t, p'.links) + DegradedLinks(t, q'.links) == DegradedLinks(t, p.links) + DegradedLinks(t, q.links)
  {
    LinkSums(t, p.links);
    LinkSums(t, q.links);
    LinkSums(t, p'.links);
    LinkSums(t, q'.links);
    assert p'.links[1..] == q.links[1..] && q'.links[1..] == p.links[1..];
  }

  lemma ExchangedFactor(t: Topology, m: BestMeasurement, f: Byte, p: FabricPath, q: FabricPath, p': FabricPath, q': FabricPath)
    requires Exchanged(p, q, p', q') && f != DEGRADATION
    ensures FactorValue(f, p', t, m) + FactorValue(f, q', t, m) == FactorValue(f, p, t, m) + FactorValue(f, q, t, m)
  {
    ExchangedSums(t, p, q, p', q');
  }

  /** If neither exchanged path is better than two tied ones, both are tied with them. */
  lemma {:induction false} ExchangedScores(t: Topology, m: BestMeasurement, factors: seq<Byte>,
                                           p: FabricPath, q: FabricPath, p': FabricPath, q': FabricPath)
    requires Exchanged(p, q, p', q') && DEGRADATION !in factors && Scores(t, m, factors, p) == Scores(t, m, factors, q)
    requires RankLeq(t, m, factors, p, p') && RankLeq(t, m, factors, p, q')
    ensures Scores(t, m, factors, p') == Scores(t, m, factors, p) == Scores(t, m, factors, q')
    decreases |factors|
  {
    if factors != [] {
      assert Scores(t, m, factors, p)[0] == Scores(t, m, factors, q)[0];
      assert Scores(t, m, factors, p)[1..] == Scores(t, m, factors[1..], p) && Scores(t, m, factors, q)[1..] == Scores(t, m, factors[1..], q);
      ExchangedFactor(t, m, factors[0], p, q, p', q');
      ExchangedScores(t, m, factors[1..], p, q, p', q');
    }
  }

  // ----- tails -----

  lemma PartSameTails(v: Walk, w: Walk, k: nat, j: nat)
    requires |v| == |w| > 0 && 0 < k && 0 < j && PartAt(v, w[0 := v[0]], k) && PartAt(w, v[0 := w[0]], j)
    ensures j == k
  {
    var x, y := w[0 := v[0]], v[0 := w[0]];
    assert v[k] != w[k] && w[j] != v[j];
    assert forall i :: 0 < i < k ==> v[i] == v[..k][i] == x[..k][i] == w[i];
    assert forall i :: 0 < i < j ==> w[i] == w[..j][i] == y[..j][i] == v[i];
  }

  lemma TailsOrdered(t: Topology, v: Walk, w: Walk)
    requires |v| == |w| > 0 && Ahead(t, v, w[0 := v[0]])
    ensures !Ahead(t, w, v[0 := w[0]])
  {
    var x, y := w[0 := v[0]], v[0 := w[0]];
    var k :| 0 <= k < |v| && PartAt(v, x, k) && LinkBefore(t, v[k], x[k]);
    assert k > 0;
    forall j | 0 <= j < |w| && PartAt(w, y, j) ensures !LinkBefore(t, w[j], y[j]) {
      assert j > 0;
      PartSameTails(v, w, k, j);
    }
  }

  lemma ExchangedTails(t: Topology, v: Walk, w: Walk)
    requires |v| == |w| > 0
    requires w[0 := v[0]] == v || Ahead(t, v, w[0 := v[0]])
    requires v[0 := w[0]] == w || Ahead(t, w, v[0 := w[0]])
    ensures v[1..] == w[1..]
  {
    assert w[0 := v[0]][1..] == w[1..] && v[0 := w[0]][1..] == v[1..];
    if w[0 := v[0]] != v { TailsOrdered(t, v, w); }
  }

  // ----- rivals -----

  lemma SameKey(p: FabricPath, q: FabricPath)
    requires p.hops == q.hops && p.source == q.source && p.destination == q.destination
    ensures CanonicalKey(p) == CanonicalKey(q)
  {}

  lemma ExchangedBest(t: Topology, m: BestMeasurement, factors: seq<Byte>, cand: FabricPath -> bool,
                      p: FabricPath, q: FabricPath, p': FabricPath, q': FabricPath)
    requires BestOf(t, m, factors, cand, p) && BestOf(t, m, factors, cand, q) && DEGRADATION !in factors
    requires Exchanged(p, q, p', q') && p.source == q.source && p.destination == q.destination && cand(p') && cand(q')
    ensures BestOf(t, m, factors, cand, p') && BestOf(t, m, factors, cand, q')
  {
    BestTied(t, m, factors, cand, p, q);
    ExchangedScores(t, m, factors, p, q, p', q');
    SameKey(p, p');
    SameKey(p, q');
    TiedBest(t, m, factors, cand, p, p');
    TiedBest(t, m, factors, cand, p, q');
  }

  /** Leading paths whose first links can be exchanged agree on all the others. */
  lemma ExchangedAgree(t: Topology, m: BestMeasurement, factors: seq<Byte>, cand: FabricPath -> bool,
                       p: FabricPath, q: FabricPath, p': FabricPath, q': FabricPath)
    requires LeadingOf(t, m, factors, cand, p) && LeadingOf(t, m, factors, cand, q) && DEGRADATION !in factors && |p.links| == |q.links|
    requires Exchanged(p, q, p', q') && p.source == q.source && p.destination == q.destination && cand(p') && cand(q')
    ensures p.links[1..] == q.links[1..]
  {
    ExchangedBest(t, m, factors, cand, p, q, p', q');
    assert SameStart(p', p) && SameStart(q', q);
    ExchangedTails(t, p.links, q.links);
  }

  lemma CandidateStart(t: Topology, src: DeviceId, dst: DeviceId, policy: Policy, q: FabricPath)
    requires RouteCandidate(t, src, dst, policy, q)
    ensures |q.links| >= 2 && Usable(t, q.links[0]) && ToDevice(t, q.links[0], src) && q.source == src && q.destination == dst
    ensures q.state == DEGRADED <==> AnyDegraded(t, q.links)
  {
    var w := q.links;
    var idx :| ValidIndex(t, idx) && q == Capture(t, PathOf(t, idx, src, dst, w));
    assert StepOk(t, src, Body(w), 0);
    PathLinks(t, idx, src, dst, w);
  }

  lemma ExchangedPair(t: Topology, src: DeviceId, dst: DeviceId, policy: Policy, p: FabricPath, q: FabricPath)
    returns (p': FabricPath, q': FabricPath)
    requires RouteCandidate(t, src, dst, policy, p) && RouteCandidate(t, src, dst, policy, q) && SameHops(t, p, q) && Tolerant(policy)
    ensures RouteCandidate(t, src, dst, policy, p') && RouteCandidate(t, src, dst, policy, q')
    ensures Exchanged(p, q, p', q') && p.source == q.source && p.destination == q.destination
  {
    CandidateStart(t, src, dst, policy, p);
    CandidateStart(t, src, dst, policy, q);
    p' := VariantExists(t, src, dst, policy, q, p.links[0]);
    q' := VariantExists(t, src, dst, policy, p, q.links[0]);
  }

  lemma LeadingTails(t: Topology, src: DeviceId, dst: DeviceId, policy: Policy, m: BestMeasurement, p: FabricPath, q: FabricPath)
    requires Leading(t, src, dst, policy, m, p) && Leading(t, src, dst, policy, m, q) && SameHops(t, p, q)
    requires Tolerant(policy) && DEGRADATION !in policy.factors
    ensures p.links[1..] == q.links[1..]
  {
    var p', q' := ExchangedPair(t, src, dst, policy, p, q);
    ExchangedAgree(t, m, policy.factors, Candidates(t, src, dst, policy), p, q, p', q');
  }

  /** The two paths leave the source by links of one port, of which only the first is degraded, and agree on the rest, which is not. */
  predicate SourceLinksDiffer(t: Topology, p: FabricPath, q: FabricPath) {
    && SameHops(t, p, q) && p.links[1..] == q.links[1..]
    && t.links[p.links[0]].degraded && !AnyDegraded(t, q.links)
  }

  lemma RivalsTied(t: Topology, src: DeviceId, dst: DeviceId, policy: Policy, m: BestMeasurement, p: FabricPath, q: FabricPath)
    requires Integrity(t) && Rivals(t, src, dst, policy, m, p, q)
    ensures SameHops(t, p, q) && Tolerant(policy) && DEGRADATION !in policy.factors
  {
    BestTied(t, m, policy.factors, Candidates(t, src, dst, policy), p, q);
    TiedHops(t, src, dst, policy, m, p, q);
    DegradedTolerated(t, src, dst, policy, p);
    if DEGRADATION in policy.factors {
      SameDegradation(t, m, policy.factors, p, q);
      assert false;
    }
  }

  lemma DegradedStart(t: Topology, p: seq<LinkId>, q: seq<LinkId>)
    requires |p| == |q| > 0 && p[1..] == q[1..] && AnyDegraded(t, p) && !AnyDegraded(t, q) && p[0] in t.links
    ensures t.links[p[0]].degraded
  {
    forall k | 0 < k < |p| ensures q[k] == p[k] { assert q[1..][k - 1] == p[1..][k - 1]; }
    var i :| 0 <= i < |p| && p[i] in t.links && t.links[p[i]].degraded;
  }

  /**
   On a fabric with integrity, leading candidates are rivals if and only if they leave the source by
   two links of one port, one degraded and one not, and agree on the rest, none of it degraded.
   */
  lemma RivalsAtSource(t: Topology, src: DeviceId, dst: DeviceId, policy: Policy, m: BestMeasurement, p: FabricPath, q: FabricPath)
    requires Integrity(t) && Leading(t, src, dst, policy, m, p) && Leading(t, src, dst, policy, m, q)
    ensures Rivals(t, src, dst, policy, m, p, q) <==> SourceLinksDiffer(t, p, q)
  {
    CandidateStart(t, src, dst, policy, p);
    CandidateStart(t, src, dst, policy, q);
    if Rivals(t, src, dst, policy, m, p, q) {
      RivalsTied(t, src, dst, policy, m, p, q);
      LeadingTails(t, src, dst, policy, m, p, q);
      DegradedStart(t, p.links, q.links);
    }
  }
}
