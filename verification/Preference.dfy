/**
 What each ranking factor prefers, by counting links and their marks, and what that makes
 of the path a decision selects.
 */
module Preference {
  import opened Wire
  import opened Fabric
  import opened Walks
  import opened Levels
  import opened Sorting
  import opened Shortlex
  import opened Search
  import Keys
  import opened Reach
  import opened Route
  import opened Decision
  import opened RouteLaws
  import opened RouteExact
  import opened RouteOrder
  import opened RouteAgreement
  import opened Selection
  import opened Joining

  // ----- counting links -----

  /** How many places of the walk hold a link that meets the condition. */
  ghost function Count(w: Walk, p: LinkId -> bool): nat {
    |set i | 0 <= i < |w| && p(w[i])|
  }

  lemma CountSnoc(w: Walk, l: LinkId, p: LinkId -> bool)
    ensures Count(w + [l], p) == Count(w, p) + (if p(l) then 1 else 0)
  {
    var v := w + [l];
    var was, now := set i | 0 <= i < |w| && p(w[i]), set i | 0 <= i < |v| && p(v[i]);
    forall i | 0 <= i < |w| ensures v[i] == w[i] {}
    assert |w| !in was && v[|w|] == l;
    assert now == if p(l) then was + {|w|} else was;
  }

  lemma CountNone(w: Walk, p: LinkId -> bool)
    ensures w == [] ==> Count(w, p) == 0
  {
    var places := set i | 0 <= i < |w| && p(w[i]);
    assert forall i :: i in places ==> 0 <= i < |w|;
    assert w == [] ==> places == {};
  }

  function IsMarked(t: Topology): LinkId -> bool { (l: LinkId) => l in t.links && t.links[l].degraded }
  function IsUp(t: Topology): LinkId -> bool { (l: LinkId) => l in t.links && t.links[l].state == UP }
  function IsKnown(t: Topology): LinkId -> bool { (l: LinkId) => l in t.links }

  /** The links of the walk that carry the degraded mark. */
  ghost function MarkedLinks(t: Topology, w: Walk): nat {
    Count(w, IsMarked(t))
  }

  /** One for each link of the walk, and one more for each that is UP. */
  ghost function ActiveWeight(t: Topology, w: Walk): nat {
    Count(w, IsKnown(t)) + Count(w, IsUp(t))
  }

  lemma {:induction false} DegradedCount(t: Topology, w: Walk)
    ensures DegradedLinks(t, w) == MarkedLinks(t, w) as real
  {
    if w == [] {
      CountNone(w, IsMarked(t));
    } else {
      var rest, l := w[..|w| - 1], w[|w| - 1];
      DegradedCount(t, rest);
      CountSnoc(rest, l, IsMarked(t));
      assert w == rest + [l];
    }
  }

  lemma {:induction false} ActiveCount(t: Topology, w: Walk)
    ensures 2.0 * ActiveLinks(t, w) == ActiveWeight(t, w) as real
  {
    if w == [] {
      CountNone(w, IsKnown(t));
      CountNone(w, IsUp(t));
    } else {
      var rest, l := w[..|w| - 1], w[|w| - 1];
      ActiveCount(t, rest);
      CountSnoc(rest, l, IsKnown(t));
      CountSnoc(rest, l, IsUp(t));
      assert w == rest + [l];
    }
  }

  // ----- scores -----

  predicate CountsSwitches(f: Byte) {
    f == FEWER_SWITCHES || f == FEWER_HOPS || f == DIRECTNESS || f == FAILURE_DOMAIN_DIVERSITY
  }

  /** What a factor scores a path that takes this walk; a walk has one link more than switches. */
  ghost predicate ScoreIs(f: Byte, t: Topology, m: BestMeasurement, w: Walk, v: real) {
    if CountsSwitches(f) then v == (|w| - 1) as real
    else if f == REDUNDANCY then v == (1 - |w|) as real
    else if f == MEASURED_THROUGHPUT then v == if m.has && m.throughput > 0.0 then -m.throughput else m.worst
    else if f == MEASURED_LATENCY then v == if m.has && m.latency < m.worst then m.latency else m.worst
    else if f == ACTIVE_LINK_COUNT then 2.0 * v == -(ActiveWeight(t, w) as real)
    else if f == DEGRADATION then v == if Blemished(t, w) then 1.0 else 0.0
    else if f == CONGESTION_EVIDENCE then v == MarkedLinks(t, w) as real
    else v == 0.0
  }

  lemma FactorScores(f: Byte, t: Topology, m: BestMeasurement, src: DeviceId, dst: DeviceId, p: FabricPath)
    requires Recorded(t, src, dst, p)
    ensures ScoreIs(f, t, m, p.links, FactorValue(f, p, t, m))
  {
    DegradedCount(t, p.links);
    ActiveCount(t, p.links);
  }

  /** The scores a decision reports are those of its selected path, factor by factor. */
  lemma ScoresMean(t: Topology, src: DeviceId, dst: DeviceId, policy: Policy, m: BestMeasurement, epoch: U64, d: RouteDecision, i: nat)
    requires IsDecision(t, src, dst, policy, m, epoch, d) && d.selected.Some? && i < |policy.factors|
    ensures |d.scores| == |policy.factors| && ScoreIs(policy.factors[i], t, m, d.selected.value.links, d.scores[i])
  {
    SelectedMeansAllowed(t, src, dst, policy, m, epoch, d);
    var part, raw, reach, ranked := DecisionChoices(t, src, dst, policy, m, epoch, d);
    AllowedShape(t, src, dst, policy, m, epoch, part, raw, reach, ranked, d);
    SelectedRecorded(t, src, dst, policy, m, epoch, d);
    ScoreAt(t, m, policy.factors, ranked[0], i);
    FactorScores(policy.factors[i], t, m, src, dst, ranked[0]);
  }

  lemma SelectedRecorded(t: Topology, src: DeviceId, dst: DeviceId, policy: Policy, m: BestMeasurement, epoch: U64, d: RouteDecision)
    requires IsDecision(t, src, dst, policy, m, epoch, d) && Allowed(d)
    ensures d.selected.Some? && Recorded(t, src, dst, d.selected.value)
  {
    var part, raw, ranked, best := AllowedRests(t, src, dst, policy, m, epoch, d);
    SearchSound(t, src, dst, RouteConfig(policy), raw, best);
    CaptureRecorded(t, src, dst, best);
  }

  lemma CaptureRecorded(t: Topology, src: DeviceId, dst: DeviceId, p: FabricPath)
    requires Recorded(t, src, dst, p)
    ensures Recorded(t, src, dst, Capture(t, p))
  {
    var q := Capture(t, p);
    forall i | 0 <= i < |q.hops| ensures q.switchSequence[i] == q.hops[i].sw && HopRecorded(t, q.links, i, q.hops[i]) {
      assert HopRecorded(t, p.links, i, p.hops[i]);
    }
  }

  // ----- preferences -----

  /** The factor prefers the first walk to the second. */
  ghost predicate Favours(f: Byte, t: Topology, w: Walk, v: Walk) {
    if CountsSwitches(f) then |w| < |v|
    else if f == REDUNDANCY then |w| > |v|
    else if f == ACTIVE_LINK_COUNT then ActiveWeight(t, w) > ActiveWeight(t, v)
    else if f == DEGRADATION then !Blemished(t, w) && Blemished(t, v)
    else if f == CONGESTION_EVIDENCE then MarkedLinks(t, w) < MarkedLinks(t, v)
    else false
  }

  ghost predicate Indifferent(f: Byte, t: Topology, w: Walk, v: Walk) {
    !Favours(f, t, w, v) && !Favours(f, t, v, w)
  }

  /** The first factor that is not indifferent prefers the first path. */
  ghost predicate LeadsAt(t: Topology, factors: seq<Byte>, p: FabricPath, q: FabricPath, k: nat) {
    && k < |factors| && Favours(factors[k], t, p.links, q.links)
    && forall j :: 0 <= j < k ==> Indifferent(factors[j], t, p.links, q.links)
  }

  ghost predicate AllIndifferent(t: Topology, factors: seq<Byte>, p: FabricPath, q: FabricPath) {
    forall j :: 0 <= j < |factors| ==> Indifferent(factors[j], t, p.links, q.links)
  }

  ghost predicate KeyFirst(p: FabricPath, q: FabricPath) {
    Keys.ComesBefore(CharLess, Keys.CanonicalKey(p), Keys.CanonicalKey(q))
  }

  /** Preferred by the first factor that decides, or, when none does, first by key. */
  ghost predicate RanksFirst(t: Topology, factors: seq<Byte>, p: FabricPath, q: FabricPath) {
    (exists k :: LeadsAt(t, factors, p, q, k)) || (AllIndifferent(t, factors, p, q) && KeyFirst(p, q))
  }

  lemma FactorFavours(f: Byte, t: Topology, m: BestMeasurement, src: DeviceId, dst: DeviceId, p: FabricPath, q: FabricPath)
    requires Recorded(t, src, dst, p) && Recorded(t, src, dst, q)
    ensures FactorValue(f, p, t, m) < FactorValue(f, q, t, m) <==> Favours(f, t, p.links, q.links)
  {
    FactorScores(f, t, m, src, dst, p);
    FactorScores(f, t, m, src, dst, q);
  }

  lemma RanksByFirst(t: Topology, factors: seq<Byte>, p: FabricPath, q: FabricPath)
    requires factors != []
    ensures RanksFirst(t, factors, p, q) <==>
      || Favours(factors[0], t, p.links, q.links)
      || (Indifferent(factors[0], t, p.links, q.links) && RanksFirst(t, factors[1..], p, q))
  {
    var rest := factors[1..];
    if k: nat :| LeadsAt(t, factors, p, q, k) {
      if k > 0 {
        forall j | 0 <= j < k - 1 ensures Indifferent(rest[j], t, p.links, q.links) { assert rest[j] == factors[j + 1]; }
        assert LeadsAt(t, rest, p, q, k - 1);
      }
    }
    if Favours(factors[0], t, p.links, q.links) { assert LeadsAt(t, factors, p, q, 0); return; }
    if Indifferent(factors[0], t, p.links, q.links) {
      if k: nat :| LeadsAt(t, rest, p, q, k) {
        forall j | 0 <= j < k + 1 ensures Indifferent(factors[j], t, p.links, q.links) { if j > 0 { assert factors[j] == rest[j - 1]; } }
        assert LeadsAt(t, factors, p, q, k + 1);
      }
      assert AllIndifferent(t, factors, p, q) <==> AllIndifferent(t, rest, p, q) by {
        if AllIndifferent(t, rest, p, q) {
          forall j | 0 <= j < |factors| ensures Indifferent(factors[j], t, p.links, q.links) { if j > 0 { assert factors[j] == rest[j - 1]; } }
        }
      }
    }
  }

  lemma RanksByKey(t: Topology, p: FabricPath, q: FabricPath)
    ensures RanksFirst(t, [], p, q) <==> KeyBefore(p, q)
  {
    Keys.StrLessMeans(CharLess, Keys.CanonicalKey(p), Keys.CanonicalKey(q));
  }

  /** Ranking compares two paths by what their links are, factor by factor and then by key. */
  lemma {:induction false} BetterMeans(t: Topology, m: BestMeasurement, factors: seq<Byte>, src: DeviceId, dst: DeviceId, p: FabricPath, q: FabricPath)
    requires Recorded(t, src, dst, p) && Recorded(t, src, dst, q)
    ensures Better(t, m, factors, p, q) <==> RanksFirst(t, factors, p, q)
    decreases |factors|
  {
    if factors == [] {
      RanksByKey(t, p, q);
    } else {
      BetterMeans(t, m, factors[1..], src, dst, p, q);
      RanksByFirst(t, factors, p, q);
      FactorFavours(factors[0], t, m, src, dst, p, q);
      FactorFavours(factors[0], t, m, src, dst, q, p);
    }
  }

  lemma {:induction false} TiedMeans(t: Topology, m: BestMeasurement, factors: seq<Byte>, src: DeviceId, dst: DeviceId, p: FabricPath, q: FabricPath)
    requires Recorded(t, src, dst, p) && Recorded(t, src, dst, q)
    ensures Scores(t, m, factors, p) == Scores(t, m, factors, q) <==> AllIndifferent(t, factors, p, q)
    decreases |factors|
  {
    if factors != [] {
      var a, b := Scores(t, m, factors, p), Scores(t, m, factors, q);
      TiedMeans(t, m, factors[1..], src, dst, p, q);
      FactorFavours(factors[0], t, m, src, dst, p, q);
      FactorFavours(factors[0], t, m, src, dst, q, p);
      assert a[1..] == Scores(t, m, factors[1..], p) && b[1..] == Scores(t, m, factors[1..], q);
      assert AllIndifferent(t, factors, p, q) <==> Indifferent(factors[0], t, p.links, q.links) && AllIndifferent(t, factors[1..], p, q) by {
        if Indifferent(factors[0], t, p.links, q.links) && AllIndifferent(t, factors[1..], p, q) {
          forall j | 0 <= j < |factors| ensures Indifferent(factors[j], t, p.links, q.links) { if j > 0 { assert factors[j] == factors[1..][j - 1]; } }
        }
      }
    }
  }

  // ----- candidates -----

  /** The generation of every switch and port of the path, as the snapshot has them. */
  predicate GensCaptured(t: Topology, p: FabricPath) {
    && (forall g :: g in p.switchGens ==> g.0 in p.switchSequence && g.0 in t.switches && g.1 == t.switches[g.0].gen)
    && (forall i :: 0 <= i < |p.switchSequence| && p.switchSequence[i] in t.switches ==>
          (p.switchSequence[i], t.switches[p.switchSequence[i]].gen) in p.switchGens)
    && (forall g :: g in p.portGens ==> PathPort(p.hops, g.0) && g.0 in t.ports && g.1 == t.ports[g.0].gen)
    && (forall i :: 0 <= i < |p.hops| && p.hops[i].outPort in t.ports ==> (p.hops[i].outPort, t.ports[p.hops[i].outPort].gen) in p.portGens)
    && (forall i :: 0 <= i < |p.hops| && p.hops[i].inPort != UNKNOWN_PORT && p.hops[i].inPort in t.ports ==>
          (p.hops[i].inPort, t.ports[p.hops[i].inPort].gen) in p.portGens)
  }

  lemma CaptureCaptures(t: Topology, p: FabricPath)
    ensures GensCaptured(t, Capture(t, p))
  {
    var q := Capture(t, p);
    forall i | 0 <= i < |q.hops| ensures PathPort(q.hops, q.hops[i].outPort) && (q.hops[i].inPort != UNKNOWN_PORT ==> PathPort(q.hops, q.hops[i].inPort)) {}
  }

  /** A candidate is the recorded path of a walk that joins the devices within the policy's depth and clears its filters. */
  lemma CandidateMeans(t: Topology, src: DeviceId, dst: DeviceId, policy: Policy, q: FabricPath)
    requires RouteCandidate(t, src, dst, policy, q)
    ensures Recorded(t, src, dst, q) && GensCaptured(t, q)
    ensures Joins(t, src, dst, HopBound(policy), q.links) && Clears(t, policy, q.links)
  {
    var idx :| ValidIndex(t, idx) && q == Capture(t, PathOf(t, idx, src, dst, q.links));
    AdmissibleMeans(t, idx, src, dst, policy, q.links);
    PathRecords(t, idx, src, dst, q.links);
    CaptureRecorded(t, src, dst, PathOf(t, idx, src, dst, q.links));
    CaptureCaptures(t, PathOf(t, idx, src, dst, q.links));
  }

  /** And every such walk has one. */
  lemma CandidateExists(t: Topology, idx: Index, src: DeviceId, dst: DeviceId, policy: Policy, w: Walk)
    requires ValidIndex(t, idx) && Joins(t, src, dst, HopBound(policy), w) && Clears(t, policy, w)
    ensures exists q :: RouteCandidate(t, src, dst, policy, q) && q.links == w
  {
    AdmissibleMeans(t, idx, src, dst, policy, w);
    CandidateOf(t, idx, src, dst, policy, w);
  }

  // ----- the selected path -----

  /** An allowed decision lists as candidates exactly the candidates within reach. */
  lemma CandidatesListed(t: Topology, src: DeviceId, dst: DeviceId, policy: Policy, m: BestMeasurement, epoch: U64,
                         seeds: seq<LinkId>, d: RouteDecision, q: FabricPath)
    requires DecidedFrom(t, src, dst, policy, m, epoch, seeds, d) && Allowed(d)
    ensures q in d.candidatePaths <==> InReach(t, src, dst, policy, seeds, q)
  {
    var part, idx, raw, reach, ranked := AllowedFromSome(t, src, dst, policy, m, epoch, seeds, d);
    EligibleInReach(t, src, dst, policy, idx, seeds, raw, q);
    SameElements(Eligible(t, policy, raw), ranked);
  }

  lemma AllowedFromSome(t: Topology, src: DeviceId, dst: DeviceId, policy: Policy, m: BestMeasurement, epoch: U64, seeds: seq<LinkId>, d: RouteDecision)
    returns (part: Option<PartitionId>, idx: Index, raw: seq<FabricPath>, reach: Reachability, ranked: seq<FabricPath>)
    requires DecidedFrom(t, src, dst, policy, m, epoch, seeds, d) && Allowed(d)
    ensures Searchable(t, src, dst, RouteConfig(policy)) && Enumerates(t, idx, src, dst, seeds, RouteConfig(policy), raw)
    ensures IsRanking(t, m, policy.factors, Eligible(t, policy, raw), ranked) && ranked != []
    ensures d.candidatePaths == ranked && d.selected == Some(ranked[0])
  {
    part, raw, reach, ranked :| DecidedBy(t, src, dst, policy, m, epoch, seeds, part, raw, reach, ranked, d);
    AllowedShape(t, src, dst, policy, m, epoch, part, raw, reach, ranked, d);
    idx := SomeIndex(t, src, dst, RouteConfig(policy), seeds, raw);
  }

  lemma SelectedIsAllowed(t: Topology, src: DeviceId, dst: DeviceId, policy: Policy, m: BestMeasurement, epoch: U64,
                          seeds: seq<LinkId>, d: RouteDecision)
    requires DecidedFrom(t, src, dst, policy, m, epoch, seeds, d) && d.selected.Some?
    ensures Allowed(d)
  {
    var part, raw, reach, ranked :| DecidedBy(t, src, dst, policy, m, epoch, seeds, part, raw, reach, ranked, d);
    SelectedIffAllowed(t, src, dst, policy, m, epoch, part, raw, reach, ranked);
  }

  lemma SelectedIsChosen(t: Topology, src: DeviceId, dst: DeviceId, policy: Policy, m: BestMeasurement, epoch: U64,
                         seeds: seq<LinkId>, d: RouteDecision, p: FabricPath)
    requires DecidedFrom(t, src, dst, policy, m, epoch, seeds, d) && d.selected == Some(p) && Allowed(d)
    ensures Chosen(t, src, dst, policy, m, seeds, p)
  {
    var part, idx, raw, reach, ranked := AllowedFromSome(t, src, dst, policy, m, epoch, seeds, d);
    FrontIsChosen(t, src, dst, policy, m, idx, seeds, raw, ranked);
  }

  lemma SelectedOutranks(t: Topology, src: DeviceId, dst: DeviceId, policy: Policy, m: BestMeasurement, epoch: U64,
                         seeds: seq<LinkId>, d: RouteDecision, p: FabricPath, q: FabricPath)
    requires DecidedFrom(t, src, dst, policy, m, epoch, seeds, d) && d.selected == Some(p)
    requires InReach(t, src, dst, policy, seeds, q) && q != p
    ensures InReach(t, src, dst, policy, seeds, p) && Outranks(t, m, policy.factors, seeds, p, q)
  {
    SelectedIsAllowed(t, src, dst, policy, m, epoch, seeds, d);
    SelectedIsChosen(t, src, dst, policy, m, epoch, seeds, d, p);
  }

  /** Ranked before, or told apart by neither factor nor key and earlier in the search. */
  ghost predicate ComesFirst(t: Topology, policy: Policy, seeds: seq<LinkId>, p: FabricPath, q: FabricPath) {
    || RanksFirst(t, policy.factors, p, q)
    || (AllIndifferent(t, policy.factors, p, q) && Keys.CanonicalKey(p) == Keys.CanonicalKey(q) && Before(t, seeds, p.links, q.links))
  }

  lemma OutranksMeans(t: Topology, src: DeviceId, dst: DeviceId, policy: Policy, m: BestMeasurement, seeds: seq<LinkId>, p: FabricPath, q: FabricPath)
    requires RouteCandidate(t, src, dst, policy, p) && RouteCandidate(t, src, dst, policy, q)
    ensures Outranks(t, m, policy.factors, seeds, p, q) <==> ComesFirst(t, policy, seeds, p, q)
  {
    CandidateMeans(t, src, dst, policy, p);
    CandidateMeans(t, src, dst, policy, q);
    BetterMeans(t, m, policy.factors, src, dst, p, q);
    TiedMeans(t, m, policy.factors, src, dst, p, q);
  }

  /**
   On every fabric and under every policy: the selected path ranks before every other candidate
   within reach, or no factor and no key tells the two apart and the search came to it first.
   */
  lemma SelectedComesFirst(t: Topology, src: DeviceId, dst: DeviceId, policy: Policy, m: BestMeasurement, epoch: U64,
                           seeds: seq<LinkId>, d: RouteDecision, p: FabricPath, q: FabricPath)
    requires DecidedFrom(t, src, dst, policy, m, epoch, seeds, d) && d.selected == Some(p)
    requires InReach(t, src, dst, policy, seeds, q) && q != p
    ensures InReach(t, src, dst, policy, seeds, p) && ComesFirst(t, policy, seeds, p, q)
  {
    SelectedOutranks(t, src, dst, policy, m, epoch, seeds, d, p, q);
    OutranksMeans(t, src, dst, policy, m, seeds, p, q);
  }

  lemma FirstIsNotBeaten(t: Topology, factors: seq<Byte>, p: FabricPath, q: FabricPath, k: nat)
    requires RanksFirst(t, factors, p, q) || AllIndifferent(t, factors, p, q)
    requires k < |factors| && forall j :: 0 <= j < k ==> Indifferent(factors[j], t, p.links, q.links)
    ensures !Favours(factors[k], t, q.links, p.links)
  {
    if i: nat :| LeadsAt(t, factors, p, q, i) {
      if i > k { assert Indifferent(factors[k], t, p.links, q.links); }
    } else {
      assert Indifferent(factors[k], t, p.links, q.links);
    }
  }

  /** By this factor the second walk has nothing over the first. */
  ghost predicate NoBetter(f: Byte, t: Topology, w: Walk, v: Walk) {
    && (CountsSwitches(f) ==> |w| <= |v|)
    && (f == REDUNDANCY ==> |w| >= |v|)
    && (f == ACTIVE_LINK_COUNT ==> ActiveWeight(t, w) >= ActiveWeight(t, v))
    && (f == DEGRADATION ==> (Blemished(t, w) ==> Blemished(t, v)))
    && (f == CONGESTION_EVIDENCE ==> MarkedLinks(t, w) <= MarkedLinks(t, v))
  }

  lemma NotFavoured(f: Byte, t: Topology, w: Walk, v: Walk)
    ensures !Favours(f, t, v, w) ==> NoBetter(f, t, w, v)
  {}

  /**
   What each factor does to the selection: where the factors before it are indifferent, no other
   candidate within reach has fewer switches, more switches under redundancy, more active weight, a
   clean path against a degraded one, or fewer marked links than the selected path.
   */
  lemma FactorDecides(t: Topology, src: DeviceId, dst: DeviceId, policy: Policy, m: BestMeasurement, epoch: U64,
                      seeds: seq<LinkId>, d: RouteDecision, p: FabricPath, q: FabricPath, k: nat)
    requires DecidedFrom(t, src, dst, policy, m, epoch, seeds, d) && d.selected == Some(p)
    requires InReach(t, src, dst, policy, seeds, q)
    requires k < |policy.factors| && forall j :: 0 <= j < k ==> Indifferent(policy.factors[j], t, p.links, q.links)
    ensures NoBetter(policy.factors[k], t, p.links, q.links)
  {
    if q != p {
      SelectedComesFirst(t, src, dst, policy, m, epoch, seeds, d, p, q);
      FirstIsNotBeaten(t, policy.factors, p, q, k);
    }
    NotFavoured(policy.factors[k], t, p.links, q.links);
  }

  /** Ranked before, or told apart by neither factor nor key and ahead by length, port and link. */
  ghost predicate Wins(t: Topology, policy: Policy, p: FabricPath, q: FabricPath) {
    || RanksFirst(t, policy.factors, p, q)
    || (AllIndifferent(t, policy.factors, p, q) && Keys.CanonicalKey(p) == Keys.CanonicalKey(q) && Ahead(t, p.links, q.links))
  }

  lemma WinsMeans(t: Topology, src: DeviceId, dst: DeviceId, policy: Policy, m: BestMeasurement, p: FabricPath, q: FabricPath)
    requires RouteCandidate(t, src, dst, policy, p) && RouteCandidate(t, src, dst, policy, q)
    ensures Wins(t, policy, p, q) <==>
      Better(t, m, policy.factors, p, q) || (Tied(t, m, policy.factors, p, q) && Ahead(t, p.links, q.links))
  {
    CandidateMeans(t, src, dst, policy, p);
    CandidateMeans(t, src, dst, policy, q);
    BetterMeans(t, m, policy.factors, src, dst, p, q);
    TiedMeans(t, m, policy.factors, src, dst, p, q);
  }

  /**
   With the source singly attached, exactly: once the gates are open and a search is possible, the
   selected path is the candidate within reach that wins against every other.
   */
  lemma SelectedWins(t: Topology, src: DeviceId, dst: DeviceId, policy: Policy, m: BestMeasurement, epoch: U64,
                     d: RouteDecision, part: Option<PartitionId>, q: FabricPath)
    requires IsDecision(t, src, dst, policy, m, epoch, d) && LastHolding(t, {src, dst}, part) && SinglyAttached(t, src)
    ensures d.selected == Some(q) <==>
      && GatesOpen(t, src, dst, policy, part) && Searchable(t, src, dst, RouteConfig(policy))
      && Near(t, src, dst, policy, q) && forall p :: Near(t, src, dst, policy, p) && p != q ==> Wins(t, policy, q, p)
  {
    SelectedExactly(t, src, dst, policy, m, epoch, d, part, q);
    if Near(t, src, dst, policy, q) {
      forall p | Near(t, src, dst, policy, p) && p != q
        ensures Wins(t, policy, q, p) <==>
          Better(t, m, policy.factors, q, p) || (Tied(t, m, policy.factors, q, p) && Ahead(t, q.links, p.links))
      {
        WinsMeans(t, src, dst, policy, m, q, p);
      }
    }
  }
}
