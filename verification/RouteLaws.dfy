/** What route decisions guarantee: optimality, fresh authority, agreement with reachability. */
module RouteLaws {
  import opened Wire
  import opened Fabric
  import opened Walks
  import opened Levels
  import opened Search
  import opened Keys
  import opened Reach
  import opened Route
  import opened Decision

  // ----- the shape of an enumerated path -----

  lemma EnumeratedPath(t: Topology, src: DeviceId, dst: DeviceId, cfg: Config, ps: seq<FabricPath>, p: FabricPath)
    returns (idx: Index, w: Walk)
    requires Searchable(t, src, dst, cfg) && Searched(t, src, dst, cfg, ps) && p in ps
    ensures ValidIndex(t, idx) && Target(t, src, dst, Depth(cfg), w)
    ensures Linked(t, w) && p == PathOf(t, idx, src, dst, w) && p.links == w
  {
    var i :| 0 <= i < |ps| && ps[i] == p;
    assert PathFor(t, src, dst, Depth(cfg), ps[i]);
    w := p.links;
    idx :| ValidIndex(t, idx) && p == PathOf(t, idx, src, dst, w);
  }

  lemma PathLinks(t: Topology, idx: Index, src: DeviceId, dst: DeviceId, w: Walk)
    requires |w| >= 2 && Linked(t, w)
    ensures PathOf(t, idx, src, dst, w).links == w
  {
    assert w == Body(w) + [Last(w)];
  }

  predicate TracedHop(t: Topology, idx: Index, w: Walk, i: nat, h: PathHop)
    requires i < |w| && Linked(t, w)
  {
    && h.sw == Enters(t, w, i)
    && h.inPort == (if i == 0 then t.links[w[0]].port
                    else ReversePort(EdgesAt(idx, Enters(t, w, i)), Enters(t, w, i - 1)))
    && (i + 1 < |w| ==> h.outPort == t.links[w[i + 1]].port && h.exitToSwitch && !h.exitToDevice)
    && (i + 1 == |w| ==> !h.exitToSwitch && !h.exitToDevice)
  }

  lemma EntersPrefix(t: Topology, w: Walk, i: nat)
    requires i + 1 < |w|
    ensures Enters(t, Body(w), i) == Enters(t, w, i)
    ensures i > 0 ==> Enters(t, Body(w), i - 1) == Enters(t, w, i - 1)
  {}

  /** Advancing fills in the exit of the last hop and appends the next one. */
  lemma AdvanceHops(t: Topology, idx: Index, w: Walk)
    requires |w| > 1 && Linked(t, w)
    ensures var hs, prev, n := Trace(t, idx, w).hops, Trace(t, idx, Body(w)).hops, |w| - 1;
      && (forall i :: 0 <= i < n - 1 ==> hs[i] == prev[i])
      && hs[n - 1] == prev[n - 1].(outPort := t.links[w[n]].port, exitToSwitch := true)
      && hs[n] == PathHop(t.links[w[n]].otherEnd.sw,
                          ReversePort(EdgesAt(idx, t.links[w[n]].otherEnd.sw), Enters(t, Body(w), n - 1)), NO_PORT, false, false)
  {
    TraceSwitches(t, idx, Body(w));
  }

  lemma {:induction false} TraceHops(t: Topology, idx: Index, w: Walk, i: nat)
    requires i < |w| && Linked(t, w)
    ensures TracedHop(t, idx, w, i, Trace(t, idx, w).hops[i])
  {
    if |w| > 1 {
      AdvanceHops(t, idx, w);
      EntersPrefix(t, w, |w| - 2);
      if i + 1 < |w| {
        TraceHops(t, idx, Body(w), i);
        EntersPrefix(t, w, i);
      }
    }
  }

  /** A path's hops: one per switch, leaving by the port of the next link. */
  predicate PathHopOk(t: Topology, idx: Index, w: Walk, i: nat, h: PathHop)
    requires i + 1 < |w| && Linked(t, w)
  {
    && h.sw == Enters(t, w, i)
    && h.outPort == t.links[w[i + 1]].port
    && h.inPort == (if i == 0 then t.links[w[0]].port
                    else ReversePort(EdgesAt(idx, Enters(t, w, i)), Enters(t, w, i - 1)))
    && (h.exitToDevice <==> i + 2 == |w|) && (h.exitToSwitch <==> i + 2 < |w|)
  }

  lemma PathHops(t: Topology, idx: Index, src: DeviceId, dst: DeviceId, w: Walk, i: nat)
    requires i + 1 < |w| && Linked(t, w)
    ensures var p := PathOf(t, idx, src, dst, w);
      && |p.hops| == |w| - 1 && p.switchSequence == Switches(t, Body(w))
      && PathHopOk(t, idx, w, i, p.hops[i])
  {
    var b := Body(w);
    TraceSwitches(t, idx, b);
    TraceHops(t, idx, b, i);
    assert Enters(t, b, i) == Enters(t, w, i) && (i > 0 ==> Enters(t, b, i - 1) == Enters(t, w, i - 1));
  }

  lemma PathSize(t: Topology, idx: Index, src: DeviceId, dst: DeviceId, w: Walk)
    requires |w| >= 2 && Linked(t, w)
    ensures var p := PathOf(t, idx, src, dst, w); |p.hops| == |p.switchSequence| == Hops(w) && p.switchSequence == Switches(t, Body(w))
  {
    PathHops(t, idx, src, dst, w, 0);
  }

  lemma {:induction false} TraceUnique(t: Topology, a: Index, b: Index, w: Walk)
    requires |w| > 0 && Linked(t, w) && ValidIndex(t, a) && ValidIndex(t, b)
    ensures Trace(t, a, w) == Trace(t, b, w)
  {
    if |w| > 1 {
      TraceUnique(t, a, b, Body(w));
      IndexUnique(t, a, b, EdgeOf(t, Last(w)).other.sw);
    }
  }

  lemma PathUnique(t: Topology, a: Index, b: Index, src: DeviceId, dst: DeviceId, w: Walk)
    requires ValidIndex(t, a) && ValidIndex(t, b) && |w| >= 2 && Linked(t, w)
    ensures PathOf(t, a, src, dst, w) == PathOf(t, b, src, dst, w)
  {
    TraceUnique(t, a, b, Body(w));
  }

  // ----- keys identify enumerated paths -----

  lemma {:induction false} ReversePortLocal(t: Topology, idx: Index, edges: seq<Edge>, s: SwitchId, back: SwitchId)
    requires Integrity(t) && forall e :: e in edges ==> Describes(t, s, e)
    ensures var p := ReversePort(edges, back); p == UNKNOWN_PORT || p.sw == s
  {
    if edges != [] {
      assert edges[0] in edges && LinkSound(t, t.links[edges[0].link]);
      ReversePortLocal(t, idx, edges[1..], s, back);
    }
  }

  lemma ExitRooted(t: Topology, src: DeviceId, dst: DeviceId, w: Walk, i: nat)
    requires IsWalk(t, src, dst, w) && i + 1 < |w|
    ensures Usable(t, w[i + 1]) && RootedAt(t, w[i + 1], Enters(t, w, i))
  {
    var b := Body(w);
    EntersPrefix(t, w, i);
    if i + 1 < |b| { assert StepOk(t, src, b, i + 1); }
  }

  lemma HopsRecorded(t: Topology, idx: Index, src: DeviceId, dst: DeviceId, w: Walk, i: nat, h: PathHop)
    requires Integrity(t) && ValidIndex(t, idx) && IsWalk(t, src, dst, w) && Linked(t, w)
    requires i + 1 < |w| && PathHopOk(t, idx, w, i, h)
    ensures Recorded(h)
  {
    ExitRooted(t, src, dst, w, i);
    assert LinkSound(t, t.links[w[i + 1]]);
    var s := Enters(t, w, i);
    if i > 0 { ReversePortLocal(t, idx, EdgesAt(idx, s), s, Enters(t, w, i - 1)); }
  }

  /** Two enumerated paths have equal keys exactly when they have equal endpoints and hops. */
  lemma EnumeratedKeys(t: Topology, src: DeviceId, dst: DeviceId, cfg: Config, ps: seq<FabricPath>,
                       src': DeviceId, dst': DeviceId, cfg': Config, qs: seq<FabricPath>, p: FabricPath, q: FabricPath)
    requires Integrity(t)
    requires Searchable(t, src, dst, cfg) && Searched(t, src, dst, cfg, ps) && p in ps
    requires Searchable(t, src', dst', cfg') && Searched(t, src', dst', cfg', qs) && q in qs
    ensures CanonicalKey(p) == CanonicalKey(q) <==> src == src' && dst == dst' && p.hops == q.hops
  {
    PathRecorded(t, src, dst, cfg, ps, p);
    PathRecorded(t, src', dst', cfg', qs, q);
    assert forall h :: h in p.hops + q.hops ==> h in p.hops || h in q.hops;
    KeyIdentifiesPath(p, q);
  }

  lemma PathRecorded(t: Topology, src: DeviceId, dst: DeviceId, cfg: Config, ps: seq<FabricPath>, p: FabricPath)
    requires Integrity(t) && Searchable(t, src, dst, cfg) && Searched(t, src, dst, cfg, ps) && p in ps
    ensures p.source == src && p.destination == dst && forall h :: h in p.hops ==> Recorded(h)
  {
    var idx, w := EnumeratedPath(t, src, dst, cfg, ps, p);
    PathSize(t, idx, src, dst, w);
    forall i | 0 <= i < |p.hops| ensures Recorded(p.hops[i]) {
      PathHops(t, idx, src, dst, w, i);
      HopsRecorded(t, idx, src, dst, w, i, p.hops[i]);
    }
  }

  // ----- optimality despite truncation -----

  lemma FewerSwitchesFirst(t: Topology, m: BestMeasurement, factors: seq<Byte>, p: FabricPath, q: FabricPath)
    requires factors != [] && factors[0] == FEWER_SWITCHES && RankLeq(t, m, factors, p, q)
    ensures |p.hops| <= |q.hops|
  {}

  /**
   When FEWER_SWITCHES ranks first, the selected path has the fewest switches of all
   eligible paths within the depth bound, listed by the bounded search or not.
   */
  lemma OptimalDespiteTruncation(t: Topology, src: DeviceId, dst: DeviceId, policy: Policy, m: BestMeasurement, epoch: U64,
                                 d: RouteDecision, idx: Index, w: Walk)
    requires IsDecision(t, src, dst, policy, m, epoch, d) && d.selected.Some?
    requires policy.factors != [] && policy.factors[0] == FEWER_SWITCHES
    requires ValidIndex(t, idx) && Target(t, src, dst, RouteConfig(policy).maxDepth, w) && Linked(t, w)
    requires PathEligible(t, policy, PathOf(t, idx, src, dst, w))
    ensures |d.selected.value.switchSequence| <= Hops(w)
  {
    SelectedMeansAllowed(t, src, dst, policy, m, epoch, d);
    var cfg := RouteConfig(policy);
    var part, raw, ranked, best := AllowedRests(t, src, dst, policy, m, epoch, d);
    var idx', v := EnumeratedPath(t, src, dst, cfg, raw, best);
    PathSize(t, idx', src, dst, v);
    if Listed(raw, w) {
      var i :| 0 <= i < |raw| && raw[i].links == w;
      ListedBeaten(t, src, dst, policy, m, raw, ranked, best, idx, w, raw[i]);
    } else {
      assert CutOff(cfg, raw, w);
    }
  }

  lemma ListedBeaten(t: Topology, src: DeviceId, dst: DeviceId, policy: Policy, m: BestMeasurement, raw: seq<FabricPath>,
                     ranked: seq<FabricPath>, best: FabricPath, idx: Index, w: Walk, p: FabricPath)
    requires Searchable(t, src, dst, RouteConfig(policy)) && Searched(t, src, dst, RouteConfig(policy), raw)
    requires IsRanking(t, m, policy.factors, Eligible(t, policy, raw), ranked) && ranked != [] && ranked[0] == Capture(t, best)
    requires policy.factors != [] && policy.factors[0] == FEWER_SWITCHES
    requires ValidIndex(t, idx) && |w| >= 2 && Linked(t, w) && PathEligible(t, policy, PathOf(t, idx, src, dst, w))
    requires p in raw && p.links == w
    ensures |best.hops| <= Hops(w)
  {
    SamePath(t, src, dst, RouteConfig(policy), raw, idx, w, p);
    FrontBeats(t, policy, m, raw, ranked, best, p);
  }

  lemma SamePath(t: Topology, src: DeviceId, dst: DeviceId, cfg: Config, raw: seq<FabricPath>, idx: Index, w: Walk, p: FabricPath)
    requires Searchable(t, src, dst, cfg) && Searched(t, src, dst, cfg, raw)
    requires ValidIndex(t, idx) && |w| >= 2 && Linked(t, w)
    requires p in raw && p.links == w
    ensures p == PathOf(t, idx, src, dst, w) && |p.hops| == Hops(w)
  {
    var idx', v := EnumeratedPath(t, src, dst, cfg, raw, p);
    TraceUnique(t, idx, idx', Body(w));
    PathSize(t, idx, src, dst, w);
  }

  lemma FrontBeats(t: Topology, policy: Policy, m: BestMeasurement, raw: seq<FabricPath>, ranked: seq<FabricPath>,
                   best: FabricPath, p: FabricPath)
    requires IsRanking(t, m, policy.factors, Eligible(t, policy, raw), ranked) && ranked != [] && ranked[0] == Capture(t, best)
    requires policy.factors != [] && policy.factors[0] == FEWER_SWITCHES
    requires p in raw && PathEligible(t, policy, p)
    ensures |best.hops| <= |p.hops|
  {
    EligibleExact(t, policy, raw, Capture(t, p));
    FrontIsBest(t, m, policy.factors, Eligible(t, policy, raw), ranked);
    FewerSwitchesFirst(t, m, policy.factors, ranked[0], Capture(t, p));
  }

  lemma SelectedMeansAllowed(t: Topology, src: DeviceId, dst: DeviceId, policy: Policy, m: BestMeasurement, epoch: U64, d: RouteDecision)
    requires IsDecision(t, src, dst, policy, m, epoch, d)
    ensures d.selected.Some? <==> Allowed(d)
  {
    var part, raw, reach, ranked := DecisionChoices(t, src, dst, policy, m, epoch, d);
    SelectedIffAllowed(t, src, dst, policy, m, epoch, part, raw, reach, ranked);
  }

  /** The path bound wraps: a policy that allows 2^64-1 hops never gets a route. */
  lemma UnlimitedHopsNeverRoute(t: Topology, src: DeviceId, dst: DeviceId, policy: Policy, m: BestMeasurement, epoch: U64, d: RouteDecision)
    requires IsDecision(t, src, dst, policy, m, epoch, d) && policy.maxAllowedHops == U64_MAX
    ensures !Allowed(d)
  {
    if Allowed(d) {
      var part, raw, ranked, best := AllowedRests(t, src, dst, policy, m, epoch, d);
    }
  }

  // ----- fresh authority -----

  predicate InboundUsable(t: Topology, p: FabricPath) {
    forall i :: 0 <= i < |p.hops| && p.hops[i].inPort != UNKNOWN_PORT ==>
      p.hops[i].inPort in t.ports && Traversable(t.ports[p.hops[i].inPort].state)
  }

  predicate SwitchesUsable(t: Topology, p: FabricPath) {
    forall i :: 0 <= i < |p.switchSequence| ==>
      p.switchSequence[i] in t.switches && Traversable(t.switches[p.switchSequence[i]].state)
  }

  predicate OutboundUsable(t: Topology, p: FabricPath) {
    forall i :: 0 <= i < |p.hops| ==> p.hops[i].outPort in t.ports && Traversable(t.ports[p.hops[i].outPort].state)
  }

  /** Every exit of an enumerated path is through a usable port. */
  lemma ExitsUsable(t: Topology, src: DeviceId, dst: DeviceId, cfg: Config, raw: seq<FabricPath>, p: FabricPath)
    requires Searchable(t, src, dst, cfg) && Searched(t, src, dst, cfg, raw) && p in raw
    ensures OutboundUsable(t, p)
  {
    var idx, w := EnumeratedPath(t, src, dst, cfg, raw, p);
    PathSize(t, idx, src, dst, w);
    forall i | 0 <= i < |p.hops| ensures p.hops[i].outPort in t.ports && Traversable(t.ports[p.hops[i].outPort].state) {
      PathHops(t, idx, src, dst, w, i);
      ExitRooted(t, src, dst, w, i);
    }
  }

  lemma CapturedPortsHold(t: Topology, p: FabricPath)
    requires OutboundUsable(t, p) && forall i :: 0 <= i < |p.hops| ==> HopFresh(t, p.hops[i])
    ensures (forall g :: g in PortGens(t, p.hops) ==> PortHolds(t, g)) <==> InboundUsable(t, p)
  {
    if InboundUsable(t, p) {
      forall g | g in PortGens(t, p.hops) ensures PortHolds(t, g) {
        assert PathPort(p.hops, g.0);
      }
    }
    if forall g :: g in PortGens(t, p.hops) ==> PortHolds(t, g) {
      forall i | 0 <= i < |p.hops| && p.hops[i].inPort != UNKNOWN_PORT
        ensures p.hops[i].inPort in t.ports && Traversable(t.ports[p.hops[i].inPort].state)
      {
        assert HopFresh(t, p.hops[i]) && PathPort(p.hops, p.hops[i].inPort);
        assert (p.hops[i].inPort, t.ports[p.hops[i].inPort].gen) in PortGens(t, p.hops);
      }
    }
  }

  lemma CapturedSwitchesHold(t: Topology, p: FabricPath)
    requires SwitchesCurrent(t, p)
    ensures (forall g :: g in SwitchGens(t, p.switchSequence) ==> SwitchHolds(t, g)) <==> SwitchesUsable(t, p)
  {
    if forall g :: g in SwitchGens(t, p.switchSequence) ==> SwitchHolds(t, g) {
      forall i | 0 <= i < |p.switchSequence|
        ensures p.switchSequence[i] in t.switches && Traversable(t.switches[p.switchSequence[i]].state)
      {
        assert (p.switchSequence[i], t.switches[p.switchSequence[i]].gen) in SwitchGens(t, p.switchSequence);
      }
    }
  }

  /** The checks an allowed decision passes on its own snapshot, and the two that are left. */
  ghost predicate Captured(t: Topology, best: FabricPath, d: RouteDecision) {
    && Allowed(d) && d.selected == Some(Capture(t, best))
    && EndpointUsable(t, d.source) && EndpointUsable(t, d.destination)
    && (d.partition.Some? ==> PartitionHolds(t, d.partition.value, d.partitionGen))
    && ((forall g :: g in PortGens(t, best.hops) ==> PortHolds(t, g)) <==> InboundUsable(t, best))
    && ((forall g :: g in SwitchGens(t, best.switchSequence) ==> SwitchHolds(t, g)) <==> SwitchesUsable(t, best))
  }

  lemma AllowedCaptures(t: Topology, src: DeviceId, dst: DeviceId, policy: Policy, m: BestMeasurement, epoch: U64, d: RouteDecision)
    returns (best: FabricPath)
    requires IsDecision(t, src, dst, policy, m, epoch, d) && Allowed(d)
    ensures Captured(t, best, d) && d.epoch == epoch
  {
    var part, raw, ranked;
    part, raw, ranked, best := AllowedRests(t, src, dst, policy, m, epoch, d);
    ExitsUsable(t, src, dst, RouteConfig(policy), raw, best);
    CapturedPortsHold(t, best);
    CapturedSwitchesHold(t, best);
  }

  lemma AuthorityReduces(t: Topology, best: FabricPath, d: RouteDecision)
    requires Captured(t, best, d)
    ensures StillAuthoritative(d, t) <==>
      d.epoch == t.epoch && SwitchesUsable(t, d.selected.value) && InboundUsable(t, d.selected.value)
  {
    var p := d.selected.value;
    assert p.hops == best.hops && p.switchSequence == best.switchSequence;
    assert SwitchesUsable(t, p) <==> SwitchesUsable(t, best);
    assert InboundUsable(t, p) <==> InboundUsable(t, best);
  }

  /**
   A fresh allowed decision is authoritative on the snapshot it was made on exactly when
   the epoch matches and its switches and recorded inbound ports are UP or DEGRADED:
   every other check follows from how the decision was made.
   */
  lemma FreshAuthority(t: Topology, src: DeviceId, dst: DeviceId, policy: Policy, m: BestMeasurement, epoch: U64, d: RouteDecision)
    requires IsDecision(t, src, dst, policy, m, epoch, d) && Allowed(d)
    ensures d.selected.Some?
    ensures StillAuthoritative(d, t) <==>
      epoch == t.epoch && SwitchesUsable(t, d.selected.value) && InboundUsable(t, d.selected.value)
  {
    var best := AllowedCaptures(t, src, dst, policy, m, epoch, d);
    AuthorityReduces(t, best, d);
  }

  // ----- agreement with reachability -----

  /** An allowed route is reachable unless the endpoints' last live partitions differ. */
  lemma RouteAgreesWithReachability(t: Topology, src: DeviceId, dst: DeviceId, policy: Policy, m: BestMeasurement, epoch: U64,
                                    d: RouteDecision, r: Reachability, sp: Option<PartitionId>, dp: Option<PartitionId>)
    requires IsDecision(t, src, dst, policy, m, epoch, d) && Allowed(d)
    requires IsReachability(t, src, dst, r)
    requires LastHolding(t, {src}, sp) && LastHolding(t, {dst}, dp)
    ensures r == REACHABLE || r == REACHABLE_DEGRADED <==> !Blocked(sp, dp)
  {
    var part, raw, ranked, best := AllowedRests(t, src, dst, policy, m, epoch, d);
    var cfg := RouteConfig(policy);
    var idx, w := EnumeratedPath(t, src, dst, cfg, raw, best);
    assert IsWalk(t, src, dst, best.links) && Hops(best.links) <= MAX_PATH_DEPTH;
    ReachableExactly(t, src, dst, r, sp, dp);
  }

  ghost predicate MemberDisjoint(t: Topology) {
    forall j, k, d :: Holds(t, j, {d}) && Holds(t, k, {d}) ==> j == k
  }

  /** With member-disjoint partitions and a policy that stays inside one, allowed means reachable. */
  lemma DisjointPartitionsAgree(t: Topology, src: DeviceId, dst: DeviceId, policy: Policy, m: BestMeasurement, epoch: U64,
                                d: RouteDecision, r: Reachability)
    requires IsDecision(t, src, dst, policy, m, epoch, d) && Allowed(d) && policy.insidePartition
    requires IsReachability(t, src, dst, r) && MemberDisjoint(t)
    ensures r == REACHABLE || r == REACHABLE_DEGRADED
  {
    LastHoldingExists(t, {src});
    LastHoldingExists(t, {dst});
    var sp :| LastHolding(t, {src}, sp);
    var dp :| LastHolding(t, {dst}, dp);
    RouteAgreesWithReachability(t, src, dst, policy, m, epoch, d, r, sp, dp);
    var part, raw, ranked, best := AllowedRests(t, src, dst, policy, m, epoch, d);
    DisjointNeverBlocked(t, src, dst, policy, part, sp, dp);
  }

  lemma DisjointNeverBlocked(t: Topology, src: DeviceId, dst: DeviceId, policy: Policy,
                             part: Option<PartitionId>, sp: Option<PartitionId>, dp: Option<PartitionId>)
    requires LastHolding(t, {src, dst}, part) && PartitionGate(t, policy, part).None?
    requires LastHolding(t, {src}, sp) && LastHolding(t, {dst}, dp)
    requires policy.insidePartition && MemberDisjoint(t)
    ensures !Blocked(sp, dp)
  {
    if sp.Some? && dp.Some? {
      assert AnyLivePartition(t);
      assert Holds(t, part.value, {src}) && Holds(t, part.value, {dst});
    }
  }

  lemma LastHoldingExists(t: Topology, ds: set<DeviceId>)
    ensures exists r :: LastHolding(t, ds, r)
  {
    var ks := set k | k in t.partitions && Holds(t, k, ds);
    if ks == {} {
      assert forall k :: k in t.partitions ==> k !in ks;
      assert LastHolding(t, ds, None);
    } else {
      var m := GreatestKey(ks);
      assert LastHolding(t, ds, Some(m));
    }
  }

  lemma {:induction false} GreatestKey(ks: set<PartitionId>) returns (m: PartitionId)
    requires ks != {}
    ensures m in ks && forall k :: k in ks ==> KeyLeq(k, m)
    decreases |ks|
  {
    KeyOrder();
    var k0 :| k0 in ks;
    var rest := ks - {k0};
    if rest == {} {
      m := k0;
      forall k | k in ks ensures KeyLeq(k, m) { assert k !in rest; }
    } else {
      var n := GreatestKey(rest);
      m := if KeyLeq(k0, n) then n else k0;
      forall k | k in ks ensures KeyLeq(k, m) {
        if k != k0 { assert k in rest && KeyLeq(k, n); }
      }
    }
  }
}
