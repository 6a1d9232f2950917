/**
 What enumeratePaths answers: the paths recorded along walks, the level-order
 enumeration cut at the path bound, and the same declaratively.
 */
module Search {
  import opened Wire
  import opened Fabric
  import opened Walks
  import opened Levels

  datatype Config = Config(maxPaths: U32, maxDepth: U32, allowSwitchSwitching: bool)

  const DEFAULT_CONFIG := Config(MAX_CANDIDATE_PATHS, MAX_PATH_DEPTH, true)

  datatype PathHop = PathHop(sw: SwitchId, inPort: PortId, outPort: PortId, exitToDevice: bool, exitToSwitch: bool)

  datatype FabricPath = FabricPath(
    source: DeviceId, destination: DeviceId, hops: seq<PathHop>, links: seq<LinkId>,
    switchSequence: seq<SwitchId>,
    switchGens: seq<(SwitchId, Gen)>, portGens: seq<(PortId, Gen)>,
    topologyGen: Gen, capable: bool, state: Byte, provenance: Byte)

  datatype Partial = Partial(
    cur: SwitchId, hops: seq<PathHop>, links: seq<LinkId>, switches: seq<SwitchId>, visited: set<SwitchId>)

  // ----- what the search carries along a walk -----

  const NO_PORT := PortId(0, 0)

  function Seed(e: Edge): Partial {
    Partial(e.port.sw, [PathHop(e.port.sw, e.port, NO_PORT, false, false)], [e.link], [e.port.sw], {e.port.sw})
  }

  /** The inbound port: that of the first reverse half, whatever its state. */
  function ReversePort(edges: seq<Edge>, back: SwitchId): PortId {
    if edges == [] then UNKNOWN_PORT
    else if edges[0].other.kind == SWITCH_END && edges[0].other.sw == back then edges[0].port
    else ReversePort(edges[1..], back)
  }

  function Leave(hops: seq<PathHop>, port: PortId, toDevice: bool): seq<PathHop>
    requires |hops| > 0
  {
    var last := hops[|hops| - 1];
    hops[..|hops| - 1] + [if toDevice then last.(outPort := port, exitToDevice := true)
                          else last.(outPort := port, exitToSwitch := true)]
  }

  function Advance(idx: Index, p: Partial, e: Edge): Partial
    requires |p.hops| > 0
  {
    var next := e.other.sw;
    Partial(next,
            Leave(p.hops, e.port, false)
            + [PathHop(next, ReversePort(EdgesAt(idx, next), p.cur), NO_PORT, false, false)],
            p.links + [e.link], p.switches + [next], p.visited + {next})
  }

  predicate Linked(t: Topology, w: Walk) {
    forall i :: 0 <= i < |w| ==> w[i] in t.links
  }

  /** The partial path the search holds after walking w. */
  function Trace(t: Topology, idx: Index, w: Walk): (p: Partial)
    requires |w| > 0 && Linked(t, w)
    ensures |p.hops| == |w| && p.links == w
  {
    if |w| == 1 then Seed(EdgeOf(t, w[0]))
    else Advance(idx, Trace(t, idx, Body(w)), EdgeOf(t, Last(w)))
  }

  lemma SwitchesGrow(t: Topology, w: Walk)
    requires |w| > 0
    ensures Switches(t, w) == Switches(t, Body(w)) + [Enters(t, w, |w| - 1)]
  {}

  lemma {:induction false} TraceSwitches(t: Topology, idx: Index, w: Walk)
    requires |w| > 0 && Linked(t, w)
    ensures Trace(t, idx, w).switches == Switches(t, w)
    ensures Trace(t, idx, w).cur == Enters(t, w, |w| - 1)
    ensures forall s :: s in Trace(t, idx, w).visited <==> s in Switches(t, w)
  {
    SwitchesGrow(t, w);
    if |w| == 1 {
      assert Switches(t, Body(w)) == [];
    } else {
      TraceSwitches(t, idx, Body(w));
    }
  }

  predicate AnyDegraded(t: Topology, ls: seq<LinkId>) {
    exists i :: 0 <= i < |ls| && ls[i] in t.links && t.links[ls[i]].degraded
  }

  function Complete(t: Topology, src: DeviceId, dst: DeviceId, p: Partial, e: Edge): FabricPath
    requires |p.hops| > 0
  {
    var links := p.links + [e.link];
    FabricPath(src, dst, Leave(p.hops, e.port, true), links, p.switches, [], [], t.topologyGen, true,
               if AnyDegraded(t, links) then DEGRADED else UP, t.provenance)
  }

  function PathOf(t: Topology, idx: Index, src: DeviceId, dst: DeviceId, w: Walk): FabricPath
    requires |w| >= 2 && Linked(t, w)
  {
    Complete(t, src, dst, Trace(t, idx, Body(w)), EdgeOf(t, Last(w)))
  }

  // ----- what a search returns -----

  predicate EndpointUsable(t: Topology, d: DeviceId) {
    d in t.devices && (t.devices[d].state == UP || t.devices[d].state == PRESENT || t.devices[d].state == DEGRADED)
  }

  predicate Searchable(t: Topology, src: DeviceId, dst: DeviceId, cfg: Config) {
    && cfg.maxPaths > 0 && cfg.maxDepth > 0
    && EndpointUsable(t, src) && EndpointUsable(t, dst) && src != dst
  }

  function Depth(cfg: Config): nat {
    if cfg.allowSwitchSwitching then cfg.maxDepth else 1
  }

  function Take<T>(s: seq<T>, n: nat): seq<T> {
    if |s| <= n then s else s[..n]
  }

  predicate Lists(t: Topology, idx: Index, src: DeviceId, dst: DeviceId, ws: seq<Walk>, ps: seq<FabricPath>) {
    && |ps| == |ws|
    && forall i :: 0 <= i < |ws| ==> |ws[i]| >= 2 && Linked(t, ws[i]) && ps[i] == PathOf(t, idx, src, dst, ws[i])
  }

  ghost predicate IsEnumeration(t: Topology, src: DeviceId, dst: DeviceId, cfg: Config, ps: seq<FabricPath>) {
    if !Searchable(t, src, dst, cfg) then ps == []
    else exists idx, seeds :: Enumerates(t, idx, src, dst, seeds, cfg, ps)
  }

  predicate Enumerates(t: Topology, idx: Index, src: DeviceId, dst: DeviceId, seeds: seq<LinkId>, cfg: Config, ps: seq<FabricPath>) {
    && ValidIndex(t, idx) && ValidSeeds(t, src, seeds)
    && Lists(t, idx, src, dst, Take(Found(t, idx, dst, seeds, Depth(cfg)), cfg.maxPaths), ps)
  }

  // ----- the same, declaratively -----

  /** A path the search may return: a simple usable walk, with the hops the search records for it. */
  ghost predicate PathFor(t: Topology, src: DeviceId, dst: DeviceId, depth: nat, p: FabricPath) {
    && Target(t, src, dst, depth, p.links) && Linked(t, p.links)
    && exists idx :: ValidIndex(t, idx) && p == PathOf(t, idx, src, dst, p.links)
  }

  predicate Listed(ps: seq<FabricPath>, w: Walk) {
    exists i :: 0 <= i < |ps| && ps[i].links == w
  }

  /** A walk may be missing only from a full list of walks no longer than itself. */
  predicate CutOff(cfg: Config, ps: seq<FabricPath>, w: Walk) {
    |ps| == cfg.maxPaths && forall i :: 0 <= i < |ps| ==> |ps[i].links| <= |w|
  }

  predicate ShortestFirst(ps: seq<FabricPath>) {
    forall i, j :: 0 <= i < j < |ps| ==> ps[i].links != ps[j].links && |ps[i].links| <= |ps[j].links|
  }

  /** What a search answers: sound, bounded, shortest first, nothing twice, and nothing missing but by the bound. */
  ghost predicate Searched(t: Topology, src: DeviceId, dst: DeviceId, cfg: Config, ps: seq<FabricPath>) {
    if !Searchable(t, src, dst, cfg) then ps == []
    else
      && |ps| <= cfg.maxPaths
      && (forall i :: 0 <= i < |ps| ==> PathFor(t, src, dst, Depth(cfg), ps[i]))
      && ShortestFirst(ps)
      && (forall w :: Target(t, src, dst, Depth(cfg), w) ==> Listed(ps, w) || CutOff(cfg, ps, w))
  }

  /** The level-order enumeration, cut at the path bound, answers the search. */
  lemma EnumerationExact(t: Topology, src: DeviceId, dst: DeviceId, cfg: Config, ps: seq<FabricPath>)
    requires IsEnumeration(t, src, dst, cfg, ps)
    ensures Searched(t, src, dst, cfg, ps)
  {
    if Searchable(t, src, dst, cfg) {
      var all := Unbounded(t, src, dst, cfg, ps);
      PrefixOfOrdered(all, cfg.maxPaths, ps);
      forall i | 0 <= i < |ps| ensures PathFor(t, src, dst, Depth(cfg), ps[i]) {
        assert ps[i].links in all;
        HasIndex(t, src, dst, cfg, ps, i);
      }
      forall w | Target(t, src, dst, Depth(cfg), w) ensures Listed(ps, w) || CutOff(cfg, ps, w) {
        assert w in all;
      }
    }
  }

  lemma HasIndex(t: Topology, src: DeviceId, dst: DeviceId, cfg: Config, ps: seq<FabricPath>, i: nat)
    requires Searchable(t, src, dst, cfg) && IsEnumeration(t, src, dst, cfg, ps) && i < |ps|
    ensures Linked(t, ps[i].links) && |ps[i].links| >= 2
    ensures exists idx :: ValidIndex(t, idx) && ps[i] == PathOf(t, idx, src, dst, ps[i].links)
  {
    var idx, seeds :| Enumerates(t, idx, src, dst, seeds, cfg, ps);
    var all := Found(t, idx, dst, seeds, Depth(cfg));
    ListedLinks(t, idx, src, dst, all, cfg.maxPaths, ps);
    assert ps[i].links == Take(all, cfg.maxPaths)[i];
  }

  /** The enumeration the listed paths are a prefix of. */
  lemma Unbounded(t: Topology, src: DeviceId, dst: DeviceId, cfg: Config, ps: seq<FabricPath>) returns (all: seq<Walk>)
    requires Searchable(t, src, dst, cfg) && IsEnumeration(t, src, dst, cfg, ps)
    ensures InOrder(all) && LinksArePrefix(all, cfg.maxPaths, ps)
    ensures forall w :: w in all <==> Target(t, src, dst, Depth(cfg), w)
  {
    var idx, seeds :| Enumerates(t, idx, src, dst, seeds, cfg, ps);
    all := Found(t, idx, dst, seeds, Depth(cfg));
    FoundAll(t, idx, src, dst, seeds, Depth(cfg));
    ListedLinks(t, idx, src, dst, all, cfg.maxPaths, ps);
  }

  predicate LinksArePrefix(all: seq<Walk>, n: nat, ps: seq<FabricPath>) {
    && |ps| == (if |all| <= n then |all| else n)
    && forall i :: 0 <= i < |ps| ==> ps[i].links == all[i]
  }

  lemma ListedLinks(t: Topology, idx: Index, src: DeviceId, dst: DeviceId, all: seq<Walk>, n: nat, ps: seq<FabricPath>)
    requires Lists(t, idx, src, dst, Take(all, n), ps)
    ensures LinksArePrefix(all, n, ps)
  {
    var ws := Take(all, n);
    forall i | 0 <= i < |ps| ensures ps[i].links == all[i] {
      assert ws[i] == Body(ws[i]) + [Last(ws[i])];
    }
  }

  lemma PrefixOfOrdered(all: seq<Walk>, n: nat, ps: seq<FabricPath>)
    requires InOrder(all) && LinksArePrefix(all, n, ps)
    ensures forall i :: 0 <= i < |ps| ==> ps[i].links in all
    ensures ShortestFirst(ps)
    ensures forall w :: w in all ==> Listed(ps, w) || (|ps| == n && forall i :: 0 <= i < |ps| ==> |ps[i].links| <= |w|)
  {
    forall w | w in all
      ensures Listed(ps, w) || (|ps| == n && forall i :: 0 <= i < |ps| ==> |ps[i].links| <= |w|)
    {
      var k :| 0 <= k < |all| && all[k] == w;
      if k < |ps| { assert ps[k].links == w; }
    }
  }

  /** A search that stays below its path bound lists exactly the simple usable walks, each once. */
  lemma SearchComplete(t: Topology, src: DeviceId, dst: DeviceId, cfg: Config, ps: seq<FabricPath>, w: Walk)
    requires Searchable(t, src, dst, cfg) && Searched(t, src, dst, cfg, ps) && |ps| < cfg.maxPaths
    ensures Listed(ps, w) <==> Target(t, src, dst, Depth(cfg), w)
    ensures forall i, j :: 0 <= i < |ps| && 0 <= j < |ps| && ps[i].links == ps[j].links == w ==> i == j
  {
    if Listed(ps, w) {
      var i :| 0 <= i < |ps| && ps[i].links == w;
      assert PathFor(t, src, dst, Depth(cfg), ps[i]);
    }
  }

  /** Something is found exactly when some usable walk, loops allowed, joins the endpoints within the depth. */
  lemma FoundIffConnected(t: Topology, src: DeviceId, dst: DeviceId, cfg: Config, ps: seq<FabricPath>)
    requires Searchable(t, src, dst, cfg) && Searched(t, src, dst, cfg, ps)
    ensures ps != [] <==> exists w :: IsWalk(t, src, dst, w) && Hops(w) <= Depth(cfg)
  {
    SimpleWalkSuffices(t, src, dst, Depth(cfg));
    if ps != [] {
      assert PathFor(t, src, dst, Depth(cfg), ps[0]);
    }
    if w :| Target(t, src, dst, Depth(cfg), w) {
      assert Listed(ps, w) || CutOff(cfg, ps, w);
    }
  }
}
