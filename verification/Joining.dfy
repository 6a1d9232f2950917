/**
 The search and the filters in link, port and switch fields: which link sequences join two
 devices, what is recorded of them, and which of them pass.
 */
module Joining {
  import opened Wire
  import opened Fabric
  import opened Walks
  import opened Levels
  import opened Shortlex
  import opened Search
  import opened Route
  import opened Decision
  import opened RouteLaws
  import opened RouteExact

  // ----- joining walks -----

  /** The switch reached by link i: the first link's own, and after that the far one. */
  function Stop(t: Topology, w: Walk, i: nat): SwitchId
    requires i < |w| && w[i] in t.links
  {
    if i == 0 then t.links[w[0]].port.sw else t.links[w[i]].otherEnd.sw
  }

  /** The link and its port are each UP or DEGRADED. */
  predicate InService(t: Topology, l: LinkId) {
    && l in t.links && (t.links[l].state == UP || t.links[l].state == DEGRADED)
    && t.links[l].port in t.ports
    && (t.ports[t.links[l].port].state == UP || t.ports[t.links[l].port].state == DEGRADED)
  }

  /** Links in service, from a half that ends at the source, each rooted where the one before arrived, to the destination. */
  predicate Leads(t: Topology, src: DeviceId, dst: DeviceId, w: Walk) {
    && |w| >= 2 && (forall i :: 0 <= i < |w| ==> InService(t, w[i]))
    && t.links[w[0]].otherEnd.kind == DEVICE_END && t.links[w[0]].otherEnd.device == src
    && (forall i :: 0 < i < |w| ==> t.links[w[i]].rootSwitch == Stop(t, w, i - 1))
    && (forall i :: 0 < i < |w| - 1 ==> t.links[w[i]].otherEnd.kind == SWITCH_END)
    && t.links[w[|w| - 1]].otherEnd.kind == DEVICE_END && t.links[w[|w| - 1]].otherEnd.device == dst
  }

  /** The same through at most depth switches, none of them twice. */
  predicate Joins(t: Topology, src: DeviceId, dst: DeviceId, depth: nat, w: Walk) {
    && Leads(t, src, dst, w) && |w| <= depth + 1
    && forall i, j :: 0 <= i < j < |w| - 1 ==> Stop(t, w, i) != Stop(t, w, j)
  }

  lemma StopIsEnters(t: Topology, w: Walk, i: nat)
    requires i < |w| && w[i] in t.links
    ensures Stop(t, w, i) == Enters(t, w, i)
    ensures i + 1 < |w| ==> Enters(t, Body(w), i) == Stop(t, w, i)
  {}

  lemma InServiceIsUsable(t: Topology, l: LinkId)
    ensures InService(t, l) <==> Usable(t, l)
  {}

  lemma LeadsWalks(t: Topology, src: DeviceId, dst: DeviceId, w: Walk)
    requires Leads(t, src, dst, w)
    ensures IsWalk(t, src, dst, w)
  {
    var b := Body(w);
    forall i | 0 <= i < |b| ensures StepOk(t, src, b, i) {
      InServiceIsUsable(t, w[i]);
      if i > 0 { StopIsEnters(t, w, i - 1); }
    }
    InServiceIsUsable(t, w[|w| - 1]);
    StopIsEnters(t, w, |w| - 2);
  }

  lemma WalkLeads(t: Topology, src: DeviceId, dst: DeviceId, w: Walk)
    requires IsWalk(t, src, dst, w)
    ensures Leads(t, src, dst, w)
  {
    var b := Body(w);
    forall i | 0 <= i < |w|
      ensures InService(t, w[i])
      ensures i > 0 ==> InService(t, w[i - 1]) && t.links[w[i]].rootSwitch == Stop(t, w, i - 1)
      ensures 0 < i < |w| - 1 ==> t.links[w[i]].otherEnd.kind == SWITCH_END
    {
      if i < |b| { assert StepOk(t, src, b, i); }
      if i > 0 { assert StepOk(t, src, b, i - 1); StopIsEnters(t, w, i - 1); }
    }
    assert StepOk(t, src, b, 0);
  }

  /** A usable walk, loops allowed, is exactly a sequence of links that leads from the one device to the other. */
  lemma WalkMeans(t: Topology, src: DeviceId, dst: DeviceId, w: Walk)
    ensures IsWalk(t, src, dst, w) <==> Leads(t, src, dst, w)
  {
    if Leads(t, src, dst, w) { LeadsWalks(t, src, dst, w); }
    if IsWalk(t, src, dst, w) { WalkLeads(t, src, dst, w); }
  }

  /** What the search looks for is exactly the joining walks. */
  lemma TargetMeans(t: Topology, src: DeviceId, dst: DeviceId, depth: nat, w: Walk)
    ensures Target(t, src, dst, depth, w) <==> Joins(t, src, dst, depth, w)
  {
    WalkMeans(t, src, dst, w);
    if Leads(t, src, dst, w) {
      var b := Body(w);
      forall i | 0 <= i < |b| ensures Switches(t, b)[i] == Stop(t, w, i) { StopIsEnters(t, w, i); }
    }
  }

  // ----- what is recorded -----

  /** A link from one switch back to another. */
  predicate Backs(t: Topology, s: SwitchId, back: SwitchId, l: LinkId) {
    l in t.links && t.links[l].rootSwitch == s && t.links[l].otherEnd.kind == SWITCH_END && t.links[l].otherEnd.sw == back
  }

  predicate LowerPort(p: PortId, q: PortId) {
    p.sw < q.sw || (p.sw == q.sw && p.index < q.index)
  }

  /** The lowest port with a link back, whatever its state; unknown if there is no such link. */
  predicate Inbound(t: Topology, s: SwitchId, back: SwitchId, p: PortId) {
    if exists l :: l in t.links && Backs(t, s, back, l) then
      && (exists l :: l in t.links && Backs(t, s, back, l) && t.links[l].port == p)
      && forall l :: l in t.links && Backs(t, s, back, l) ==> !LowerPort(t.links[l].port, p)
    else p == UNKNOWN_PORT
  }

  predicate Reverse(e: Edge, back: SwitchId) {
    e.other.kind == SWITCH_END && e.other.sw == back
  }

  lemma {:induction false} FirstReverse(edges: seq<Edge>, back: SwitchId) returns (i: nat)
    ensures i <= |edges| && forall j :: 0 <= j < i ==> !Reverse(edges[j], back)
    ensures i < |edges| ==> Reverse(edges[i], back) && ReversePort(edges, back) == edges[i].port
    ensures i == |edges| ==> ReversePort(edges, back) == UNKNOWN_PORT
  {
    if edges == [] || Reverse(edges[0], back) {
      i := 0;
    } else {
      var k := FirstReverse(edges[1..], back);
      i := k + 1;
      forall j | 0 <= j < i ensures !Reverse(edges[j], back) { if j > 0 { assert edges[1..][j - 1] == edges[j]; } }
    }
  }

  lemma BacksIsReverse(t: Topology, idx: Index, s: SwitchId, back: SwitchId, l: LinkId)
    requires ValidIndex(t, idx) && Backs(t, s, back, l)
    ensures EdgeOf(t, l) in EdgesAt(idx, s) && Reverse(EdgeOf(t, l), back)
  {}

  /** The inbound port the search records for an inter-switch hop. */
  lemma ReversePortMeans(t: Topology, idx: Index, s: SwitchId, back: SwitchId)
    requires ValidIndex(t, idx)
    ensures Inbound(t, s, back, ReversePort(EdgesAt(idx, s), back))
  {
    var edges := EdgesAt(idx, s);
    var i := FirstReverse(edges, back);
    if i < |edges| {
      assert Describes(t, s, edges[i]);
      assert Backs(t, s, back, edges[i].link);
    }
    forall l | l in t.links && Backs(t, s, back, l) ensures i < |edges| && !LowerPort(t.links[l].port, edges[i].port) {
      BacksIsReverse(t, idx, s, back, l);
      var j :| 0 <= j < |edges| && edges[j] == EdgeOf(t, l);
      assert j >= i;
      if j > i { assert EdgeLess(edges[i], edges[j]); }
    }
  }

  lemma InboundOnce(t: Topology, s: SwitchId, back: SwitchId, p: PortId, q: PortId)
    requires Inbound(t, s, back, p) && Inbound(t, s, back, q)
    ensures p == q
  {}

  /** One hop for each switch: in by the port recorded, out by the next link's own. */
  predicate HopRecorded(t: Topology, w: Walk, i: nat, h: PathHop)
    requires i + 1 < |w| && forall j :: 0 <= j < |w| ==> w[j] in t.links
  {
    && h.sw == Stop(t, w, i)
    && (if i == 0 then h.inPort == t.links[w[0]].port else Inbound(t, Stop(t, w, i), Stop(t, w, i - 1), h.inPort))
    && h.outPort == t.links[w[i + 1]].port
    && (h.exitToDevice <==> i + 2 == |w|) && (h.exitToSwitch <==> i + 2 < |w|)
  }

  /** Some link of the walk carries the degraded mark. */
  predicate Blemished(t: Topology, w: Walk) {
    exists i :: 0 <= i < |w| && w[i] in t.links && t.links[w[i]].degraded
  }

  /** A path as the search records it for the walk of its links. */
  predicate Recorded(t: Topology, src: DeviceId, dst: DeviceId, p: FabricPath) {
    && |p.links| >= 2 && (forall i :: 0 <= i < |p.links| ==> p.links[i] in t.links)
    && p.source == src && p.destination == dst
    && |p.hops| == |p.switchSequence| == |p.links| - 1
    && (forall i :: 0 <= i < |p.hops| ==> p.switchSequence[i] == p.hops[i].sw && HopRecorded(t, p.links, i, p.hops[i]))
    && p.state == (if Blemished(t, p.links) then DEGRADED else UP)
    && p.topologyGen == t.topologyGen && p.provenance == t.provenance && p.capable
  }

  lemma HopRecords(t: Topology, idx: Index, src: DeviceId, dst: DeviceId, w: Walk, i: nat)
    requires ValidIndex(t, idx) && Linked(t, w) && i + 1 < |w|
    ensures var p := PathOf(t, idx, src, dst, w);
      |p.hops| == |p.switchSequence| == |w| - 1 && p.switchSequence[i] == p.hops[i].sw && HopRecorded(t, w, i, p.hops[i])
  {
    PathSize(t, idx, src, dst, w);
    PathHops(t, idx, src, dst, w, i);
    StopIsEnters(t, w, i);
    if i > 0 {
      StopIsEnters(t, w, i - 1);
      ReversePortMeans(t, idx, Stop(t, w, i), Stop(t, w, i - 1));
    }
  }

  lemma PathMarks(t: Topology, idx: Index, src: DeviceId, dst: DeviceId, w: Walk)
    requires |w| >= 2 && Linked(t, w)
    ensures var p := PathOf(t, idx, src, dst, w);
      && p.source == src && p.destination == dst && p.topologyGen == t.topologyGen && p.provenance == t.provenance && p.capable
      && p.state == (if Blemished(t, w) then DEGRADED else UP)
  {
    PathLinks(t, idx, src, dst, w);
    assert AnyDegraded(t, w) <==> Blemished(t, w);
  }

  lemma PathRecords(t: Topology, idx: Index, src: DeviceId, dst: DeviceId, w: Walk)
    requires ValidIndex(t, idx) && |w| >= 2 && Linked(t, w)
    ensures PathOf(t, idx, src, dst, w).links == w && Recorded(t, src, dst, PathOf(t, idx, src, dst, w))
  {
    var p := PathOf(t, idx, src, dst, w);
    PathLinks(t, idx, src, dst, w);
    PathMarks(t, idx, src, dst, w);
    HopRecords(t, idx, src, dst, w, 0);
    forall i | 0 <= i < |p.hops| ensures p.switchSequence[i] == p.hops[i].sw && HopRecorded(t, w, i, p.hops[i]) {
      HopRecords(t, idx, src, dst, w, i);
    }
  }

  /** The walk is listed, or the list is full of walks no longer. */
  predicate ListedOrCut(maxPaths: nat, ps: seq<FabricPath>, w: Walk) {
    (exists i :: 0 <= i < |ps| && ps[i].links == w) || (|ps| == maxPaths && forall i :: 0 <= i < |ps| ==> |ps[i].links| <= |w|)
  }

  /** The whole search: what is listed, in which order, and what may be missing. */
  ghost predicate Answers(t: Topology, src: DeviceId, dst: DeviceId, maxPaths: nat, depth: nat, ps: seq<FabricPath>) {
    && |ps| <= maxPaths
    && (forall i :: 0 <= i < |ps| ==> Recorded(t, src, dst, ps[i]) && Joins(t, src, dst, depth, ps[i].links))
    && (forall i, j :: 0 <= i < j < |ps| ==> ps[i].links != ps[j].links && |ps[i].links| <= |ps[j].links|)
    && (forall w :: Joins(t, src, dst, depth, w) ==> ListedOrCut(maxPaths, ps, w))
  }

  /** A device a search may start from or end at. */
  predicate Attachable(t: Topology, d: DeviceId) {
    d in t.devices && (t.devices[d].state == UP || t.devices[d].state == PRESENT || t.devices[d].state == DEGRADED)
  }

  lemma SearchSound(t: Topology, src: DeviceId, dst: DeviceId, cfg: Config, ps: seq<FabricPath>, p: FabricPath)
    requires Searchable(t, src, dst, cfg) && Searched(t, src, dst, cfg, ps) && p in ps
    ensures Recorded(t, src, dst, p) && Joins(t, src, dst, Depth(cfg), p.links)
  {
    var idx, w := EnumeratedPath(t, src, dst, cfg, ps, p);
    PathRecords(t, idx, src, dst, w);
    TargetMeans(t, src, dst, Depth(cfg), w);
  }

  lemma SearchMisses(t: Topology, src: DeviceId, dst: DeviceId, cfg: Config, ps: seq<FabricPath>, w: Walk)
    requires Searchable(t, src, dst, cfg) && Searched(t, src, dst, cfg, ps) && Joins(t, src, dst, Depth(cfg), w)
    ensures ListedOrCut(cfg.maxPaths, ps, w)
  {
    TargetMeans(t, src, dst, Depth(cfg), w);
    assert Listed(ps, w) || CutOff(cfg, ps, w);
  }

  /** What enumeratePaths answers, in record fields. */
  lemma SearchMeans(t: Topology, src: DeviceId, dst: DeviceId, cfg: Config, ps: seq<FabricPath>)
    requires Searched(t, src, dst, cfg, ps)
    ensures if cfg.maxPaths > 0 && cfg.maxDepth > 0 && Attachable(t, src) && Attachable(t, dst) && src != dst
            then Answers(t, src, dst, cfg.maxPaths, if cfg.allowSwitchSwitching then cfg.maxDepth else 1, ps)
            else ps == []
  {
    if Searchable(t, src, dst, cfg) {
      forall i | 0 <= i < |ps| ensures Recorded(t, src, dst, ps[i]) && Joins(t, src, dst, Depth(cfg), ps[i].links) {
        SearchSound(t, src, dst, cfg, ps, ps[i]);
      }
      forall w | Joins(t, src, dst, Depth(cfg), w) ensures ListedOrCut(cfg.maxPaths, ps, w) { SearchMisses(t, src, dst, cfg, ps, w); }
      InOrderListed(t, src, dst, cfg, ps);
    }
  }

  lemma InOrderListed(t: Topology, src: DeviceId, dst: DeviceId, cfg: Config, ps: seq<FabricPath>)
    requires Searchable(t, src, dst, cfg) && Searched(t, src, dst, cfg, ps)
    ensures |ps| <= cfg.maxPaths
    ensures forall i, j :: 0 <= i < j < |ps| ==> ps[i].links != ps[j].links && |ps[i].links| <= |ps[j].links|
  {}

  // ----- which walks pass the filters -----

  predicate Serving(s: Byte) {
    s == UP || s == DEGRADED || s == PRESENT || s == SUPPORTED
  }

  /** The inbound port recorded on the way from one switch to the next is unknown, or there and not awaiting revalidation. */
  predicate EntryFresh(t: Topology, s: SwitchId, back: SwitchId) {
    forall l :: l in t.links && Backs(t, s, back, l) && Inbound(t, s, back, t.links[l].port) && t.links[l].port != UNKNOWN_PORT ==>
      && t.links[l].port in t.ports
      && t.ports[t.links[l].port].state != STALE && t.ports[t.links[l].port].state != REVALIDATION_REQUIRED
  }

  /** Every switch is serving, every recorded entry is fresh, and if the policy asks for it no link carries the degraded mark. */
  predicate Clears(t: Topology, policy: Policy, w: Walk)
    requires |w| >= 2 && forall i :: 0 <= i < |w| ==> w[i] in t.links
  {
    && (forall i :: 0 <= i < |w| - 1 ==> Stop(t, w, i) in t.switches && Serving(t.switches[Stop(t, w, i)].state))
    && (forall i :: 0 < i < |w| - 1 ==> EntryFresh(t, Stop(t, w, i), Stop(t, w, i - 1)))
    && (policy.requireNonDegradedPath || policy.requiredMinRelativeBandwidth > 0.0 ==> !Blemished(t, w))
  }

  /** The depth a policy allows: its hops, but never more than sixteen. */
  function HopBound(policy: Policy): nat {
    if policy.maxAllowedHops < 16 then policy.maxAllowedHops else 16
  }

  /** The paths a policy lets the search list: one more than its hops, at most 65536, and none if that wraps. */
  function PathBound(policy: Policy): nat {
    if policy.maxAllowedHops == U64_MAX then 0 else if policy.maxAllowedHops < 65535 then policy.maxAllowedHops + 1 else 65536
  }

  lemma BoundsMean(policy: Policy)
    ensures RouteConfig(policy).maxDepth == Depth(RouteConfig(policy)) == HopBound(policy)
    ensures RouteConfig(policy).maxPaths == PathBound(policy)
  {}

  lemma EntryMeans(t: Topology, s: SwitchId, back: SwitchId, p: PortId)
    requires Inbound(t, s, back, p)
    ensures EntryFresh(t, s, back) <==> p == UNKNOWN_PORT || PortFresh(t, p)
  {
    forall l | l in t.links && Backs(t, s, back, l) && Inbound(t, s, back, t.links[l].port) ensures t.links[l].port == p {
      InboundOnce(t, s, back, p, t.links[l].port);
    }
  }

  lemma HopClears(t: Topology, src: DeviceId, dst: DeviceId, w: Walk, i: nat, h: PathHop)
    requires Leads(t, src, dst, w) && i + 1 < |w| && HopRecorded(t, w, i, h)
    ensures HopFresh(t, h) <==> i == 0 || EntryFresh(t, Stop(t, w, i), Stop(t, w, i - 1))
  {
    assert InService(t, w[i + 1]);
    if i == 0 { assert InService(t, w[0]); } else { EntryMeans(t, Stop(t, w, i), Stop(t, w, i - 1), h.inPort); }
  }

  lemma HopsClear(t: Topology, src: DeviceId, dst: DeviceId, p: FabricPath)
    requires Leads(t, src, dst, p.links) && Recorded(t, src, dst, p)
    ensures (forall i :: 0 <= i < |p.hops| ==> HopFresh(t, p.hops[i])) <==>
      forall i :: 0 < i < |p.links| - 1 ==> EntryFresh(t, Stop(t, p.links, i), Stop(t, p.links, i - 1))
  {
    forall i | 0 <= i < |p.hops|
      ensures HopFresh(t, p.hops[i]) <==> i == 0 || EntryFresh(t, Stop(t, p.links, i), Stop(t, p.links, i - 1))
    {
      HopClears(t, src, dst, p.links, i, p.hops[i]);
    }
    if forall i :: 0 <= i < |p.hops| ==> HopFresh(t, p.hops[i]) {
      forall i | 0 < i < |p.links| - 1 ensures EntryFresh(t, Stop(t, p.links, i), Stop(t, p.links, i - 1)) { assert HopFresh(t, p.hops[i]); }
    }
  }

  lemma SwitchesClear(t: Topology, src: DeviceId, dst: DeviceId, p: FabricPath)
    requires Recorded(t, src, dst, p)
    ensures SwitchesCurrent(t, p) <==>
      forall i :: 0 <= i < |p.links| - 1 ==> Stop(t, p.links, i) in t.switches && Serving(t.switches[Stop(t, p.links, i)].state)
  {
    forall i | 0 <= i < |p.hops| ensures p.switchSequence[i] == Stop(t, p.links, i) { assert HopRecorded(t, p.links, i, p.hops[i]); }
    if SwitchesCurrent(t, p) {
      forall i | 0 <= i < |p.links| - 1 ensures Stop(t, p.links, i) in t.switches && Serving(t.switches[Stop(t, p.links, i)].state) {
        assert p.switchSequence[i] == Stop(t, p.links, i);
      }
    }
  }

  lemma LinksAreFresh(t: Topology, src: DeviceId, dst: DeviceId, p: FabricPath)
    requires Leads(t, src, dst, p.links)
    ensures LinksFresh(t, p)
  {
    forall i | 0 <= i < |p.links| ensures p.links[i] in t.links && !Expired(t.links[p.links[i]].state) { assert InService(t, p.links[i]); }
  }

  /** A joining walk's path passes the filters of computeRoute exactly when the walk clears. */
  lemma EligibleMeans(t: Topology, src: DeviceId, dst: DeviceId, policy: Policy, p: FabricPath)
    requires Leads(t, src, dst, p.links) && Recorded(t, src, dst, p)
    ensures PathEligible(t, policy, p) <==> Clears(t, policy, p.links)
  {
    SwitchesClear(t, src, dst, p);
    HopsClear(t, src, dst, p);
    LinksAreFresh(t, src, dst, p);
  }

  lemma AdmissiblePath(t: Topology, idx: Index, src: DeviceId, dst: DeviceId, policy: Policy, w: Walk)
    requires ValidIndex(t, idx) && Target(t, src, dst, Depth(RouteConfig(policy)), w) && Linked(t, w)
    ensures Admissible(t, src, dst, policy, w) <==> PathEligible(t, policy, PathOf(t, idx, src, dst, w))
  {
    if Admissible(t, src, dst, policy, w) {
      var k :| ValidIndex(t, k) && PathEligible(t, policy, PathOf(t, k, src, dst, w));
      PathUnique(t, k, idx, src, dst, w);
    }
  }

  lemma JoinsLinked(t: Topology, src: DeviceId, dst: DeviceId, w: Walk)
    requires Leads(t, src, dst, w)
    ensures |w| >= 2 && Linked(t, w)
  {
    forall i | 0 <= i < |w| ensures w[i] in t.links { assert InService(t, w[i]); }
  }

  /** The walks a policy admits: within its depth, joining the devices, and clear. */
  lemma AdmissibleMeans(t: Topology, idx: Index, src: DeviceId, dst: DeviceId, policy: Policy, w: Walk)
    requires ValidIndex(t, idx)
    ensures Admissible(t, src, dst, policy, w) <==> Joins(t, src, dst, HopBound(policy), w) && Clears(t, policy, w)
  {
    BoundsMean(policy);
    TargetMeans(t, src, dst, HopBound(policy), w);
    if Joins(t, src, dst, HopBound(policy), w) {
      JoinsLinked(t, src, dst, w);
      AdmissiblePath(t, idx, src, dst, policy, w);
      PathRecords(t, idx, src, dst, w);
      EligibleMeans(t, src, dst, policy, PathOf(t, idx, src, dst, w));
    }
  }

  // ----- the order of the search -----

  /** At the first link where they part, the first walk leaves by the lower port, or by the same port and the lower link. */
  predicate PartsLower(t: Topology, x: Walk, y: Walk, k: nat) {
    && k < |x| && k < |y| && x[..k] == y[..k] && x[k] in t.links && y[k] in t.links
    && (LowerPort(t.links[x[k]].port, t.links[y[k]].port) || (t.links[x[k]].port == t.links[y[k]].port && x[k] < y[k]))
  }

  /** Shorter first, and among walks of one length by port and then by link where they part. */
  lemma AheadMeans(t: Topology, x: Walk, y: Walk)
    ensures Ahead(t, x, y) <==> |x| < |y| || (|x| == |y| && exists k: nat :: PartsLower(t, x, y, k))
  {
    if |x| == |y| && Ahead(t, x, y) {
      var k :| 0 <= k < |x| && PartAt(x, y, k) && LinkBefore(t, x[k], y[k]);
      assert PartsLower(t, x, y, k);
    }
    if k: nat :| PartsLower(t, x, y, k) { assert PartAt(x, y, k) && LinkBefore(t, x[k], y[k]); }
  }
}
