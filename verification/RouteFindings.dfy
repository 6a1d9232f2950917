/** A concrete fabric on which the bounded search starves a route: paths are counted before they are filtered. */
module RouteFindings {
  import opened Wire
  import opened Fabric
  import opened Registry
  import opened Findings
  import opened Walks
  import opened Levels
  import opened Search
  import opened Reach
  import opened Route
  import opened Decision
  import opened RouteExact
  import opened RouteOrder

  function UpDevice(d: DeviceId): DeviceRecord {
    DeviceRecord(d, [], false, true, [], [], [], UP, [], 0, false, NOBODY)
  }

  /** Switches 1 and 2 are down; switch 3 is up. */
  function SomeSwitch(s: SwitchId): SwitchRecord {
    SwitchRecord(s, 1, [], false, [], [], [], 2, if s == 3 then UP else DOWN, [], false, [], false, NOBODY)
  }

  function UpPort(p: PortId): PortRecord {
    PortRecord(p, 1, LinkEnd(DEVICE_END, 0, 0), false, UP, 0, false, 0, false, NOBODY)
  }

  /** Link 10s+d joins switch s to device d by port d-1. */
  function UpLink(l: LinkId, s: SwitchId, d: DeviceId, i: U32): LinkRecord {
    LinkRecord(l, 1, s, PortId(s, i), LinkEnd(DEVICE_END, d, 0), true, UP, false, NOBODY)
  }

  const STARVED := Topology(
    2, 1, 0, 0, SYNTHETIC, EMPTY_TOPOLOGY.labelText, false,
    map[1 := UpDevice(1), 2 := UpDevice(2)],
    map[1 := SomeSwitch(1), 2 := SomeSwitch(2), 3 := SomeSwitch(3)],
    map[PortId(1, 0) := UpPort(PortId(1, 0)), PortId(1, 1) := UpPort(PortId(1, 1)),
        PortId(2, 0) := UpPort(PortId(2, 0)), PortId(2, 1) := UpPort(PortId(2, 1)),
        PortId(3, 0) := UpPort(PortId(3, 0)), PortId(3, 1) := UpPort(PortId(3, 1))],
    map[11 := UpLink(11, 1, 1, 0), 12 := UpLink(12, 1, 2, 1),
        21 := UpLink(21, 2, 1, 0), 22 := UpLink(22, 2, 2, 1),
        31 := UpLink(31, 3, 1, 0), 32 := UpLink(32, 3, 2, 1)],
    map[])

  /** One hop allowed, so two paths are listed. */
  const ONE_HOP := Policy(false, false, 1, 0.0, [])

  lemma StarvedLinks()
    ensures forall l :: l in STARVED.links ==> LinkSound(STARVED, STARVED.links[l])
  {}

  lemma StarvedPorts()
    ensures PortsFresh(STARVED) && forall p :: p in STARVED.ports ==> PortSound(STARVED, p)
  {}

  lemma StarvedIntegrity()
    ensures Integrity(STARVED)
  {
    StarvedLinks();
    StarvedPorts();
  }

  lemma StarvedBounds()
    ensures RouteConfig(ONE_HOP) == Config(2, 1, true) && Depth(RouteConfig(ONE_HOP)) == 1
    ensures Tolerant(ONE_HOP) && Searchable(STARVED, 1, 2, RouteConfig(ONE_HOP)) && GatesOpen(STARVED, 1, 2, ONE_HOP, None)
    ensures LastHolding(STARVED, {1, 2}, None)
  {}

  // ----- the fabric is reached -----

  lemma StarvedKeys()
    ensures KeysMatch(STARVED)
  {}

  lemma StarvedLimits()
    ensures WithinLimits(STARVED)
  {}

  lemma StarvedFirst()
    ensures FirstSnapshot(STARVED)
  {
    assert 1 in STARVED.devices && STARVED.devices[1].origin.provenance == SYNTHETIC;
  }

  lemma StarvedReached()
    ensures Reached(STARVED)
  {
    StarvedIntegrity();
    StarvedKeys();
    StarvedLimits();
    StarvedFirst();
    var e := Loaded(STARVED);
  }

  function Through(s: SwitchId): Walk
    requires 1 <= s <= 3
  {
    if s == 1 then [11, 12] else if s == 2 then [21, 22] else [31, 32]
  }

  lemma ThroughIsTarget(s: SwitchId)
    requires 1 <= s <= 3
    ensures Target(STARVED, 1, 2, 1, Through(s)) && Enters(STARVED, Through(s), 0) == s
  {
    var w := Through(s);
    assert Body(w) == [w[0]] && Last(w) == w[1];
    assert StepOk(STARVED, 1, Body(w), 0);
    assert Exits(STARVED, 2, Body(w), Last(w));
  }

  lemma TargetsAreThrough(w: Walk)
    requires Target(STARVED, 1, 2, 1, w)
    ensures w == Through(1) || w == Through(2) || w == Through(3)
  {
    var b := Body(w);
    assert StepOk(STARVED, 1, b, 0);
    assert w == [w[0], w[1]];
  }

  const INDEX: Index := map[
    1 := [EdgeOf(STARVED, 11), EdgeOf(STARVED, 12)],
    2 := [EdgeOf(STARVED, 21), EdgeOf(STARVED, 22)],
    3 := [EdgeOf(STARVED, 31), EdgeOf(STARVED, 32)]]

  lemma IndexSorted()
    ensures forall s :: s in INDEX ==> EdgesSorted(INDEX[s])
  {}

  lemma IndexDescribes()
    ensures forall s, e :: s in INDEX && e in INDEX[s] ==> Describes(STARVED, s, e)
  {}

  lemma IndexCovers(l: LinkId)
    requires l in STARVED.links
    ensures STARVED.links[l].rootSwitch in INDEX && EdgeOf(STARVED, l) in INDEX[STARVED.links[l].rootSwitch]
  {
    if l == 11 || l == 12 { return; }
    if l == 21 || l == 22 { return; }
  }

  lemma IndexIsValid()
    ensures ValidIndex(STARVED, INDEX)
  {
    IndexSorted();
    IndexDescribes();
    forall l | l in STARVED.links
      ensures STARVED.links[l].rootSwitch in INDEX && EdgeOf(STARVED, l) in INDEX[STARVED.links[l].rootSwitch]
    {
      IndexCovers(l);
    }
  }

  lemma CurrentThird(s: SwitchId)
    requires 1 <= s <= 3
    ensures ThroughCurrent(STARVED, Through(s)) <==> s == 3
  {
    assert Enters(STARVED, Through(s), 0) == s;
  }

  /** Only the path through switch 3 passes the filters. */
  lemma OnlyThird(s: SwitchId)
    requires 1 <= s <= 3
    ensures Admissible(STARVED, 1, 2, ONE_HOP, Through(s)) <==> s == 3
  {
    StarvedIntegrity();
    StarvedPorts();
    StarvedBounds();
    IndexIsValid();
    ThroughIsTarget(s);
    CurrentThird(s);
    Filtered(STARVED, INDEX, ONE_HOP, Through(s));
  }

  lemma Filtered(t: Topology, idx: Index, policy: Policy, w: Walk)
    requires Integrity(t) && PortsFresh(t) && Tolerant(policy) && ValidIndex(t, idx)
    requires Depth(RouteConfig(policy)) == 1 && Target(t, 1, 2, 1, w)
    ensures Admissible(t, 1, 2, policy, w) <==> ThroughCurrent(t, w)
  {
    AdmissibleWalk(t, idx, 1, 2, policy, w);
  }

  // ----- the eligible path comes up too late -----

  lemma DownFirst(all: seq<Walk>, s: SwitchId, i: nat) returns (p: nat)
    requires SearchOrder(STARVED, 1, 2, RouteConfig(ONE_HOP), all) && 1 <= s <= 2
    requires i < |all| && all[i] == Through(3)
    ensures p < i && all[p] == Through(s)
  {
    StarvedBounds();
    ThroughIsTarget(s);
    p := EarlierPort(STARVED, 1, 2, RouteConfig(ONE_HOP), all, i, Through(s));
  }

  lemma ThirdIsLate(all: seq<Walk>, i: nat)
    requires SearchOrder(STARVED, 1, 2, RouteConfig(ONE_HOP), all) && i < |all| && all[i] == Through(3)
    ensures i >= 2
  {
    var p := DownFirst(all, 1, i);
    var q := DownFirst(all, 2, i);
    assert all[p] != all[q];
  }

  lemma NeverInTime(all: seq<Walk>)
    requires SearchOrder(STARVED, 1, 2, RouteConfig(ONE_HOP), all)
    ensures !InTime(STARVED, 1, 2, ONE_HOP, all)
  {
    StarvedBounds();
    forall i | 0 <= i < |all| && Admissible(STARVED, 1, 2, ONE_HOP, all[i]) ensures i >= 2 {
      TargetsAreThrough(all[i]);
      OnlyThird(1);
      OnlyThird(2);
      ThirdIsLate(all, i);
    }
  }

  lemma NoneExpired()
    ensures !AnySwitchExpired(STARVED)
  {}

  /**
   A registry that received this fabric in one bulk edit: the path through switch 3 is within the
   policy's bounds and passes every filter, yet every decision is NO_ROUTE.
   */
  lemma TruncationStarves(m: BestMeasurement, epoch: U64, d: RouteDecision)
    requires IsDecision(STARVED, 1, 2, ONE_HOP, m, epoch, d)
    ensures Reached(STARVED)
    ensures Admissible(STARVED, 1, 2, ONE_HOP, Through(3)) && d.outcome == NO_ROUTE
  {
    StarvedReached();
    StarvedBounds();
    OnlyThird(3);
    NoneExpired();
    forall all | SearchOrder(STARVED, 1, 2, RouteConfig(ONE_HOP), all) ensures !InTime(STARVED, 1, 2, ONE_HOP, all) {
      NeverInTime(all);
    }
    Starved(STARVED, 1, 2, ONE_HOP, m, epoch, d, None, Through(3));
  }
}
