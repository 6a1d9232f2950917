/** Exactly when the validator lets a removal, a fencing or an expiry through. */
module Acceptance {
  import opened Fabric
  import opened Sets
  import opened Registry

  /** A candidate with no more records than the snapshot is within the limits too. */
  lemma StillWithinLimits(t: Topology, c: Topology)
    requires WithinLimits(t)
    requires c.devices.Keys <= t.devices.Keys && c.switches.Keys <= t.switches.Keys && c.ports.Keys <= t.ports.Keys
    requires c.links.Keys <= t.links.Keys && c.partitions.Keys <= t.partitions.Keys
    ensures WithinLimits(c)
  {
    SubsetSize(c.devices.Keys, t.devices.Keys);
    SubsetSize(c.switches.Keys, t.switches.Keys);
    SubsetSize(c.ports.Keys, t.ports.Keys);
    SubsetSize(c.links.Keys, t.links.Keys);
    SubsetSize(c.partitions.Keys, t.partitions.Keys);
  }

  // ----- cascading removals -----

  predicate ListsDevice(t: Topology, id: DeviceId) {
    exists k :: k in t.partitions && id in t.partitions[k].members
  }

  predicate ListsSwitch(t: Topology, id: SwitchId) {
    exists k :: k in t.partitions && id in t.partitions[k].switches
  }

  lemma RemovedDeviceIntegrity(t: Topology, id: DeviceId)
    requires Integrity(t) && id in t.devices
    ensures Integrity(ProposeRemoveDevice(t, id).topology) <==> !ListsDevice(t, id)
  {
    var c := ProposeRemoveDevice(t, id).topology;
    forall l | l in c.links ensures LinkSound(c, c.links[l]) { assert LinkSound(t, t.links[l]); }
    forall p | p in c.ports ensures PortSound(c, p) { assert PortSound(t, p); }
    forall k | k in c.partitions ensures PartitionSound(c, c.partitions[k]) <==> id !in t.partitions[k].members {
      assert PartitionSound(t, t.partitions[k]);
    }
  }

  /** removeDevice succeeds exactly when the device exists and no partition lists it. */
  lemma RemoveDeviceExact(r: State, id: DeviceId)
    requires WellFormed(r.current) && r.current.topologyGen < U64_MAX
    ensures Passes(r, ProposeRemoveDevice(r.current, id)) <==> id in r.current.devices && !ListsDevice(r.current, id)
  {
    if id in r.current.devices {
      RemovedDeviceIntegrity(r.current, id);
      StillWithinLimits(r.current, ProposeRemoveDevice(r.current, id).topology);
    }
  }

  lemma RemovedPortIntegrity(t: Topology, id: PortId)
    requires Integrity(t) && id in t.ports
    ensures Integrity(ProposeRemovePort(t, id).topology)
  {
    var c := ProposeRemovePort(t, id).topology;
    forall l | l in c.links ensures LinkSound(c, c.links[l]) { assert LinkSound(t, t.links[l]); }
    forall p | p in c.ports ensures PortSound(c, p) { assert PortSound(t, p); }
    forall k | k in c.partitions ensures PartitionSound(c, c.partitions[k]) { assert PartitionSound(t, t.partitions[k]); }
  }

  /** removePort succeeds exactly when the port exists. */
  lemma RemovePortExact(r: State, id: PortId)
    requires WellFormed(r.current) && r.current.topologyGen < U64_MAX
    ensures Passes(r, ProposeRemovePort(r.current, id)) <==> id in r.current.ports
  {
    if id in r.current.ports {
      RemovedPortIntegrity(r.current, id);
      StillWithinLimits(r.current, ProposeRemovePort(r.current, id).topology);
    }
  }

  /** A link rooted elsewhere that the validator reads as ending at the switch and the cascade does not. */
  predicate Strays(l: LinkRecord, id: SwitchId) {
    l.rootSwitch != id && l.otherEnd.kind != DEVICE_END && l.otherEnd.kind != SWITCH_END && l.otherEnd.sw == id
  }

  predicate HasStray(t: Topology, id: SwitchId) {
    exists l :: l in t.links && Strays(t.links[l], id)
  }

  lemma SurvivingLink(t: Topology, id: SwitchId, l: LinkId)
    requires Integrity(t) && id in t.switches && l in ProposeRemoveSwitch(t, id).topology.links
    ensures var c := ProposeRemoveSwitch(t, id).topology; LinkSound(c, c.links[l]) <==> !Strays(t.links[l], id)
  {
    assert LinkSound(t, t.links[l]);
  }

  lemma RemovedSwitchIntegrity(t: Topology, id: SwitchId)
    requires Integrity(t) && id in t.switches
    ensures Integrity(ProposeRemoveSwitch(t, id).topology) <==> !ListsSwitch(t, id) && !HasStray(t, id)
  {
    var c := ProposeRemoveSwitch(t, id).topology;
    forall l | l in c.links ensures LinkSound(c, c.links[l]) <==> !Strays(t.links[l], id) { SurvivingLink(t, id, l); }
    forall l | l in t.links && Strays(t.links[l], id) ensures l in c.links {}
    forall p | p in c.ports ensures PortSound(c, p) { assert PortSound(t, p); }
    forall k | k in c.partitions ensures PartitionSound(c, c.partitions[k]) <==> id !in t.partitions[k].switches {
      assert PartitionSound(t, t.partitions[k]);
    }
  }

  /**
   removeSwitch succeeds exactly when the switch exists, no partition lists it, and no link
   rooted elsewhere names it as an end of a kind that is neither device nor switch.
   */
  lemma RemoveSwitchExact(r: State, id: SwitchId)
    requires WellFormed(r.current) && r.current.topologyGen < U64_MAX
    ensures Passes(r, ProposeRemoveSwitch(r.current, id)) <==>
      id in r.current.switches && !ListsSwitch(r.current, id) && !HasStray(r.current, id)
  {
    if id in r.current.switches {
      RemovedSwitchIntegrity(r.current, id);
      StillWithinLimits(r.current, ProposeRemoveSwitch(r.current, id).topology);
    }
  }

  // ----- fencing and expiry -----

  /** No record the incarnation owns is at the last generation. */
  predicate Bumpable(t: Topology, w: WorkerId, b: BootId) {
    && (forall k :: k in t.switches && Owned(t.switches[k].origin, w, b) ==> t.switches[k].gen < U64_MAX)
    && (forall k :: k in t.ports && Owned(t.ports[k].origin, w, b) ==> t.ports[k].gen < U64_MAX)
    && (forall k :: k in t.links && Owned(t.links[k].origin, w, b) ==> t.links[k].gen < U64_MAX)
    && (forall k :: k in t.partitions && Owned(t.partitions[k].origin, w, b) ==> t.partitions[k].gen < U64_MAX)
  }

  /** Two snapshots that agree on everything integrity looks at. */
  predicate SameShape(t: Topology, c: Topology) {
    && c.devices.Keys == t.devices.Keys && c.switches.Keys == t.switches.Keys && c.ports.Keys == t.ports.Keys
    && c.links.Keys == t.links.Keys && c.partitions.Keys == t.partitions.Keys
    && (forall k :: k in t.switches ==> c.switches[k].id == t.switches[k].id)
    && (forall k :: k in t.links ==> SameEnds(t.links[k], c.links[k]))
    && (forall k :: k in t.partitions ==>
          c.partitions[k].members == t.partitions[k].members && c.partitions[k].switches == t.partitions[k].switches)
  }

  predicate SameEnds(a: LinkRecord, b: LinkRecord) {
    a.rootSwitch == b.rootSwitch && a.port == b.port && a.otherEnd == b.otherEnd
  }

  lemma ShapeIntegrity(t: Topology, c: Topology)
    requires Integrity(t) && SameShape(t, c)
    ensures Integrity(c)
  {
    forall l | l in c.links ensures LinkSound(c, c.links[l]) { assert LinkSound(t, t.links[l]) && SameEnds(t.links[l], c.links[l]); }
    forall p | p in c.ports ensures PortSound(c, p) { assert PortSound(t, p); }
    forall k | k in c.partitions ensures PartitionSound(c, c.partitions[k]) { assert PartitionSound(t, t.partitions[k]); }
  }

  lemma ShapeValid(t: Topology, c: Topology)
    requires WellFormed(t) && SameShape(t, c)
    ensures Valid(t, c) <==> GensKept(t, c)
  {
    ShapeIntegrity(t, c);
    StillWithinLimits(t, c);
  }

  lemma FenceShape(t: Topology, w: WorkerId, b: BootId)
    ensures SameShape(t, ProposeInvalidate(t, w, b).topology)
  {}

  lemma ExpireShape(t: Topology)
    ensures SameShape(t, ProposeExpire(t).topology)
  {}

  lemma RevalidateShape(t: Topology)
    ensures SameShape(t, ProposeRevalidate(t).topology)
  {}

  lemma ExpireGens(t: Topology)
    ensures GensKept(t, ProposeExpire(t).topology) <==> t.topologyGen < U64_MAX
  {}

  lemma RevalidateGens(t: Topology)
    ensures GensKept(t, ProposeRevalidate(t).topology) <==> t.topologyGen < U64_MAX
  {}

  lemma FencedSwitchGens(t: Topology, w: WorkerId, b: BootId)
    ensures var m := ProposeInvalidate(t, w, b).topology.switches;
      (forall k :: k in m && k in t.switches ==> m[k].gen >= t.switches[k].gen)
      <==> (forall k :: k in t.switches && Owned(t.switches[k].origin, w, b) ==> t.switches[k].gen < U64_MAX)
  {}

  lemma FencedPortGens(t: Topology, w: WorkerId, b: BootId)
    ensures var m := ProposeInvalidate(t, w, b).topology.ports;
      (forall k :: k in m && k in t.ports ==> m[k].gen >= t.ports[k].gen)
      <==> (forall k :: k in t.ports && Owned(t.ports[k].origin, w, b) ==> t.ports[k].gen < U64_MAX)
  {}

  lemma FencedLinkGens(t: Topology, w: WorkerId, b: BootId)
    ensures var m := ProposeInvalidate(t, w, b).topology.links;
      (forall k :: k in m && k in t.links ==> m[k].gen >= t.links[k].gen)
      <==> (forall k :: k in t.links && Owned(t.links[k].origin, w, b) ==> t.links[k].gen < U64_MAX)
  {}

  lemma FencedPartitionGens(t: Topology, w: WorkerId, b: BootId)
    ensures var m := ProposeInvalidate(t, w, b).topology.partitions;
      (forall k :: k in m && k in t.partitions ==> m[k].gen >= t.partitions[k].gen)
      <==> (forall k :: k in t.partitions && Owned(t.partitions[k].origin, w, b) ==> t.partitions[k].gen < U64_MAX)
  {}

  lemma FencedGens(t: Topology, w: WorkerId, b: BootId)
    ensures GensKept(t, ProposeInvalidate(t, w, b).topology) <==>
      Bumpable(t, w, b) && (OwnsAny(t, w, b) ==> t.topologyGen < U64_MAX)
  {
    FencedSwitchGens(t, w, b);
    FencedPortGens(t, w, b);
    FencedLinkGens(t, w, b);
    FencedPartitionGens(t, w, b);
  }

  /** invalidateForWorker fails only when a generation it has to advance is the last one. */
  lemma InvalidateExact(r: State, w: WorkerId, b: BootId)
    requires WellFormed(r.current)
    ensures Passes(r, ProposeInvalidate(r.current, w, b)) <==>
      Bumpable(r.current, w, b) && (OwnsAny(r.current, w, b) ==> r.current.topologyGen < U64_MAX)
  {
    var p := ProposeInvalidate(r.current, w, b);
    FenceShape(r.current, w, b);
    ShapeValid(r.current, p.topology);
    FencedGens(r.current, w, b);
  }

  /** expireDynamicEvidence fails only when the topology generation is the last one. */
  lemma ExpireExact(r: State)
    requires WellFormed(r.current)
    ensures Passes(r, ProposeExpire(r.current)) <==> r.current.topologyGen < U64_MAX
  {
    var p := ProposeExpire(r.current);
    ExpireShape(r.current);
    ShapeValid(r.current, p.topology);
    ExpireGens(r.current);
  }

  lemma RevalidateExact(r: State)
    requires WellFormed(r.current)
    ensures Passes(r, ProposeRevalidate(r.current)) <==> r.current.topologyGen < U64_MAX
  {
    var p := ProposeRevalidate(r.current);
    RevalidateShape(r.current);
    ShapeValid(r.current, p.topology);
    RevalidateGens(r.current);
  }
}
