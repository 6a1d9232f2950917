/**
 Expiry is not revocation: it changes states but no generation, so it suspends
 the decisions that rest on dynamic evidence, and revalidation brings them back.
 */
module Suspension {
  import opened Fabric
  import opened Walks
  import opened Search
  import opened Decision
  import opened Registry
  import opened RegistryLaws

  /** Authority apart from the epoch. */
  predicate Grounded(d: RouteDecision, t: Topology) {
    StillAuthoritative(d.(epoch := t.epoch), t)
  }

  lemma AuthorityIsGrounded(d: RouteDecision, t: Topology)
    ensures StillAuthoritative(d, t) <==> d.epoch == t.epoch && Grounded(d, t)
  {}

  lemma SameGrounds(d: RouteDecision, c: Topology, s: Topology)
    requires SameTables(c, s)
    ensures Grounded(d, c) <==> Grounded(d, s)
  {
    forall g: (SwitchId, Gen) ensures SwitchHolds(c, g) <==> SwitchHolds(s, g) {}
    forall g: (PortId, Gen) ensures PortHolds(c, g) <==> PortHolds(s, g) {}
  }

  // ----- expiry -----

  predicate SwitchDynamic(t: Topology, s: SwitchId) {
    s in t.switches && Dynamic(t.switches[s].origin)
  }

  predicate PortDynamic(t: Topology, p: PortId) {
    p in t.ports && Dynamic(t.ports[p].origin)
  }

  predicate DeviceDynamic(t: Topology, d: DeviceId) {
    d in t.devices && Dynamic(t.devices[d].origin)
  }

  predicate PartitionDynamic(t: Topology, k: PartitionId) {
    k in t.partitions && Dynamic(t.partitions[k].origin)
  }

  /** Nothing the decision rests on is worker-owned or observed on hardware. */
  predicate Static(d: RouteDecision, t: Topology) {
    && !DeviceDynamic(t, d.source) && !DeviceDynamic(t, d.destination)
    && (d.partition.Some? ==> !PartitionDynamic(t, d.partition.value))
    && (d.selected.Some? ==>
          && (forall g :: g in d.selected.value.switchGens ==> !SwitchDynamic(t, g.0))
          && (forall g :: g in d.selected.value.portGens ==> !PortDynamic(t, g.0)))
  }

  lemma ExpiredSwitch(t: Topology, g: (SwitchId, Gen))
    ensures SwitchHolds(ProposeExpire(t).topology, g) <==> SwitchHolds(t, g) && !SwitchDynamic(t, g.0)
  {}

  lemma ExpiredPort(t: Topology, g: (PortId, Gen))
    ensures PortHolds(ProposeExpire(t).topology, g) <==> PortHolds(t, g) && !PortDynamic(t, g.0)
  {}

  lemma ExpiredEndpoint(t: Topology, d: DeviceId)
    ensures EndpointUsable(ProposeExpire(t).topology, d) <==> EndpointUsable(t, d) && !DeviceDynamic(t, d)
  {}

  lemma ExpiredPartition(t: Topology, k: PartitionId, g: Gen)
    ensures PartitionHolds(ProposeExpire(t).topology, k, g) <==> PartitionHolds(t, k, g) && !PartitionDynamic(t, k)
  {}

  lemma ExpiredGrounds(d: RouteDecision, t: Topology)
    ensures Grounded(d, ProposeExpire(t).topology) <==> Grounded(d, t) && Static(d, t)
  {
    var c := ProposeExpire(t).topology;
    ExpiredEndpoint(t, d.source);
    ExpiredEndpoint(t, d.destination);
    if d.partition.Some? { ExpiredPartition(t, d.partition.value, d.partitionGen); }
    forall g: (SwitchId, Gen) ensures SwitchHolds(c, g) <==> SwitchHolds(t, g) && !SwitchDynamic(t, g.0) { ExpiredSwitch(t, g); }
    forall g: (PortId, Gen) ensures PortHolds(c, g) <==> PortHolds(t, g) && !PortDynamic(t, g.0) { ExpiredPort(t, g); }
  }

  // ----- revalidation -----

  predicate SwitchRecoverable(t: Topology, g: (SwitchId, Gen)) {
    g.0 in t.switches && (Traversable(t.switches[g.0].state) || Expired(t.switches[g.0].state)) && t.switches[g.0].gen == g.1
  }

  predicate PortRecoverable(t: Topology, g: (PortId, Gen)) {
    g.0 in t.ports && (Traversable(t.ports[g.0].state) || Expired(t.ports[g.0].state)) && t.ports[g.0].gen == g.1
  }

  predicate EndpointRecoverable(t: Topology, d: DeviceId) {
    EndpointUsable(t, d) || (d in t.devices && Expired(t.devices[d].state))
  }

  /** The captured generations still stand, and whatever is not usable is only waiting for revalidation. */
  predicate Recoverable(d: RouteDecision, t: Topology) {
    && Allowed(d)
    && EndpointRecoverable(t, d.source) && EndpointRecoverable(t, d.destination)
    && (d.partition.Some? ==> d.partition.value in t.partitions && t.partitions[d.partition.value].gen == d.partitionGen)
    && (d.selected.Some? ==>
          && (forall g :: g in d.selected.value.switchGens ==> SwitchRecoverable(t, g))
          && (forall g :: g in d.selected.value.portGens ==> PortRecoverable(t, g)))
  }

  lemma RevalidatedSwitch(t: Topology, g: (SwitchId, Gen))
    ensures SwitchHolds(ProposeRevalidate(t).topology, g) <==> SwitchRecoverable(t, g)
  {}

  lemma RevalidatedPort(t: Topology, g: (PortId, Gen))
    ensures PortHolds(ProposeRevalidate(t).topology, g) <==> PortRecoverable(t, g)
  {}

  lemma RevalidatedEndpoint(t: Topology, d: DeviceId)
    ensures EndpointUsable(ProposeRevalidate(t).topology, d) <==> EndpointRecoverable(t, d)
  {}

  lemma RevalidatedPartition(t: Topology, k: PartitionId, g: Gen)
    ensures PartitionHolds(ProposeRevalidate(t).topology, k, g) <==> k in t.partitions && t.partitions[k].gen == g
  {}

  lemma RevalidatedGrounds(d: RouteDecision, t: Topology)
    ensures Grounded(d, ProposeRevalidate(t).topology) <==> Recoverable(d, t)
  {
    var c := ProposeRevalidate(t).topology;
    RevalidatedEndpoint(t, d.source);
    RevalidatedEndpoint(t, d.destination);
    if d.partition.Some? { RevalidatedPartition(t, d.partition.value, d.partitionGen); }
    forall g: (SwitchId, Gen) ensures SwitchHolds(c, g) <==> SwitchRecoverable(t, g) { RevalidatedSwitch(t, g); }
    forall g: (PortId, Gen) ensures PortHolds(c, g) <==> PortRecoverable(t, g) { RevalidatedPort(t, g); }
  }

  lemma ExpiryRecoverable(d: RouteDecision, t: Topology)
    requires Grounded(d, t)
    ensures Recoverable(d, ProposeExpire(t).topology)
  {
    var c := ProposeExpire(t).topology;
    forall g: (SwitchId, Gen) | SwitchHolds(t, g) ensures SwitchRecoverable(c, g) {}
    forall g: (PortId, Gen) | PortHolds(t, g) ensures PortRecoverable(c, g) {}
  }

  lemma SameRecoverable(d: RouteDecision, c: Topology, s: Topology)
    requires SameTables(c, s)
    ensures Recoverable(d, c) <==> Recoverable(d, s)
  {
    forall g: (SwitchId, Gen) ensures SwitchRecoverable(c, g) <==> SwitchRecoverable(s, g) {}
    forall g: (PortId, Gen) ensures PortRecoverable(c, g) <==> PortRecoverable(s, g) {}
  }

  // ----- committed steps -----

  lemma SettledAuthority(r: State, p: Proposal, d: RouteDecision)
    requires Passes(r, p)
    ensures StillAuthoritative(d, Settle(r, p).current) <==> d.epoch == r.epoch && Grounded(d, p.topology)
    ensures Recoverable(d, Settle(r, p).current) <==> Recoverable(d, p.topology)
  {
    var s := Settle(r, p).current;
    AuthorityIsGrounded(d, s);
    SameGrounds(d, p.topology, s);
    SameRecoverable(d, p.topology, s);
  }

  /** A committed expiry leaves authoritative exactly the grounded decisions of the epoch that rest on nothing dynamic. */
  lemma ExpirySuspendsExactly(r: State, d: RouteDecision)
    requires Passes(r, ProposeExpire(r.current))
    ensures StillAuthoritative(d, Settle(r, ProposeExpire(r.current)).current) <==>
      d.epoch == r.epoch && Grounded(d, r.current) && Static(d, r.current)
  {
    SettledAuthority(r, ProposeExpire(r.current), d);
    ExpiredGrounds(d, r.current);
  }

  /** A committed revalidation makes authoritative exactly the decisions of the epoch whose captured generations still stand. */
  lemma RevalidationRestoresExactly(r: State, d: RouteDecision)
    requires Passes(r, ProposeRevalidate(r.current))
    ensures StillAuthoritative(d, Settle(r, ProposeRevalidate(r.current)).current) <==> d.epoch == r.epoch && Recoverable(d, r.current)
  {
    SettledAuthority(r, ProposeRevalidate(r.current), d);
    RevalidatedGrounds(d, r.current);
  }

  /** What expiry suspends, revalidation brings back. */
  lemma SuspensionEnds(r: State, d: RouteDecision, e: State)
    requires StillAuthoritative(d, r.current) && d.epoch == r.epoch
    requires Passes(r, ProposeExpire(r.current)) && e == Settle(r, ProposeExpire(r.current))
    requires Passes(e, ProposeRevalidate(e.current))
    ensures StillAuthoritative(d, Settle(e, ProposeRevalidate(e.current)).current)
  {
    AuthorityIsGrounded(d, r.current);
    ExpiryRecoverable(d, r.current);
    SettledAuthority(r, ProposeExpire(r.current), d);
    RevalidationRestoresExactly(e, d);
  }
}
