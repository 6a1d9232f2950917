/**
 Revocation: which operations advance an entity's generation, and why a decision
 that rests on an advanced entity never regains authority.
 */
module Authority {
  import opened Wire
  import opened Fabric
  import opened Search
  import opened Route
  import opened Decision
  import opened Registry
  import opened RegistryLaws

  // ----- what advances a generation -----

  predicate BumpsSwitch(t: Topology, op: Op, s: SwitchId)
    requires s in t.switches
  {
    match op
    case SetSwitchState(id, state) => id == s && SwitchFailure(state)
    case RestartSwitch(id, g) => id == s && g > t.switches[s].gen
    case InvalidateForWorker(w, b) => Owned(t.switches[s].origin, w, b)
    case ApplyBulk(e) => var m := Stage(t.switches, e.switches, SwitchKey); s in m && m[s].gen > t.switches[s].gen
    case _ => false
  }

  predicate BumpsPort(t: Topology, op: Op, p: PortId)
    requires p in t.ports
  {
    match op
    case SetPortState(id, state) => id == p && PortFailure(state)
    case InvalidateForWorker(w, b) => Owned(t.ports[p].origin, w, b)
    case ApplyBulk(e) => var m := Stage(t.ports, e.ports, PortKey); p in m && m[p].gen > t.ports[p].gen
    case _ => false
  }

  predicate BumpsLink(t: Topology, op: Op, l: LinkId)
    requires l in t.links
  {
    match op
    case SetLinkState(id, state, _) => id == l && LinkFailure(state)
    case InvalidateForWorker(w, b) => Owned(t.links[l].origin, w, b)
    case ApplyBulk(e) => var m := Stage(t.links, e.links, LinkKey); l in m && m[l].gen > t.links[l].gen
    case _ => false
  }

  /** The one committed change that leaves the generation alone: the increment wrapped to the zero it started from. */
  predicate WrapsToZero(was: Partition, now: Partition) {
    was.gen == 0 && now.gen == U64_MAX
  }

  predicate BumpsPartition(t: Topology, op: Op, k: PartitionId)
    requires k in t.partitions
  {
    var was := t.partitions[k];
    match op
    case PublishPartition(now) =>
      now.id == k && (if PartitionChanged(was, now) then !WrapsToZero(was, now) else now.gen > was.gen)
    case MarkPartitionStale(id) => id == k && was.state != PARTITION_STALE
    case InvalidateForWorker(w, b) => Owned(was.origin, w, b)
    case ApplyBulk(e) => var m := Stage(t.partitions, e.partitions, PartitionKey); k in m && m[k].gen > was.gen
    case _ => false
  }

  predicate Bumps(t: Topology, op: Op, x: Entity)
    requires GenOf(t, x).Some?
  {
    match x
    case ASwitch(s) => BumpsSwitch(t, op, s)
    case APort(p) => BumpsPort(t, op, p)
    case ALink(l) => BumpsLink(t, op, l)
    case APartition(k) => BumpsPartition(t, op, k)
  }

  /** A candidate the validator would not refuse for this entity's generation. */
  predicate Kept(t: Topology, op: Op, x: Entity) {
    && GenOf(t, x).Some?
    && Propose(t, op).Candidate?
    && GenOf(Propose(t, op).topology, x).Some?
    && GenOf(Propose(t, op).topology, x).value >= GenOf(t, x).value
  }

  lemma SwitchBump(t: Topology, op: Op, s: SwitchId)
    requires Kept(t, op, ASwitch(s))
    ensures Propose(t, op).topology.switches[s].gen > t.switches[s].gen <==> BumpsSwitch(t, op, s)
  {
    if op.InvalidateForWorker? || op.ExpireDynamicEvidence? || op.RevalidateAll? { return; }
    if op.ApplyBulk? { return; }
  }

  lemma PortBump(t: Topology, op: Op, p: PortId)
    requires Kept(t, op, APort(p))
    ensures Propose(t, op).topology.ports[p].gen > t.ports[p].gen <==> BumpsPort(t, op, p)
  {
    if op.InvalidateForWorker? || op.ExpireDynamicEvidence? || op.RevalidateAll? { return; }
    if op.ApplyBulk? { return; }
  }

  lemma LinkBump(t: Topology, op: Op, l: LinkId)
    requires Kept(t, op, ALink(l))
    ensures Propose(t, op).topology.links[l].gen > t.links[l].gen <==> BumpsLink(t, op, l)
  {
    if op.InvalidateForWorker? || op.ExpireDynamicEvidence? || op.RevalidateAll? { return; }
    if op.ApplyBulk? { return; }
  }

  lemma PartitionBump(t: Topology, op: Op, k: PartitionId)
    requires Kept(t, op, APartition(k))
    ensures Propose(t, op).topology.partitions[k].gen > t.partitions[k].gen <==> BumpsPartition(t, op, k)
  {}

  lemma CandidateBump(t: Topology, op: Op, x: Entity)
    requires Kept(t, op, x)
    ensures GenOf(Propose(t, op).topology, x).value > GenOf(t, x).value <==> Bumps(t, op, x)
  {
    match x
    case ASwitch(s) => SwitchBump(t, op, s);
    case APort(p) => PortBump(t, op, p);
    case ALink(l) => LinkBump(t, op, l);
    case APartition(k) => PartitionBump(t, op, k);
  }

  lemma AcceptedKept(r: State, op: Op, x: Entity)
    requires Accepts(Propose, r, op) && GenOf(r.current, x).Some? && GenOf(Step(Propose, r, op).current, x).Some?
    ensures Kept(r.current, op, x)
    ensures GenOf(Step(Propose, r, op).current, x) == GenOf(Propose(r.current, op).topology, x)
  {
    var c := Propose(r.current, op).topology;
    SameGens(c, Step(Propose, r, op).current, x);
    GenKept(r.current, c, x);
  }

  /**
   A committed step increases the generation of an entity that survives it exactly when it
   is one of the bumping operations, although the 64-bit increment wraps.
   */
  lemma BumpExact(r: State, op: Op, x: Entity)
    requires Accepts(Propose, r, op) && GenOf(r.current, x).Some? && GenOf(Step(Propose, r, op).current, x).Some?
    ensures GenOf(Step(Propose, r, op).current, x).value > GenOf(r.current, x).value <==> Bumps(r.current, op, x)
  {
    AcceptedKept(r, op, x);
    CandidateBump(r.current, op, x);
  }

  // ----- what a decision rests on -----

  /** The decision captured the entity at this generation. */
  predicate RestsOn(d: RouteDecision, x: Entity, g: Gen) {
    match x
    case ASwitch(s) => d.selected.Some? && (s, g) in d.selected.value.switchGens
    case APort(p) => d.selected.Some? && (p, g) in d.selected.value.portGens
    case ALink(_) => false
    case APartition(k) => d.partition == Some(k) && d.partitionGen == g
  }

  /** The entity is a switch or port of the selected path, or the governing partition. */
  predicate Traverses(d: RouteDecision, x: Entity) {
    match x
    case ASwitch(s) => d.selected.Some? && s in d.selected.value.switchSequence
    case APort(p) => d.selected.Some? && PathPort(d.selected.value.hops, p)
    case ALink(_) => false
    case APartition(k) => d.partition == Some(k)
  }

  lemma AuthorityNeedsGen(d: RouteDecision, t: Topology, x: Entity, g: Gen)
    requires RestsOn(d, x, g) && StillAuthoritative(d, t)
    ensures GenOf(t, x) == Some(g)
  {
    match x
    case ASwitch(s) => assert SwitchHolds(t, (s, g));
    case APort(p) => assert PortHolds(t, (p, g));
    case APartition(_) =>
  }

  lemma SwitchCaptured(t: Topology, p: FabricPath, s: SwitchId)
    requires SwitchesCurrent(t, p) && s in p.switchSequence
    ensures s in t.switches && (s, t.switches[s].gen) in SwitchGens(t, p.switchSequence)
  {}

  lemma PortCaptured(t: Topology, p: FabricPath, q: PortId)
    requires PathPort(p.hops, q) && forall i :: 0 <= i < |p.hops| ==> HopFresh(t, p.hops[i])
    ensures q in t.ports && (q, t.ports[q].gen) in PortGens(t, p.hops)
  {
    var i :| 0 <= i < |p.hops| && (q == p.hops[i].outPort || (q == p.hops[i].inPort && q != UNKNOWN_PORT));
    assert HopFresh(t, p.hops[i]);
  }

  lemma PathCaptures(t: Topology, policy: Policy, best: FabricPath, d: RouteDecision, x: Entity)
    requires PathEligible(t, policy, best) && d.selected == Some(Capture(t, best))
    requires d.partition.Some? ==> d.partition.value in t.partitions && d.partitionGen == t.partitions[d.partition.value].gen
    requires Traverses(d, x)
    ensures GenOf(t, x).Some? && RestsOn(d, x, GenOf(t, x).value)
  {
    match x
    case ASwitch(s) => SwitchCaptured(t, best, s);
    case APort(q) => PortCaptured(t, best, q);
    case APartition(_) =>
  }

  /** An allowed decision captured everything it traverses, at the generations of its own snapshot. */
  lemma DecisionCaptures(t: Topology, src: DeviceId, dst: DeviceId, policy: Policy, m: BestMeasurement, epoch: U64, d: RouteDecision, x: Entity)
    requires IsDecision(t, src, dst, policy, m, epoch, d) && Allowed(d) && Traverses(d, x)
    ensures GenOf(t, x).Some? && RestsOn(d, x, GenOf(t, x).value)
  {
    var part, raw, ranked, best := AllowedRests(t, src, dst, policy, m, epoch, d);
    PathCaptures(t, policy, best, d, x);
  }

  // ----- permanent revocation -----

  /** Once the generation has passed what the decision captured, it stays past it. */
  lemma Outdated(f: Mutators, r: State, es: seq<Event>, d: RouteDecision, x: Entity, g: Gen)
    requires Sound(f) && WellFormed(r.current) && Throughout(f, r, es, x)
    requires RestsOn(d, x, g) && g < GenOf(r.current, x).value
    ensures !StillAuthoritative(d, Run(f, r, es).current)
  {
    GenGrows(f, r, es, x);
    if StillAuthoritative(d, Run(f, r, es).current) {
      AuthorityNeedsGen(d, Run(f, r, es).current, x, g);
      assert false;
    }
  }

  /**
   Take any allowed decision, any events after it, then a committed operation that bumps a
   switch or port of its path or its partition, then any further events, revalidation
   included. If the entity is never removed, the decision is not authoritative at the end.
   */
  lemma PermanentRevocation(r: State, src: DeviceId, dst: DeviceId, policy: Policy, m: BestMeasurement, epoch: U64, d: RouteDecision,
                            before: seq<Event>, op: Op, after: seq<Event>, x: Entity)
    requires WellFormed(r.current)
    requires IsDecision(r.current, src, dst, policy, m, epoch, d) && Allowed(d) && Traverses(d, x)
    requires Throughout(Propose, r, before, x)
    requires var mid := Run(Propose, r, before);
      && Accepts(Propose, mid, op) && GenOf(mid.current, x).Some? && Bumps(mid.current, op, x)
      && Throughout(Propose, Step(Propose, mid, op), after, x)
    ensures !StillAuthoritative(d, Run(Propose, Step(Propose, Run(Propose, r, before), op), after).current)
  {
    MutatorsSound();
    DecisionCaptures(r.current, src, dst, policy, m, epoch, d, x);
    GenGrows(Propose, r, before, x);
    RunWellFormed(Propose, r, before);
    var mid := Run(Propose, r, before);
    StepWellFormed(Propose, mid, op);
    BumpExact(mid, op, x);
    Outdated(Propose, Step(Propose, mid, op), after, d, x, GenOf(r.current, x).value);
  }
}
