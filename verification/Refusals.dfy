/**
 Exactly when each registry operation is allowed, and what it answers when it is not, in
 record fields.
 */
module Refusals {
  import opened Wire
  import opened Fabric
  import opened Sets
  import opened Registry
  import opened RegistryLaws
  import opened Acceptance
  import opened Mutations

  // ----- the validator -----

  /** Every reference resolves, every port index is in bounds, and switches are kept under their own id. */
  predicate Referential(b: Tables) {
    && (forall s :: s in b.switches ==> b.switches[s].id == s)
    && (forall p :: p in b.ports ==> p.sw in b.switches && p.index < 256)
    && (forall l :: l in b.links ==>
          && b.links[l].rootSwitch in b.switches && b.links[l].port in b.ports && b.links[l].port.sw == b.links[l].rootSwitch
          && if b.links[l].otherEnd.kind == DEVICE_END then b.links[l].otherEnd.device in b.devices else b.links[l].otherEnd.sw in b.switches)
    && (forall k :: k in b.partitions ==>
          && (forall i :: 0 <= i < |b.partitions[k].members| ==> b.partitions[k].members[i] in b.devices)
          && (forall i :: 0 <= i < |b.partitions[k].switches| ==> b.partitions[k].switches[i] in b.switches))
  }

  predicate Counted(b: Tables) {
    |b.devices| <= 1024 && |b.switches| <= 256 && |b.ports| <= 65536 && |b.links| <= 131072 && |b.partitions| <= 256
  }

  /** No record that both hold has gone back in generation. */
  predicate NotBehind(a: Tables, b: Tables) {
    && (forall k :: k in a.switches && k in b.switches ==> a.switches[k].gen <= b.switches[k].gen)
    && (forall k :: k in a.ports && k in b.ports ==> a.ports[k].gen <= b.ports[k].gen)
    && (forall k :: k in a.links && k in b.links ==> a.links[k].gen <= b.links[k].gen)
    && (forall k :: k in a.partitions && k in b.partitions ==> a.partitions[k].gen <= b.partitions[k].gen)
  }

  lemma LinksMean(t: Topology)
    ensures (forall l :: l in t.links ==> LinkSound(t, t.links[l])) <==>
      forall l :: l in t.links ==>
        && t.links[l].rootSwitch in t.switches && t.links[l].port in t.ports && t.links[l].port.sw == t.links[l].rootSwitch
        && if t.links[l].otherEnd.kind == DEVICE_END then t.links[l].otherEnd.device in t.devices else t.links[l].otherEnd.sw in t.switches
  {}

  lemma PartitionsMean(t: Topology, p: Partition)
    ensures PartitionSound(t, p) <==>
      && (forall i :: 0 <= i < |p.members| ==> p.members[i] in t.devices)
      && (forall i :: 0 <= i < |p.switches| ==> p.switches[i] in t.switches)
  {}

  lemma IntegrityMeans(t: Topology)
    ensures Integrity(t) <==> Referential(TablesOf(t))
  {
    LinksMean(t);
    forall k | k in t.partitions { PartitionsMean(t, t.partitions[k]); }
  }

  lemma LimitsMean(t: Topology)
    ensures WithinLimits(t) <==> Counted(TablesOf(t))
  {}

  lemma GensMean(was: Topology, cand: Topology)
    ensures GensKept(was, cand) <==> NotBehind(TablesOf(was), TablesOf(cand)) && was.topologyGen <= cand.topologyGen
  {}

  /** What the validator judges a candidate by. */
  lemma ValidMeans(was: Topology, cand: Topology)
    ensures Valid(was, cand) <==>
      && Referential(TablesOf(cand)) && Counted(TablesOf(cand))
      && NotBehind(TablesOf(was), TablesOf(cand)) && was.topologyGen <= cand.topologyGen
  {
    IntegrityMeans(cand);
    LimitsMean(cand);
    GensMean(was, cand);
  }

  // ----- when an operation is refused before it is judged -----

  predicate NamesNothing(t: Topology, op: Op) {
    match op
    case RemoveDevice(id) => id !in t.devices
    case RemoveSwitch(id) => id !in t.switches
    case SetSwitchState(id, _) => id !in t.switches
    case RestartSwitch(id, _) => id !in t.switches
    case RemovePort(id) => id !in t.ports
    case SetPortState(id, _) => id !in t.ports
    case RemoveLink(id) => id !in t.links
    case SetLinkState(id, _, _) => id !in t.links
    case RemovePartition(id) => id !in t.partitions
    case MarkPartitionStale(id) => id !in t.partitions
    case _ => false
  }

  /** A new link's root, port and end are there; an end of unknown kind is not looked at. */
  predicate Connects(t: Topology, l: LinkRecord) {
    && l.rootSwitch in t.switches && l.port in t.ports && l.port.sw == l.rootSwitch
    && (l.otherEnd.kind == DEVICE_END ==> l.otherEnd.device in t.devices)
    && (l.otherEnd.kind == SWITCH_END ==> l.otherEnd.sw in t.switches)
  }

  predicate AlreadyThere(t: Topology, op: Op) {
    match op
    case AddDevice(rec) => rec.id in t.devices
    case AddSwitch(rec) => rec.id in t.switches
    case AddPort(rec) => rec.id.sw in t.switches && rec.id in t.ports
    case AddLink(rec) => Connects(t, rec) && rec.id in t.links
    case _ => false
  }

  predicate TooMany(t: Topology, op: Op) {
    match op
    case AddDevice(rec) => rec.id !in t.devices && |t.devices| >= 1024
    case AddSwitch(rec) => rec.id !in t.switches && |t.switches| >= 256
    case AddPort(rec) => rec.id.sw in t.switches && rec.id !in t.ports && |t.ports| >= 65536
    case AddLink(rec) => Connects(t, rec) && rec.id !in t.links && |t.links| >= 131072
    case PublishPartition(part) => part.id !in t.partitions && |t.partitions| >= 256
    case _ => false
  }

  predicate BadArgument(t: Topology, op: Op) {
    match op
    case AddPort(rec) => rec.id.sw !in t.switches || (rec.id !in t.ports && |t.ports| < 65536 && rec.id.index >= 256)
    case AddLink(rec) => !Connects(t, rec)
    case _ => false
  }

  /** A published partition lists a device or switch that is not there. */
  predicate BadPartition(t: Topology, op: Op) {
    && op.PublishPartition? && !TooMany(t, op)
    && ((exists i :: 0 <= i < |op.part.members| && op.part.members[i] !in t.devices)
        || exists i :: 0 <= i < |op.part.switches| && op.part.switches[i] !in t.switches)
  }

  predicate GoesBack(t: Topology, op: Op) {
    op.RestartSwitch? && op.switchId in t.switches && op.newGen < t.switches[op.switchId].gen
  }

  predicate RefusedEarly(t: Topology, op: Op) {
    NamesNothing(t, op) || AlreadyThere(t, op) || TooMany(t, op) || BadArgument(t, op) || BadPartition(t, op) || GoesBack(t, op)
  }

  lemma EarlyAnswer(t: Topology, op: Op)
    ensures Propose(t, op) == Refused(NOT_FOUND) <==> NamesNothing(t, op)
    ensures Propose(t, op) == Refused(ALREADY_EXISTS) <==> AlreadyThere(t, op)
    ensures Propose(t, op) == Refused(RESOURCE_LIMIT) <==> TooMany(t, op)
    ensures Propose(t, op) == Refused(INVALID_ARGUMENT) <==> BadArgument(t, op)
    ensures Propose(t, op) == Refused(INVALID_PARTITION) <==> BadPartition(t, op)
    ensures Propose(t, op) == Refused(STALE_GENERATION) <==> GoesBack(t, op)
    ensures Propose(t, op) != Refused(INVALID_TOPOLOGY)
  {
    if op.PublishPartition? { PartitionsMean(t, op.part); }
  }

  /** What a mutator call answers: the error of the first check that fails, and none exactly when it commits. */
  lemma AnswersExactly(r: State, op: Op)
    ensures Answer(r, op) == Some(NOT_FOUND) <==> NamesNothing(r.current, op)
    ensures Answer(r, op) == Some(ALREADY_EXISTS) <==> AlreadyThere(r.current, op)
    ensures Answer(r, op) == Some(RESOURCE_LIMIT) <==> TooMany(r.current, op)
    ensures Answer(r, op) == Some(INVALID_ARGUMENT) <==> BadArgument(r.current, op)
    ensures Answer(r, op) == Some(INVALID_PARTITION) <==> BadPartition(r.current, op)
    ensures Answer(r, op) == Some(STALE_GENERATION) <==> GoesBack(r.current, op)
    ensures Answer(r, op) == Some(INVALID_TOPOLOGY) <==> !RefusedEarly(r.current, op) && !Accepts(Propose, r, op)
    ensures Answer(r, op) == None <==> Accepts(Propose, r, op)
  {
    EarlyAnswer(r.current, op);
  }

  // ----- exactly when each operation commits -----

  lemma OneMore<K, V>(m: map<K, V>, k: K, v: V)
    requires k !in m
    ensures |m[k := v]| == |m| + 1
  {
    assert m[k := v].Keys == m.Keys + {k};
  }

  lemma AsMany<K, V>(m: map<K, V>, k: K, v: V)
    requires k in m
    ensures m[k := v].Keys == m.Keys && |m[k := v]| == |m|
  {
    assert m[k := v].Keys == m.Keys;
    assert |m[k := v]| == |m[k := v].Keys| && |m| == |m.Keys|;
  }

  predicate Grown(t: Topology, c: Topology) {
    && t.devices.Keys <= c.devices.Keys && t.switches.Keys <= c.switches.Keys && t.ports.Keys <= c.ports.Keys
    && (forall s :: s in c.switches ==> c.switches[s].id == s) && forall p :: p in c.ports ==> p in t.ports || PortSound(c, p)
  }

  predicate LinksCarried(t: Topology, c: Topology) {
    forall l :: l in c.links ==> LinkSound(c, c.links[l]) || (l in t.links && c.links[l] == t.links[l])
  }

  predicate PartitionsCarried(t: Topology, c: Topology) {
    forall k :: k in c.partitions ==> PartitionSound(c, c.partitions[k]) || (k in t.partitions && c.partitions[k] == t.partitions[k])
  }

  /** Integrity survives when nothing goes that a link or partition left over could refer to. */
  lemma GrownIntegrity(t: Topology, c: Topology)
    requires Integrity(t) && Grown(t, c) && LinksCarried(t, c) && PartitionsCarried(t, c)
    ensures Integrity(c)
  {
    forall p | p in c.ports ensures PortSound(c, p) { if p in t.ports { assert PortSound(t, p); } }
    forall l | l in c.links ensures LinkSound(c, c.links[l]) {
      if l in t.links && c.links[l] == t.links[l] { assert LinkSound(t, t.links[l]); }
    }
    forall k | k in c.partitions ensures PartitionSound(c, c.partitions[k]) {
      if k in t.partitions && c.partitions[k] == t.partitions[k] { assert PartitionSound(t, t.partitions[k]); }
    }
  }

  lemma AddedDeviceIntegrity(t: Topology, rec: DeviceRecord)
    requires Integrity(t) && ProposeAddDevice(t, rec).Candidate?
    ensures Integrity(ProposeAddDevice(t, rec).topology)
  {
    GrownIntegrity(t, ProposeAddDevice(t, rec).topology);
  }

  lemma AddedDeviceGens(t: Topology, rec: DeviceRecord)
    requires ProposeAddDevice(t, rec).Candidate?
    ensures GensKept(t, ProposeAddDevice(t, rec).topology) <==> t.topologyGen < U64_MAX
  {}

  lemma AddDeviceExact(r: State, rec: DeviceRecord)
    requires WellFormed(r.current)
    ensures Passes(r, ProposeAddDevice(r.current, rec)) <==>
      rec.id !in r.current.devices && |r.current.devices| < 1024 && r.current.topologyGen < U64_MAX
  {
    if ProposeAddDevice(r.current, rec).Candidate? {
      AddedDeviceIntegrity(r.current, rec);
      AddedDeviceGens(r.current, rec);
      OneMore(r.current.devices, rec.id, rec);
    }
  }

  lemma AddedSwitchIntegrity(t: Topology, rec: SwitchRecord)
    requires Integrity(t) && ProposeAddSwitch(t, rec).Candidate?
    ensures Integrity(ProposeAddSwitch(t, rec).topology)
  {
    GrownIntegrity(t, ProposeAddSwitch(t, rec).topology);
  }

  lemma AddedSwitchLimits(t: Topology, rec: SwitchRecord)
    requires WithinLimits(t) && ProposeAddSwitch(t, rec).Candidate?
    ensures WithinLimits(ProposeAddSwitch(t, rec).topology)
  {
    OneMore(t.switches, rec.id, rec);
  }

  lemma AddedSwitchGens(t: Topology, rec: SwitchRecord)
    requires ProposeAddSwitch(t, rec).Candidate?
    ensures GensKept(t, ProposeAddSwitch(t, rec).topology) <==> t.topologyGen < U64_MAX
  {}

  lemma AddSwitchExact(r: State, rec: SwitchRecord)
    requires WellFormed(r.current)
    ensures Passes(r, ProposeAddSwitch(r.current, rec)) <==>
      rec.id !in r.current.switches && |r.current.switches| < 256 && r.current.topologyGen < U64_MAX
  {
    if ProposeAddSwitch(r.current, rec).Candidate? {
      AddedSwitchIntegrity(r.current, rec);
      AddedSwitchGens(r.current, rec);
      AddedSwitchLimits(r.current, rec);
    }
  }

  lemma SwitchStateShape(t: Topology, id: SwitchId, state: Byte)
    requires id in t.switches
    ensures SameShape(t, ProposeSetSwitchState(t, id, state).topology)
  {}

  lemma SwitchStateGens(t: Topology, id: SwitchId, state: Byte)
    requires id in t.switches
    ensures GensKept(t, ProposeSetSwitchState(t, id, state).topology) <==>
      && t.topologyGen < U64_MAX
      && (state == DOWN || state == UNREACHABLE || state == ABSENT || state == STALE || state == REVALIDATION_REQUIRED
          ==> t.switches[id].gen < U64_MAX)
  {
    var c := ProposeSetSwitchState(t, id, state).topology;
    assert GensKept(t, c) <==> c.switches[id].gen >= t.switches[id].gen && c.topologyGen >= t.topologyGen;
  }

  lemma SetSwitchStateExact(r: State, id: SwitchId, state: Byte)
    requires WellFormed(r.current)
    ensures Passes(r, ProposeSetSwitchState(r.current, id, state)) <==>
      && id in r.current.switches && r.current.topologyGen < U64_MAX
      && (state == DOWN || state == UNREACHABLE || state == ABSENT || state == STALE || state == REVALIDATION_REQUIRED
          ==> r.current.switches[id].gen < U64_MAX)
  {
    if id in r.current.switches {
      SwitchStateShape(r.current, id, state);
      SwitchStateGens(r.current, id, state);
      ShapeValid(r.current, ProposeSetSwitchState(r.current, id, state).topology);
    }
  }

  lemma RestartShape(t: Topology, id: SwitchId, newGen: Gen)
    requires id in t.switches && t.switches[id].gen <= newGen
    ensures SameShape(t, ProposeRestartSwitch(t, id, newGen).topology)
  {}

  lemma RestartGens(t: Topology, id: SwitchId, newGen: Gen)
    requires id in t.switches && t.switches[id].gen <= newGen
    ensures GensKept(t, ProposeRestartSwitch(t, id, newGen).topology) <==> t.topologyGen < U64_MAX
  {}

  lemma RestartSwitchExact(r: State, id: SwitchId, newGen: Gen)
    requires WellFormed(r.current)
    ensures Passes(r, ProposeRestartSwitch(r.current, id, newGen)) <==>
      id in r.current.switches && r.current.switches[id].gen <= newGen && r.current.topologyGen < U64_MAX
  {
    if id in r.current.switches && r.current.switches[id].gen <= newGen {
      RestartShape(r.current, id, newGen);
      RestartGens(r.current, id, newGen);
      ShapeValid(r.current, ProposeRestartSwitch(r.current, id, newGen).topology);
    }
  }

  lemma AddedPortLimits(t: Topology, rec: PortRecord)
    requires WithinLimits(t) && ProposeAddPort(t, rec).Candidate?
    ensures WithinLimits(ProposeAddPort(t, rec).topology)
  {
    var c := ProposeAddPort(t, rec).topology;
    OneMore(t.ports, rec.id, rec);
    AsMany(t.switches, rec.id.sw, c.switches[rec.id.sw]);
  }

  lemma AddedPortIntegrity(t: Topology, rec: PortRecord)
    requires Integrity(t) && ProposeAddPort(t, rec).Candidate?
    ensures Integrity(ProposeAddPort(t, rec).topology)
  {
    var c := ProposeAddPort(t, rec).topology;
    AsMany(t.switches, rec.id.sw, c.switches[rec.id.sw]);
    GrownIntegrity(t, c);
  }

  lemma AddedPortGens(t: Topology, rec: PortRecord)
    requires ProposeAddPort(t, rec).Candidate?
    ensures GensKept(t, ProposeAddPort(t, rec).topology) <==> t.topologyGen < U64_MAX
  {}

  lemma AddPortExact(r: State, rec: PortRecord)
    requires WellFormed(r.current)
    ensures Passes(r, ProposeAddPort(r.current, rec)) <==>
      && rec.id.sw in r.current.switches && rec.id !in r.current.ports && |r.current.ports| < 65536 && rec.id.index < 256
      && r.current.topologyGen < U64_MAX
  {
    if ProposeAddPort(r.current, rec).Candidate? {
      AddedPortLimits(r.current, rec);
      AddedPortIntegrity(r.current, rec);
      AddedPortGens(r.current, rec);
    }
  }

  lemma PortStateShape(t: Topology, id: PortId, state: Byte)
    requires id in t.ports
    ensures SameShape(t, ProposeSetPortState(t, id, state).topology)
  {}

  lemma PortStateGens(t: Topology, id: PortId, state: Byte)
    requires id in t.ports
    ensures GensKept(t, ProposeSetPortState(t, id, state).topology) <==>
      && t.topologyGen < U64_MAX
      && (state == DOWN || state == UNREACHABLE || state == ABSENT || state == STALE || state == REVALIDATION_REQUIRED || state == DISABLED
          ==> t.ports[id].gen < U64_MAX)
  {
    var c := ProposeSetPortState(t, id, state).topology;
    assert GensKept(t, c) <==> c.ports[id].gen >= t.ports[id].gen && c.topologyGen >= t.topologyGen;
  }

  lemma SetPortStateExact(r: State, id: PortId, state: Byte)
    requires WellFormed(r.current)
    ensures Passes(r, ProposeSetPortState(r.current, id, state)) <==>
      && id in r.current.ports && r.current.topologyGen < U64_MAX
      && (state == DOWN || state == UNREACHABLE || state == ABSENT || state == STALE || state == REVALIDATION_REQUIRED || state == DISABLED
          ==> r.current.ports[id].gen < U64_MAX)
  {
    if id in r.current.ports {
      PortStateShape(r.current, id, state);
      PortStateGens(r.current, id, state);
      ShapeValid(r.current, ProposeSetPortState(r.current, id, state).topology);
    }
  }

  /** The new link passes the validator exactly when an end that is not a device end names a switch that is there. */
  lemma AddedLinkIntegrity(t: Topology, rec: LinkRecord)
    requires Integrity(t) && ProposeAddLink(t, rec).Candidate?
    ensures Integrity(ProposeAddLink(t, rec).topology) <==> rec.otherEnd.kind == DEVICE_END || rec.otherEnd.sw in t.switches
  {
    var c := ProposeAddLink(t, rec).topology;
    if rec.otherEnd.kind == DEVICE_END || rec.otherEnd.sw in t.switches {
      assert LinkSound(c, rec);
      GrownIntegrity(t, c);
    } else {
      assert !LinkSound(c, c.links[rec.id]);
    }
  }

  lemma AddedLinkLimits(t: Topology, rec: LinkRecord)
    requires WithinLimits(t) && ProposeAddLink(t, rec).Candidate?
    ensures WithinLimits(ProposeAddLink(t, rec).topology)
  {
    OneMore(t.links, rec.id, rec);
  }

  lemma AddedLinkGens(t: Topology, rec: LinkRecord)
    requires ProposeAddLink(t, rec).Candidate?
    ensures GensKept(t, ProposeAddLink(t, rec).topology) <==> t.topologyGen < U64_MAX
  {}

  lemma AddLinkExact(r: State, rec: LinkRecord)
    requires WellFormed(r.current)
    ensures Passes(r, ProposeAddLink(r.current, rec)) <==>
      && Connects(r.current, rec) && (rec.otherEnd.kind == DEVICE_END || rec.otherEnd.sw in r.current.switches)
      && rec.id !in r.current.links && |r.current.links| < 131072 && r.current.topologyGen < U64_MAX
  {
    if ProposeAddLink(r.current, rec).Candidate? {
      AddedLinkIntegrity(r.current, rec);
      AddedLinkGens(r.current, rec);
      AddedLinkLimits(r.current, rec);
    }
  }

  lemma RemoveLinkExact(r: State, id: LinkId)
    requires WellFormed(r.current)
    ensures Passes(r, ProposeRemoveLink(r.current, id)) <==> id in r.current.links && r.current.topologyGen < U64_MAX
  {
    var p := ProposeRemoveLink(r.current, id);
    if p.Candidate? {
      GrownIntegrity(r.current, p.topology);
      StillWithinLimits(r.current, p.topology);
    }
  }

  lemma LinkStateShape(t: Topology, id: LinkId, state: Byte, degraded: bool)
    requires id in t.links
    ensures SameShape(t, ProposeSetLinkState(t, id, state, degraded).topology)
  {}

  lemma LinkStateGens(t: Topology, id: LinkId, state: Byte, degraded: bool)
    requires id in t.links
    ensures GensKept(t, ProposeSetLinkState(t, id, state, degraded).topology) <==>
      && t.topologyGen < U64_MAX
      && (state == DOWN || state == UNREACHABLE || state == STALE || state == REVALIDATION_REQUIRED ==> t.links[id].gen < U64_MAX)
  {
    var c := ProposeSetLinkState(t, id, state, degraded).topology;
    assert GensKept(t, c) <==> c.links[id].gen >= t.links[id].gen && c.topologyGen >= t.topologyGen;
  }

  lemma SetLinkStateExact(r: State, id: LinkId, state: Byte, degraded: bool)
    requires WellFormed(r.current)
    ensures Passes(r, ProposeSetLinkState(r.current, id, state, degraded)) <==>
      && id in r.current.links && r.current.topologyGen < U64_MAX
      && (state == DOWN || state == UNREACHABLE || state == STALE || state == REVALIDATION_REQUIRED
          ==> r.current.links[id].gen < U64_MAX)
  {
    if id in r.current.links {
      LinkStateShape(r.current, id, state, degraded);
      LinkStateGens(r.current, id, state, degraded);
      ShapeValid(r.current, ProposeSetLinkState(r.current, id, state, degraded).topology);
    }
  }

  lemma CongestionShape(t: Topology, observed: seq<LinkDegradation>)
    ensures SameShape(t, ProposePublishCongestion(t, observed).topology)
  {
    var c := ProposePublishCongestion(t, observed).topology;
    forall l | l in t.links ensures SameEnds(t.links[l], c.links[l]) { DegradeObserves(t.links, observed, l); }
  }

  lemma CongestionGens(t: Topology, observed: seq<LinkDegradation>)
    ensures GensKept(t, ProposePublishCongestion(t, observed).topology) <==> t.topologyGen < U64_MAX
  {}

  lemma PublishCongestionExact(r: State, observed: seq<LinkDegradation>)
    requires WellFormed(r.current)
    ensures Passes(r, ProposePublishCongestion(r.current, observed)) <==> r.current.topologyGen < U64_MAX
  {
    CongestionShape(r.current, observed);
    CongestionGens(r.current, observed);
    ShapeValid(r.current, ProposePublishCongestion(r.current, observed).topology);
  }

  lemma PublishedIntegrity(t: Topology, part: Partition)
    requires Integrity(t) && ProposePublishPartition(t, part).Candidate?
    ensures Integrity(ProposePublishPartition(t, part).topology)
  {
    var c := ProposePublishPartition(t, part).topology;
    assert PartitionSound(t, part);
    assert PartitionSound(c, c.partitions[part.id]);
    GrownIntegrity(t, c);
  }

  lemma PublishedLimits(t: Topology, part: Partition)
    requires WithinLimits(t) && ProposePublishPartition(t, part).Candidate?
    ensures WithinLimits(ProposePublishPartition(t, part).topology)
  {
    var now := PublishedPartition(t, part);
    if part.id in t.partitions { AsMany(t.partitions, part.id, now); } else { OneMore(t.partitions, part.id, now); }
  }

  /** A change to a partition above generation zero, with the old or the incoming generation the last one. */
  predicate WrapsPast(t: Topology, part: Partition) {
    && part.id in t.partitions
    && var was := t.partitions[part.id];
       && was.gen > 0 && (was.gen == U64_MAX || part.gen == U64_MAX)
       && (multiset(was.members) != multiset(part.members) || was.fabric != part.fabric || was.state != part.state)
  }

  lemma PublishedGens(t: Topology, part: Partition)
    requires ProposePublishPartition(t, part).Candidate?
    ensures GensKept(t, ProposePublishPartition(t, part).topology) <==> t.topologyGen < U64_MAX && !WrapsPast(t, part)
  {
    var c := ProposePublishPartition(t, part).topology;
    var now := PublishedPartition(t, part);
    assert part.id in t.partitions ==> (now.gen >= t.partitions[part.id].gen <==> !WrapsPast(t, part));
    assert GensKept(t, c) <==> c.topologyGen >= t.topologyGen && (part.id in t.partitions ==> now.gen >= t.partitions[part.id].gen);
  }

  lemma PublishPartitionExact(r: State, part: Partition)
    requires WellFormed(r.current)
    ensures Passes(r, ProposePublishPartition(r.current, part)) <==>
      && (part.id in r.current.partitions || |r.current.partitions| < 256)
      && (forall i :: 0 <= i < |part.members| ==> part.members[i] in r.current.devices)
      && (forall i :: 0 <= i < |part.switches| ==> part.switches[i] in r.current.switches)
      && r.current.topologyGen < U64_MAX && !WrapsPast(r.current, part)
  {
    PartitionsMean(r.current, part);
    if ProposePublishPartition(r.current, part).Candidate? {
      PublishedIntegrity(r.current, part);
      PublishedLimits(r.current, part);
      PublishedGens(r.current, part);
    }
  }

  lemma RemovedPartitionGens(t: Topology, id: PartitionId)
    requires id in t.partitions
    ensures GensKept(t, ProposeRemovePartition(t, id).topology) <==> t.topologyGen < U64_MAX
  {}

  lemma RemovePartitionExact(r: State, id: PartitionId)
    requires WellFormed(r.current)
    ensures Passes(r, ProposeRemovePartition(r.current, id)) <==> id in r.current.partitions && r.current.topologyGen < U64_MAX
  {
    var p := ProposeRemovePartition(r.current, id);
    if p.Candidate? {
      GrownIntegrity(r.current, p.topology);
      RemovedPartitionGens(r.current, id);
      StillWithinLimits(r.current, p.topology);
    }
  }

  lemma MarkShape(t: Topology, id: PartitionId)
    requires id in t.partitions
    ensures SameShape(t, ProposeMarkPartitionStale(t, id).topology)
  {}

  lemma MarkGens(t: Topology, id: PartitionId)
    requires id in t.partitions
    ensures GensKept(t, ProposeMarkPartitionStale(t, id).topology) <==>
      t.topologyGen < U64_MAX && (t.partitions[id].state == PARTITION_STALE || t.partitions[id].gen < U64_MAX)
  {
    var c := ProposeMarkPartitionStale(t, id).topology;
    assert GensKept(t, c) <==> c.partitions[id].gen >= t.partitions[id].gen && c.topologyGen >= t.topologyGen;
  }

  lemma MarkPartitionStaleExact(r: State, id: PartitionId)
    requires WellFormed(r.current)
    ensures Passes(r, ProposeMarkPartitionStale(r.current, id)) <==>
      && id in r.current.partitions && r.current.topologyGen < U64_MAX
      && (r.current.partitions[id].state == PARTITION_STALE || r.current.partitions[id].gen < U64_MAX)
  {
    if id in r.current.partitions {
      MarkShape(r.current, id);
      MarkGens(r.current, id);
      ShapeValid(r.current, ProposeMarkPartitionStale(r.current, id).topology);
    }
  }

  /** A bulk edit commits exactly when the tables it leaves hold together, are within the limits and are nowhere behind. */
  lemma ApplyBulkExact(r: State, e: BulkEdit, b: Tables)
    requires BulkApplied(TablesOf(r.current), e, b)
    ensures Passes(r, ProposeBulk(r.current, e)) <==>
      Referential(b) && Counted(b) && NotBehind(TablesOf(r.current), b) && r.current.topologyGen < U64_MAX
  {
    var c := ProposeBulk(r.current, e).topology;
    ApplyBulkLeaves(r.current, e, c);
    BulkOnce(TablesOf(r.current), e, b, TablesOf(c));
    ValidMeans(r.current, c);
  }
}
