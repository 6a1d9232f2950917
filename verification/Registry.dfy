/**
 The transactional registry: every mutator edits a copy of the snapshot, one
 validator judges the copy, and an accepted copy replaces the snapshot.
 */
module Registry {
  import opened Wire
  import opened Fabric

  datatype Error =
    | NOT_FOUND
    | ALREADY_EXISTS
    | RESOURCE_LIMIT
    | INVALID_ARGUMENT
    | INVALID_PARTITION
    | STALE_GENERATION
    | INVALID_TOPOLOGY

  datatype LinkDegradation = LinkDegradation(link: LinkId, linkKnown: bool, degraded: bool)

  datatype BulkEdit = BulkEdit(
    devices: seq<DeviceRecord>, switches: seq<SwitchRecord>, ports: seq<PortRecord>,
    links: seq<LinkRecord>, partitions: seq<Partition>)

  datatype Op =
    | AddDevice(device: DeviceRecord)
    | RemoveDevice(deviceId: DeviceId)
    | AddSwitch(sw: SwitchRecord)
    | RemoveSwitch(switchId: SwitchId)
    | SetSwitchState(switchId: SwitchId, state: Byte)
    | RestartSwitch(switchId: SwitchId, newGen: Gen)
    | AddPort(port: PortRecord)
    | RemovePort(portId: PortId)
    | SetPortState(portId: PortId, state: Byte)
    | AddLink(link: LinkRecord)
    | RemoveLink(linkId: LinkId)
    | SetLinkState(linkId: LinkId, state: Byte, degraded: bool)
    | PublishPartition(part: Partition)
    | RemovePartition(partitionId: PartitionId)
    | MarkPartitionStale(partitionId: PartitionId)
    | PublishCongestion(observed: seq<LinkDegradation>)
    | InvalidateForWorker(worker: WorkerId, boot: BootId)
    | ExpireDynamicEvidence
    | RevalidateAll
    | ApplyBulk(edit: BulkEdit)

  // ----- edits -----

  /** What a mutator hands to the validator, or why it refuses before that. */
  datatype Proposal = Candidate(topology: Topology) | Refused(error: Error)

  function Advance(t: Topology): Topology {
    t.(topologyGen := Next(t.topologyGen))
  }

  /** A table with every record replaced by its image. */
  function MapValues<K, V>(m: map<K, V>, f: V -> V): (r: map<K, V>)
    ensures r.Keys == m.Keys
  {
    map k | k in m :: f(m[k])
  }

  /** A table without the records that meet the condition. */
  function Without<K, V>(m: map<K, V>, doomed: V -> bool): (r: map<K, V>)
    ensures r.Keys <= m.Keys
  {
    map k | k in m && !doomed(m[k]) :: m[k]
  }

  function ProposeAddDevice(t: Topology, rec: DeviceRecord): Proposal {
    if rec.id in t.devices then Refused(ALREADY_EXISTS)
    else if |t.devices| >= MAX_DEVICES then Refused(RESOURCE_LIMIT)
    else Candidate(Advance(t.(devices := t.devices[rec.id := rec])))
  }

  predicate EndsAtDevice(l: LinkRecord, d: DeviceId) {
    l.otherEnd.kind == DEVICE_END && l.otherEnd.device == d
  }

  function EndingAtDevice(d: DeviceId): LinkRecord -> bool {
    (l: LinkRecord) => EndsAtDevice(l, d)
  }

  function ProposeRemoveDevice(t: Topology, id: DeviceId): Proposal {
    if id !in t.devices then Refused(NOT_FOUND)
    else Candidate(Advance(t.(
      devices := t.devices - {id},
      links := Without(t.links, EndingAtDevice(id)))))
  }

  function ProposeAddSwitch(t: Topology, rec: SwitchRecord): Proposal {
    if rec.id in t.switches then Refused(ALREADY_EXISTS)
    else if |t.switches| >= MAX_SWITCHES then Refused(RESOURCE_LIMIT)
    else Candidate(Advance(t.(switches := t.switches[rec.id := rec])))
  }

  predicate TouchesSwitch(l: LinkRecord, s: SwitchId) {
    l.rootSwitch == s || (l.otherEnd.kind == SWITCH_END && l.otherEnd.sw == s)
  }

  function TouchingSwitch(s: SwitchId): LinkRecord -> bool {
    (l: LinkRecord) => TouchesSwitch(l, s)
  }

  function PortsOffSwitch(m: map<PortId, PortRecord>, s: SwitchId): map<PortId, PortRecord> {
    map p | p in m && p.sw != s :: m[p]
  }

  function ProposeRemoveSwitch(t: Topology, id: SwitchId): Proposal {
    if id !in t.switches then Refused(NOT_FOUND)
    else Candidate(Advance(t.(
      switches := t.switches - {id},
      ports := PortsOffSwitch(t.ports, id),
      links := Without(t.links, TouchingSwitch(id)))))
  }

  predicate SwitchFailure(state: Byte) {
    state == DOWN || state == UNREACHABLE || state == STALE || state == REVALIDATION_REQUIRED || state == ABSENT
  }

  predicate PortFailure(state: Byte) {
    SwitchFailure(state) || state == DISABLED
  }

  predicate LinkFailure(state: Byte) {
    state == DOWN || state == STALE || state == REVALIDATION_REQUIRED || state == UNREACHABLE
  }

  function ProposeSetSwitchState(t: Topology, id: SwitchId, state: Byte): Proposal {
    if id !in t.switches then Refused(NOT_FOUND)
    else
      var r := t.switches[id];
      Candidate(Advance(t.(switches := t.switches[id :=
        r.(gen := if SwitchFailure(state) then Next(r.gen) else r.gen, state := state)])))
  }

  function ProposeRestartSwitch(t: Topology, id: SwitchId, newGen: Gen): Proposal {
    if id !in t.switches then Refused(NOT_FOUND)
    else if newGen < t.switches[id].gen then Refused(STALE_GENERATION)
    else Candidate(Advance(t.(switches := t.switches[id :=
      t.switches[id].(gen := newGen, state := REVALIDATION_REQUIRED)])))
  }

  function ProposeAddPort(t: Topology, rec: PortRecord): Proposal {
    if rec.id.sw !in t.switches then Refused(INVALID_ARGUMENT)
    else if rec.id in t.ports then Refused(ALREADY_EXISTS)
    else if |t.ports| >= MAX_PORTS then Refused(RESOURCE_LIMIT)
    else if rec.id.index >= MAX_PORTS_PER_SWITCH then Refused(INVALID_ARGUMENT)
    else
      var s := t.switches[rec.id.sw];
      Candidate(Advance(t.(
        switches := t.switches[rec.id.sw := if rec.id.index >= s.portCount then s.(portCount := rec.id.index + 1) else s],
        ports := t.ports[rec.id := rec])))
  }

  function LeavingPort(p: PortId): LinkRecord -> bool {
    (l: LinkRecord) => l.port == p
  }

  function ProposeRemovePort(t: Topology, id: PortId): Proposal {
    if id !in t.ports then Refused(NOT_FOUND)
    else Candidate(Advance(t.(
      ports := t.ports - {id},
      links := Without(t.links, LeavingPort(id)))))
  }

  function ProposeSetPortState(t: Topology, id: PortId, state: Byte): Proposal {
    if id !in t.ports then Refused(NOT_FOUND)
    else
      var r := t.ports[id];
      Candidate(Advance(t.(ports := t.ports[id :=
        r.(gen := if PortFailure(state) then Next(r.gen) else r.gen, state := state)])))
  }

  function ProposeAddLink(t: Topology, rec: LinkRecord): Proposal {
    if rec.rootSwitch !in t.switches || rec.port !in t.ports || rec.port.sw != rec.rootSwitch then Refused(INVALID_ARGUMENT)
    else if rec.otherEnd.kind == DEVICE_END && rec.otherEnd.device !in t.devices then Refused(INVALID_ARGUMENT)
    else if rec.otherEnd.kind == SWITCH_END && rec.otherEnd.sw !in t.switches then Refused(INVALID_ARGUMENT)
    else if rec.id in t.links then Refused(ALREADY_EXISTS)
    else if |t.links| >= MAX_LINKS then Refused(RESOURCE_LIMIT)
    else Candidate(Advance(t.(links := t.links[rec.id := rec])))
  }

  function ProposeRemoveLink(t: Topology, id: LinkId): Proposal {
    if id !in t.links then Refused(NOT_FOUND)
    else Candidate(Advance(t.(links := t.links - {id})))
  }

  function ProposeSetLinkState(t: Topology, id: LinkId, state: Byte, degraded: bool): Proposal {
    if id !in t.links then Refused(NOT_FOUND)
    else
      var r := t.links[id];
      Candidate(Advance(t.(links := t.links[id :=
        r.(gen := if LinkFailure(state) then Next(r.gen) else r.gen, state := state, degraded := degraded)])))
  }

  /** Membership is compared as a sorted list, so as a multiset. */
  predicate PartitionChanged(was: Partition, now: Partition) {
    multiset(was.members) != multiset(now.members) || was.fabric != now.fabric || was.state != now.state
  }

  function MaxGen(a: Gen, b: Gen): Gen {
    if a < b then b else a
  }

  function PublishedPartition(t: Topology, part: Partition): Partition {
    if part.id !in t.partitions then
      if part.gen == 0 then part.(gen := 1) else part
    else
      var g := MaxGen(t.partitions[part.id].gen, part.gen);
      part.(gen := if PartitionChanged(t.partitions[part.id], part) then Next(g) else g)
  }

  function ProposePublishPartition(t: Topology, part: Partition): Proposal {
    if part.id !in t.partitions && |t.partitions| >= MAX_PARTITIONS then Refused(RESOURCE_LIMIT)
    else if !PartitionSound(t, part) then Refused(INVALID_PARTITION)
    else Candidate(Advance(t.(partitions := t.partitions[part.id := PublishedPartition(t, part)])))
  }

  function ProposeRemovePartition(t: Topology, id: PartitionId): Proposal {
    if id !in t.partitions then Refused(NOT_FOUND)
    else Candidate(Advance(t.(partitions := t.partitions - {id})))
  }

  function ProposeMarkPartitionStale(t: Topology, id: PartitionId): Proposal {
    if id !in t.partitions then Refused(NOT_FOUND)
    else
      var r := t.partitions[id];
      Candidate(Advance(t.(partitions := t.partitions[id :=
        r.(gen := if r.state != PARTITION_STALE then Next(r.gen) else r.gen, state := PARTITION_STALE)])))
  }

  function Degrade(links: map<LinkId, LinkRecord>, observed: seq<LinkDegradation>): (r: map<LinkId, LinkRecord>)
    ensures r.Keys == links.Keys
    ensures forall l :: l in links ==> r[l].id == links[l].id && r[l].gen == links[l].gen
  {
    if observed == [] then links
    else
      var before, o := Degrade(links, observed[..|observed| - 1]), observed[|observed| - 1];
      if o.linkKnown && o.link in before then
        var r := before[o.link];
        before[o.link := r.(degraded := o.degraded, state := if o.degraded then DEGRADED else r.state)]
      else before
  }

  function ProposePublishCongestion(t: Topology, observed: seq<LinkDegradation>): Proposal {
    Candidate(Advance(t.(links := Degrade(t.links, observed))))
  }

  // ----- fencing -----

  predicate Owned(o: Origin, worker: WorkerId, boot: BootId) {
    o.workerKnown && o.worker == worker && o.workerBoot == boot
  }

  function FenceSwitch(r: SwitchRecord, w: WorkerId, b: BootId): SwitchRecord {
    if Owned(r.origin, w, b) then r.(state := REVALIDATION_REQUIRED, gen := Next(r.gen)) else r
  }

  function FencePort(r: PortRecord, w: WorkerId, b: BootId): PortRecord {
    if Owned(r.origin, w, b) then r.(state := REVALIDATION_REQUIRED, gen := Next(r.gen)) else r
  }

  function FenceLink(r: LinkRecord, w: WorkerId, b: BootId): LinkRecord {
    if Owned(r.origin, w, b) then r.(state := REVALIDATION_REQUIRED, gen := Next(r.gen)) else r
  }

  function FencePartition(r: Partition, w: WorkerId, b: BootId): Partition {
    if Owned(r.origin, w, b) then r.(state := PARTITION_REVALIDATION_REQUIRED, gen := Next(r.gen)) else r
  }

  function FenceDevice(r: DeviceRecord, w: WorkerId, b: BootId): DeviceRecord {
    if Owned(r.origin, w, b) then r.(state := REVALIDATION_REQUIRED) else r
  }

  predicate OwnsAny(t: Topology, w: WorkerId, b: BootId) {
    || (exists k :: k in t.switches && Owned(t.switches[k].origin, w, b))
    || (exists k :: k in t.ports && Owned(t.ports[k].origin, w, b))
    || (exists k :: k in t.links && Owned(t.links[k].origin, w, b))
    || (exists k :: k in t.partitions && Owned(t.partitions[k].origin, w, b))
    || (exists k :: k in t.devices && Owned(t.devices[k].origin, w, b))
  }

  function SwitchFence(w: WorkerId, b: BootId): SwitchRecord -> SwitchRecord { (r: SwitchRecord) => FenceSwitch(r, w, b) }
  function PortFence(w: WorkerId, b: BootId): PortRecord -> PortRecord { (r: PortRecord) => FencePort(r, w, b) }
  function LinkFence(w: WorkerId, b: BootId): LinkRecord -> LinkRecord { (r: LinkRecord) => FenceLink(r, w, b) }
  function PartitionFence(w: WorkerId, b: BootId): Partition -> Partition { (r: Partition) => FencePartition(r, w, b) }
  function DeviceFence(w: WorkerId, b: BootId): DeviceRecord -> DeviceRecord { (r: DeviceRecord) => FenceDevice(r, w, b) }

  function ProposeInvalidate(t: Topology, w: WorkerId, b: BootId): Proposal {
    Candidate(t.(
      switches := MapValues(t.switches, SwitchFence(w, b)),
      ports := MapValues(t.ports, PortFence(w, b)),
      links := MapValues(t.links, LinkFence(w, b)),
      partitions := MapValues(t.partitions, PartitionFence(w, b)),
      devices := MapValues(t.devices, DeviceFence(w, b)),
      topologyGen := if OwnsAny(t, w, b) then Next(t.topologyGen) else t.topologyGen))
  }

  /** Evidence a restart must not trust: worker-owned or observed on hardware. */
  predicate Dynamic(o: Origin) {
    o.workerKnown || o.provenance == REAL
  }

  function ExpireSwitch(r: SwitchRecord): SwitchRecord {
    if Dynamic(r.origin) then r.(state := REVALIDATION_REQUIRED) else r
  }

  function ExpirePort(r: PortRecord): PortRecord {
    if Dynamic(r.origin) then r.(state := REVALIDATION_REQUIRED) else r
  }

  function ExpireLink(r: LinkRecord): LinkRecord {
    if Dynamic(r.origin) then r.(state := REVALIDATION_REQUIRED) else r
  }

  function ExpirePartition(r: Partition): Partition {
    if Dynamic(r.origin) then r.(state := PARTITION_REVALIDATION_REQUIRED) else r
  }

  function ExpireDevice(r: DeviceRecord): DeviceRecord {
    if Dynamic(r.origin) then r.(state := REVALIDATION_REQUIRED) else r
  }

  function ProposeExpire(t: Topology): Proposal {
    Candidate(Advance(t.(
      switches := MapValues(t.switches, ExpireSwitch),
      ports := MapValues(t.ports, ExpirePort),
      links := MapValues(t.links, ExpireLink),
      partitions := MapValues(t.partitions, ExpirePartition),
      devices := MapValues(t.devices, ExpireDevice))))
  }

  predicate PartitionLapsed(state: Byte) {
    state == PARTITION_REVALIDATION_REQUIRED || state == PARTITION_STALE
  }

  function RevalidateSwitch(r: SwitchRecord): SwitchRecord {
    if Expired(r.state) then r.(state := UP) else r
  }

  function RevalidatePort(r: PortRecord): PortRecord {
    if Expired(r.state) then r.(state := UP) else r
  }

  function RevalidateLink(r: LinkRecord): LinkRecord {
    if Expired(r.state) then r.(state := UP) else r
  }

  function RevalidatePartition(r: Partition): Partition {
    if PartitionLapsed(r.state) then r.(state := PARTITION_ACTIVE) else r
  }

  function RevalidateDevice(r: DeviceRecord): DeviceRecord {
    if Expired(r.state) then r.(state := UP) else r
  }

  function ProposeRevalidate(t: Topology): Proposal {
    Candidate(Advance(t.(
      switches := MapValues(t.switches, RevalidateSwitch),
      ports := MapValues(t.ports, RevalidatePort),
      links := MapValues(t.links, RevalidateLink),
      partitions := MapValues(t.partitions, RevalidatePartition),
      devices := MapValues(t.devices, RevalidateDevice))))
  }

  // ----- bulk edits -----

  function DeviceKey(r: DeviceRecord): DeviceId { r.id }
  function SwitchKey(r: SwitchRecord): SwitchId { r.id }
  function PortKey(r: PortRecord): PortId { r.id }
  function LinkKey(r: LinkRecord): LinkId { r.id }
  function PartitionKey(r: Partition): PartitionId { r.id }

  /** Each record overwrites what its key held before. */
  function Stage<K, V>(m: map<K, V>, rs: seq<V>, key: V -> K): map<K, V> {
    if rs == [] then m else Stage(m, rs[..|rs| - 1], key)[key(rs[|rs| - 1]) := rs[|rs| - 1]]
  }

  function ProposeBulk(t: Topology, e: BulkEdit): Proposal {
    Candidate(Advance(t.(
      devices := Stage(t.devices, e.devices, DeviceKey),
      switches := Stage(t.switches, e.switches, SwitchKey),
      ports := Stage(t.ports, e.ports, PortKey),
      links := Stage(t.links, e.links, LinkKey),
      partitions := Stage(t.partitions, e.partitions, PartitionKey))))
  }

  function Propose(t: Topology, op: Op): Proposal {
    match op
    case AddDevice(rec) => ProposeAddDevice(t, rec)
    case RemoveDevice(id) => ProposeRemoveDevice(t, id)
    case AddSwitch(rec) => ProposeAddSwitch(t, rec)
    case RemoveSwitch(id) => ProposeRemoveSwitch(t, id)
    case SetSwitchState(id, s) => ProposeSetSwitchState(t, id, s)
    case RestartSwitch(id, g) => ProposeRestartSwitch(t, id, g)
    case AddPort(rec) => ProposeAddPort(t, rec)
    case RemovePort(id) => ProposeRemovePort(t, id)
    case SetPortState(id, s) => ProposeSetPortState(t, id, s)
    case AddLink(rec) => ProposeAddLink(t, rec)
    case RemoveLink(id) => ProposeRemoveLink(t, id)
    case SetLinkState(id, s, d) => ProposeSetLinkState(t, id, s, d)
    case PublishPartition(p) => ProposePublishPartition(t, p)
    case RemovePartition(id) => ProposeRemovePartition(t, id)
    case MarkPartitionStale(id) => ProposeMarkPartitionStale(t, id)
    case PublishCongestion(o) => ProposePublishCongestion(t, o)
    case InvalidateForWorker(w, b) => ProposeInvalidate(t, w, b)
    case ExpireDynamicEvidence => ProposeExpire(t)
    case RevalidateAll => ProposeRevalidate(t)
    case ApplyBulk(e) => ProposeBulk(t, e)
  }

  // ----- the validator -----

  predicate AnyProvenance(t: Topology, p: Byte) {
    || (exists k :: k in t.devices && t.devices[k].origin.provenance == p)
    || (exists k :: k in t.switches && t.switches[k].origin.provenance == p)
    || (exists k :: k in t.ports && t.ports[k].origin.provenance == p)
    || (exists k :: k in t.links && t.links[k].origin.provenance == p)
    || (exists k :: k in t.partitions && t.partitions[k].origin.provenance == p)
  }

  function FinalizeProvenance(t: Topology): Topology {
    t.(provenance := if AnyProvenance(t, SYNTHETIC) then SYNTHETIC
                     else if AnyProvenance(t, REAL) then REAL else PROVENANCE_UNSUPPORTED)
  }

  /** No entity both snapshots hold goes back in generation. */
  predicate GensKept(was: Topology, cand: Topology) {
    && (forall k :: k in cand.switches && k in was.switches ==> cand.switches[k].gen >= was.switches[k].gen)
    && (forall k :: k in cand.ports && k in was.ports ==> cand.ports[k].gen >= was.ports[k].gen)
    && (forall k :: k in cand.links && k in was.links ==> cand.links[k].gen >= was.links[k].gen)
    && (forall k :: k in cand.partitions && k in was.partitions ==> cand.partitions[k].gen >= was.partitions[k].gen)
    && cand.topologyGen >= was.topologyGen
  }

  predicate Valid(was: Topology, cand: Topology) {
    Integrity(cand) && WithinLimits(cand) && GensKept(was, cand)
  }

  // ----- steps and runs -----

  datatype State = State(current: Topology, nextSnapshotId: U64, epoch: U64, version: int)

  function Commit(r: State, cand: Topology): State {
    State(FinalizeProvenance(cand).(id := r.nextSnapshotId, epoch := r.epoch), Next(r.nextSnapshotId), r.epoch, r.version + 1)
  }

  predicate Passes(r: State, p: Proposal) {
    p.Candidate? && Valid(r.current, p.topology)
  }

  /** What becomes of a proposal: an accepted one is committed, any other leaves the state alone. */
  function Settle(r: State, p: Proposal): State {
    if Passes(r, p) then Commit(r, p.topology) else r
  }

  function Verdict(r: State, p: Proposal): Option<Error> {
    if p.Refused? then Some(p.error) else if Passes(r, p) then None else Some(INVALID_TOPOLOGY)
  }

  /** The mutators as a value, so that laws of runs can say which property of them they use. */
  type Mutators = (Topology, Op) -> Proposal

  predicate Accepts(f: Mutators, r: State, op: Op) {
    Passes(r, f(r.current, op))
  }

  /** One mutator call: the next state, which is the old one when it fails. */
  function Step(f: Mutators, r: State, op: Op): State {
    Settle(r, f(r.current, op))
  }

  /** What can happen to a registry: a mutator call, or a new coordinator epoch. */
  datatype Event = Mutate(op: Op) | SetEpoch(epoch: U64)

  function After(f: Mutators, r: State, e: Event): State {
    match e
    case Mutate(op) => Step(f, r, op)
    case SetEpoch(ep) => r.(epoch := ep)
  }

  function Run(f: Mutators, r: State, es: seq<Event>): State
    decreases |es|
  {
    if es == [] then r else Run(f, After(f, r, es[0]), es[1..])
  }

  /** How the registry answers an event, as a value. */
  type Registrar = (State, Event) -> State

  function Evolve(f: Mutators): Registrar {
    (r: State, e: Event) => After(f, r, e)
  }

  const EMPTY_TOPOLOGY := Topology(1, 0, 0, 0, PROVENANCE_UNSUPPORTED, [105, 110, 105, 116, 105, 97, 108], false, map[], map[], map[], map[], map[])

  const INITIAL := State(EMPTY_TOPOLOGY, 2, 0, 0)

  // ----- each operation is answered by its own proposal -----

  /** The error a mutator call returns, if any. */
  function Answer(r: State, op: Op): Option<Error> {
    Verdict(r, Propose(r.current, op))
  }

  lemma Dispatched(r: State, op: Op, p: Proposal)
    requires p == Propose(r.current, op)
    ensures Step(Propose, r, op) == Settle(r, p) && Answer(r, op) == Verdict(r, p)
  {}
}
