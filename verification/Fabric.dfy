/**
 The fabric snapshot: typed records, the topology that holds them, and the
 integrity rules every snapshot has to satisfy.

 Enumerations are bytes, because the decoders cast whatever byte they read.
 */
module Fabric {
  import opened Wire

  type DeviceId = U64
  type SwitchId = U64
  type LinkId = U64
  type PartitionId = Str
  type WorkerId = Str
  type BootId = U64
  type Gen = U64

  const U64_MAX: U64 := 0xFFFF_FFFF_FFFF_FFFF

  /** Gen::next, a 64-bit increment that wraps. */
  function Next(g: U64): (n: U64)
    ensures g < U64_MAX ==> n == g + 1
    ensures g == U64_MAX ==> n == 0
  {
    (g + 1) % 0x1_0000_0000_0000_0000
  }

  // ----- enumerations -----

  const PRESENT: Byte := 1
  const ABSENT: Byte := 2
  const SUPPORTED: Byte := 3
  const UNSUPPORTED: Byte := 4
  const UP: Byte := 5
  const DOWN: Byte := 6
  const DEGRADED: Byte := 7
  const DISABLED: Byte := 8
  const UNREACHABLE: Byte := 9
  const STALE: Byte := 11
  const REVALIDATION_REQUIRED: Byte := 12

  const PARTITION_ACTIVE: Byte := 0
  const PARTITION_REVALIDATION_REQUIRED: Byte := 3
  const PARTITION_STALE: Byte := 4

  const REAL: Byte := 0
  const SYNTHETIC: Byte := 1
  const PROVENANCE_UNSUPPORTED: Byte := 2

  const DEVICE_END: Byte := 0
  const SWITCH_END: Byte := 1

  // ----- limits -----

  const MAX_DEVICES := 1024
  const MAX_SWITCHES := 256
  const MAX_PORTS_PER_SWITCH := 256
  const MAX_PORTS := 65536
  const MAX_LINKS := 131072
  const MAX_PARTITIONS := 256
  const MAX_CANDIDATE_PATHS := 65536
  const MAX_PATH_DEPTH := 16

  // ----- records -----

  datatype PortId = PortId(sw: SwitchId, index: U32)

  /** The port recorded when no reverse half describes the far side. */
  const UNKNOWN_PORT := PortId(U64_MAX, 0xFFFF_FFFF)

  datatype LinkEnd = LinkEnd(kind: Byte, device: DeviceId, sw: SwitchId)

  /** The fencing and evidence fields every record ends with. */
  datatype Origin = Origin(
    worker: WorkerId, workerKnown: bool, workerBoot: BootId,
    provenance: Byte, source: Byte, topologyGen: Gen)

  datatype DeviceRecord = DeviceRecord(
    id: DeviceId, generationName: Str, generationObserved: bool, present: bool,
    backendId: Str, vendor: Str, product: Str, state: Byte, partition: PartitionId,
    attachedSwitch: SwitchId, attachedSwitchKnown: bool, origin: Origin)

  datatype SwitchRecord = SwitchRecord(
    id: SwitchId, gen: Gen, generationName: Str, generationObserved: bool,
    vendor: Str, product: Str, family: Str, portCount: U32, state: Byte,
    fabric: Str, fabricKnown: bool, partition: PartitionId, partitionKnown: bool, origin: Origin)

  datatype PortRecord = PortRecord(
    id: PortId, gen: Gen, attached: LinkEnd, attachedKnown: bool, state: Byte,
    activeLinkCount: U32, activeLinkCountKnown: bool,
    nominalBandwidth: U64, nominalBandwidthKnown: bool, origin: Origin)

  datatype LinkRecord = LinkRecord(
    id: LinkId, gen: Gen, rootSwitch: SwitchId, port: PortId, otherEnd: LinkEnd,
    otherEndKnown: bool, state: Byte, degraded: bool, origin: Origin)

  datatype Partition = Partition(
    id: PartitionId, gen: Gen, fabric: Str, members: seq<DeviceId>, switches: seq<SwitchId>,
    state: Byte, origin: Origin)

  datatype Topology = Topology(
    id: U64, topologyGen: Gen, fabricGen: Gen, epoch: U64, provenance: Byte, labelText: Str, persisted: bool,
    devices: map<DeviceId, DeviceRecord>,
    switches: map<SwitchId, SwitchRecord>,
    ports: map<PortId, PortRecord>,
    links: map<LinkId, LinkRecord>,
    partitions: map<PartitionId, Partition>)

  /** The five tables of a snapshot. */
  datatype Tables = Tables(
    devices: map<DeviceId, DeviceRecord>, switches: map<SwitchId, SwitchRecord>, ports: map<PortId, PortRecord>,
    links: map<LinkId, LinkRecord>, partitions: map<PartitionId, Partition>)

  function TablesOf(t: Topology): Tables {
    Tables(t.devices, t.switches, t.ports, t.links, t.partitions)
  }

  /** Waiting for revalidation. */
  predicate Expired(s: Byte) {
    s == STALE || s == REVALIDATION_REQUIRED
  }

  // ----- integrity -----

  predicate PortSound(t: Topology, p: PortId) {
    p.sw in t.switches && p.index < MAX_PORTS_PER_SWITCH
  }

  /** Any end that is not a device end is checked as a switch end. */
  predicate EndSound(t: Topology, e: LinkEnd) {
    if e.kind == DEVICE_END then e.device in t.devices else e.sw in t.switches
  }

  predicate LinkSound(t: Topology, l: LinkRecord) {
    && l.rootSwitch in t.switches
    && l.port in t.ports
    && l.port.sw == l.rootSwitch
    && EndSound(t, l.otherEnd)
  }

  predicate PartitionSound(t: Topology, p: Partition) {
    && (forall m :: m in p.members ==> m in t.devices)
    && (forall s :: s in p.switches ==> s in t.switches)
  }

  /** Referential integrity: what checkIntegrity accepts. */
  predicate Integrity(t: Topology) {
    && (forall s :: s in t.switches ==> t.switches[s].id == s)
    && (forall p :: p in t.ports ==> PortSound(t, p))
    && (forall l :: l in t.links ==> LinkSound(t, t.links[l]))
    && (forall p :: p in t.partitions ==> PartitionSound(t, t.partitions[p]))
  }

  predicate KeysMatch(t: Topology) {
    && (forall k :: k in t.devices ==> t.devices[k].id == k)
    && (forall k :: k in t.switches ==> t.switches[k].id == k)
    && (forall k :: k in t.ports ==> t.ports[k].id == k)
    && (forall k :: k in t.links ==> t.links[k].id == k)
    && (forall k :: k in t.partitions ==> t.partitions[k].id == k)
  }

  predicate WithinLimits(t: Topology) {
    && |t.devices| <= MAX_DEVICES
    && |t.switches| <= MAX_SWITCHES
    && |t.ports| <= MAX_PORTS
    && |t.links| <= MAX_LINKS
    && |t.partitions| <= MAX_PARTITIONS
  }

  predicate WellFormed(t: Topology) {
    Integrity(t) && KeysMatch(t) && WithinLimits(t)
  }

  datatype Violation =
    | SwitchKeyMismatch
    | PortOfMissingSwitch
    | PortIndexOutOfBound
    | LinkOfMissingRoot
    | LinkOfMissingPort
    | LinkPortElsewhere
    | LinkToMissingDevice
    | LinkToMissingSwitch
    | PartitionOfMissingMember
    | PartitionOfMissingSwitch

  function PortViolations(t: Topology, p: PortId): (v: seq<Violation>)
    ensures v == [] <==> PortSound(t, p)
  {
    (if p.sw in t.switches then [] else [PortOfMissingSwitch])
    + (if p.index < MAX_PORTS_PER_SWITCH then [] else [PortIndexOutOfBound])
  }

  function LinkViolations(t: Topology, l: LinkRecord): (v: seq<Violation>)
    ensures v == [] <==> LinkSound(t, l)
  {
    (if l.rootSwitch in t.switches then [] else [LinkOfMissingRoot])
    + (if l.port in t.ports then [] else [LinkOfMissingPort])
    + (if l.port.sw == l.rootSwitch then [] else [LinkPortElsewhere])
    + (if EndSound(t, l.otherEnd) then []
       else if l.otherEnd.kind == DEVICE_END then [LinkToMissingDevice] else [LinkToMissingSwitch])
  }

  method PartitionViolations(t: Topology, p: Partition) returns (v: seq<Violation>)
    ensures v == [] <==> PartitionSound(t, p)
  {
    v := [];
    for i := 0 to |p.members|
      invariant v == [] <==> forall j :: 0 <= j < i ==> p.members[j] in t.devices
    {
      if p.members[i] !in t.devices { v := v + [PartitionOfMissingMember]; }
    }
    for i := 0 to |p.switches|
      invariant v == [] <==>
        (forall m :: m in p.members ==> m in t.devices) && (forall j :: 0 <= j < i ==> p.switches[j] in t.switches)
    {
      if p.switches[i] !in t.switches { v := v + [PartitionOfMissingSwitch]; }
    }
  }

  method SwitchTableViolations(t: Topology) returns (v: seq<Violation>)
    ensures v == [] <==> forall s :: s in t.switches ==> t.switches[s].id == s
  {
    v := [];
    var todo := t.switches.Keys;
    while todo != {}
      invariant todo <= t.switches.Keys
      invariant v == [] <==> forall s :: s in t.switches && s !in todo ==> t.switches[s].id == s
    {
      var s :| s in todo;
      if t.switches[s].id != s { v := v + [SwitchKeyMismatch]; }
      todo := todo - {s};
    }
  }

  method PortTableViolations(t: Topology) returns (v: seq<Violation>)
    ensures v == [] <==> forall p :: p in t.ports ==> PortSound(t, p)
  {
    v := [];
    var todo := t.ports.Keys;
    while todo != {}
      invariant todo <= t.ports.Keys
      invariant v == [] <==> forall p :: p in t.ports && p !in todo ==> PortSound(t, p)
    {
      var p :| p in todo;
      v := v + PortViolations(t, p);
      todo := todo - {p};
    }
  }

  method LinkTableViolations(t: Topology) returns (v: seq<Violation>)
    ensures v == [] <==> forall l :: l in t.links ==> LinkSound(t, t.links[l])
  {
    v := [];
    var todo := t.links.Keys;
    while todo != {}
      invariant todo <= t.links.Keys
      invariant v == [] <==> forall l :: l in t.links && l !in todo ==> LinkSound(t, t.links[l])
    {
      var l :| l in todo;
      v := v + LinkViolations(t, t.links[l]);
      todo := todo - {l};
    }
  }

  method PartitionTableViolations(t: Topology) returns (v: seq<Violation>)
    ensures v == [] <==> forall p :: p in t.partitions ==> PartitionSound(t, t.partitions[p])
  {
    v := [];
    var todo := t.partitions.Keys;
    while todo != {}
      invariant todo <= t.partitions.Keys
      invariant v == [] <==> forall p :: p in t.partitions && p !in todo ==> PartitionSound(t, t.partitions[p])
    {
      var p :| p in todo;
      var more := PartitionViolations(t, t.partitions[p]);
      v := v + more;
      todo := todo - {p};
    }
  }

  /** Walks every table and reports what is broken: nothing exactly when integrity holds. */
  method CheckIntegrity(t: Topology) returns (v: seq<Violation>)
    ensures v == [] <==> Integrity(t)
  {
    var a := SwitchTableViolations(t);
    var b := PortTableViolations(t);
    var c := LinkTableViolations(t);
    var d := PartitionTableViolations(t);
    v := a + b + c + d;
  }
}
