/** The durable form of a record: the field order of each kind, and what survives writing and reading. */
module Persistence {
  import opened Wire
  import opened Fabric
  import opened Codec

  // ----- fields -----

  function At(fs: seq<Field>, i: nat): Field {
    if i < |fs| then fs[i] else Num(0)
  }

  function AsByte(f: Field): Byte {
    if f.Num? && f.v < 0x100 then f.v else 0
  }

  function AsU32(f: Field): Wire.U32 {
    if f.Num? && f.v < 0x1_0000_0000 then f.v else 0
  }

  function AsU64(f: Field): Wire.U64 {
    if f.Num? && f.v < 0x1_0000_0000_0000_0000 then f.v else 0
  }

  /** Any byte but zero reads as true. */
  predicate AsBool(f: Field) {
    f.Num? && f.v != 0
  }

  function AsStr(f: Field): Str {
    if f.Txt? then f.s else []
  }

  function AsWords(f: Field): seq<Wire.U64> {
    if f.List? then f.ws else []
  }

  function Flag(b: bool): Field {
    Num(if b then 1 else 0)
  }

  predicate Short(s: Str) {
    |s| <= MAX_STRING
  }

  /** Every record ends with the same six fields. */
  function OriginFrom(fs: seq<Field>, i: nat): Origin {
    Origin(AsStr(At(fs, i)), AsBool(At(fs, i + 1)), AsU64(At(fs, i + 2)), AsByte(At(fs, i + 3)), AsByte(At(fs, i + 4)), AsU64(At(fs, i + 5)))
  }

  predicate FitBetween(ks: seq<Kind>, fs: seq<Field>, lo: nat, hi: nat) {
    lo <= hi <= |ks| == |fs| && forall i :: lo <= i < hi ==> Fits(ks[i], fs[i])
  }

  lemma FitTogether(ks: seq<Kind>, fs: seq<Field>, k: nat)
    requires FitBetween(ks, fs, 0, k) && FitBetween(ks, fs, k, |ks|)
    ensures AllFit(ks, fs)
  {}

  // ----- records -----

  const DEVICE_KINDS := [Kind.U64, Text, U8, U8, Text, Text, Text, U8, Text, Kind.U64, U8, Text, U8, Kind.U64, U8, U8, Kind.U64]

  function DeviceFields(r: DeviceRecord): seq<Field> {
    [Num(r.id), Txt(r.generationName), Flag(r.generationObserved), Flag(r.present), Txt(r.backendId), Txt(r.vendor),
     Txt(r.product), Num(r.state), Txt(r.partition), Num(r.attachedSwitch), Flag(r.attachedSwitchKnown),
     Txt(r.origin.worker), Flag(r.origin.workerKnown), Num(r.origin.workerBoot), Num(r.origin.provenance),
     Num(r.origin.source), Num(r.origin.topologyGen)]
  }

  function MakeDevice(fs: seq<Field>): DeviceRecord {
    DeviceRecord(AsU64(At(fs, 0)), AsStr(At(fs, 1)), AsBool(At(fs, 2)), AsBool(At(fs, 3)), AsStr(At(fs, 4)), AsStr(At(fs, 5)),
                 AsStr(At(fs, 6)), AsByte(At(fs, 7)), AsStr(At(fs, 8)), AsU64(At(fs, 9)), AsBool(At(fs, 10)), OriginFrom(fs, 11))
  }

  const DEVICE_LAYOUT := Layout(DEVICE_KINDS, DeviceFields, MakeDevice)

  predicate DeviceBounded(r: DeviceRecord) {
    Short(r.generationName) && Short(r.backendId) && Short(r.vendor) && Short(r.product) && Short(r.partition) && Short(r.origin.worker)
  }

  lemma DeviceFitsFront(r: DeviceRecord)
    requires DeviceBounded(r)
    ensures FitBetween(DEVICE_KINDS, DeviceFields(r), 0, 9)
  {}

  lemma DeviceFitsBack(r: DeviceRecord)
    requires DeviceBounded(r)
    ensures FitBetween(DEVICE_KINDS, DeviceFields(r), 9, 17)
  {}

  lemma DeviceFits(r: DeviceRecord)
    requires DeviceBounded(r)
    ensures AllFit(DEVICE_KINDS, DeviceFields(r))
  {
    DeviceFitsFront(r);
    DeviceFitsBack(r);
    FitTogether(DEVICE_KINDS, DeviceFields(r), 9);
  }

  lemma DeviceRebuilt(r: DeviceRecord)
    ensures MakeDevice(DeviceFields(r)) == r
  {}

  lemma DeviceStored(r: DeviceRecord)
    requires DeviceBounded(r)
    ensures Storable(WriteWith(DEVICE_LAYOUT), ReadWith(DEVICE_LAYOUT), r)
  {
    DeviceFits(r);
    DeviceRebuilt(r);
    LayoutStores(DEVICE_LAYOUT, r);
  }

  const SWITCH_KINDS := [Kind.U64, Kind.U64, Text, U8, Text, Text, Text, Kind.U32, U8, Text, U8, Text, U8,
                         Text, U8, Kind.U64, U8, U8, Kind.U64]

  function SwitchFields(r: SwitchRecord): seq<Field> {
    [Num(r.id), Num(r.gen), Txt(r.generationName), Flag(r.generationObserved), Txt(r.vendor), Txt(r.product), Txt(r.family),
     Num(r.portCount), Num(r.state), Txt(r.fabric), Flag(r.fabricKnown), Txt(r.partition), Flag(r.partitionKnown),
     Txt(r.origin.worker), Flag(r.origin.workerKnown), Num(r.origin.workerBoot), Num(r.origin.provenance),
     Num(r.origin.source), Num(r.origin.topologyGen)]
  }

  function MakeSwitch(fs: seq<Field>): SwitchRecord {
    SwitchRecord(AsU64(At(fs, 0)), AsU64(At(fs, 1)), AsStr(At(fs, 2)), AsBool(At(fs, 3)), AsStr(At(fs, 4)), AsStr(At(fs, 5)),
                 AsStr(At(fs, 6)), AsU32(At(fs, 7)), AsByte(At(fs, 8)), AsStr(At(fs, 9)), AsBool(At(fs, 10)),
                 AsStr(At(fs, 11)), AsBool(At(fs, 12)), OriginFrom(fs, 13))
  }

  const SWITCH_LAYOUT := Layout(SWITCH_KINDS, SwitchFields, MakeSwitch)

  predicate SwitchBounded(r: SwitchRecord) {
    Short(r.generationName) && Short(r.vendor) && Short(r.product) && Short(r.family) && Short(r.fabric) && Short(r.partition)
    && Short(r.origin.worker)
  }

  lemma SwitchFitsFront(r: SwitchRecord)
    requires SwitchBounded(r)
    ensures FitBetween(SWITCH_KINDS, SwitchFields(r), 0, 10)
  {}

  lemma SwitchFitsBack(r: SwitchRecord)
    requires SwitchBounded(r)
    ensures FitBetween(SWITCH_KINDS, SwitchFields(r), 10, 19)
  {}

  lemma SwitchFits(r: SwitchRecord)
    requires SwitchBounded(r)
    ensures AllFit(SWITCH_KINDS, SwitchFields(r))
  {
    SwitchFitsFront(r);
    SwitchFitsBack(r);
    FitTogether(SWITCH_KINDS, SwitchFields(r), 10);
  }

  lemma SwitchRebuilt(r: SwitchRecord)
    ensures MakeSwitch(SwitchFields(r)) == r
  {}

  lemma SwitchStored(r: SwitchRecord)
    requires SwitchBounded(r)
    ensures Storable(WriteWith(SWITCH_LAYOUT), ReadWith(SWITCH_LAYOUT), r)
  {
    SwitchFits(r);
    SwitchRebuilt(r);
    LayoutStores(SWITCH_LAYOUT, r);
  }

  const PORT_KINDS := [Kind.U64, Kind.U32, Kind.U64, U8, Kind.U64, Kind.U64, U8, U8, Kind.U32, U8, Kind.U64, U8,
                       Text, U8, Kind.U64, U8, U8, Kind.U64]

  function PortFields(r: PortRecord): seq<Field> {
    [Num(r.id.sw), Num(r.id.index), Num(r.gen), Num(r.attached.kind), Num(r.attached.device), Num(r.attached.sw),
     Flag(r.attachedKnown), Num(r.state), Num(r.activeLinkCount), Flag(r.activeLinkCountKnown), Num(r.nominalBandwidth),
     Flag(r.nominalBandwidthKnown),
     Txt(r.origin.worker), Flag(r.origin.workerKnown), Num(r.origin.workerBoot), Num(r.origin.provenance),
     Num(r.origin.source), Num(r.origin.topologyGen)]
  }

  function MakePort(fs: seq<Field>): PortRecord {
    PortRecord(PortId(AsU64(At(fs, 0)), AsU32(At(fs, 1))), AsU64(At(fs, 2)),
               LinkEnd(AsByte(At(fs, 3)), AsU64(At(fs, 4)), AsU64(At(fs, 5))), AsBool(At(fs, 6)), AsByte(At(fs, 7)),
               AsU32(At(fs, 8)), AsBool(At(fs, 9)), AsU64(At(fs, 10)), AsBool(At(fs, 11)), OriginFrom(fs, 12))
  }

  const PORT_LAYOUT := Layout(PORT_KINDS, PortFields, MakePort)

  lemma PortFitsFront(r: PortRecord)
    requires Short(r.origin.worker)
    ensures FitBetween(PORT_KINDS, PortFields(r), 0, 9)
  {}

  lemma PortFitsBack(r: PortRecord)
    requires Short(r.origin.worker)
    ensures FitBetween(PORT_KINDS, PortFields(r), 9, 18)
  {}

  lemma PortFits(r: PortRecord)
    requires Short(r.origin.worker)
    ensures AllFit(PORT_KINDS, PortFields(r))
  {
    PortFitsFront(r);
    PortFitsBack(r);
    FitTogether(PORT_KINDS, PortFields(r), 9);
  }

  lemma PortRebuilt(r: PortRecord)
    ensures MakePort(PortFields(r)) == r
  {}

  lemma PortStored(r: PortRecord)
    requires Short(r.origin.worker)
    ensures Storable(WriteWith(PORT_LAYOUT), ReadWith(PORT_LAYOUT), r)
  {
    PortFits(r);
    PortRebuilt(r);
    LayoutStores(PORT_LAYOUT, r);
  }

  const LINK_KINDS := [Kind.U64, Kind.U64, Kind.U64, Kind.U64, Kind.U32, U8, Kind.U64, Kind.U64, U8, U8, U8,
                       Text, U8, Kind.U64, U8, U8, Kind.U64]

  function LinkFields(r: LinkRecord): seq<Field> {
    [Num(r.id), Num(r.gen), Num(r.rootSwitch), Num(r.port.sw), Num(r.port.index), Num(r.otherEnd.kind), Num(r.otherEnd.device),
     Num(r.otherEnd.sw), Flag(r.otherEndKnown), Num(r.state), Flag(r.degraded),
     Txt(r.origin.worker), Flag(r.origin.workerKnown), Num(r.origin.workerBoot), Num(r.origin.provenance),
     Num(r.origin.source), Num(r.origin.topologyGen)]
  }

  function MakeLink(fs: seq<Field>): LinkRecord {
    LinkRecord(AsU64(At(fs, 0)), AsU64(At(fs, 1)), AsU64(At(fs, 2)), PortId(AsU64(At(fs, 3)), AsU32(At(fs, 4))),
               LinkEnd(AsByte(At(fs, 5)), AsU64(At(fs, 6)), AsU64(At(fs, 7))), AsBool(At(fs, 8)), AsByte(At(fs, 9)),
               AsBool(At(fs, 10)), OriginFrom(fs, 11))
  }

  const LINK_LAYOUT := Layout(LINK_KINDS, LinkFields, MakeLink)

  lemma LinkFits(r: LinkRecord)
    requires Short(r.origin.worker)
    ensures AllFit(LINK_KINDS, LinkFields(r))
  {}

  lemma LinkRebuilt(r: LinkRecord)
    ensures MakeLink(LinkFields(r)) == r
  {}

  lemma LinkStored(r: LinkRecord)
    requires Short(r.origin.worker)
    ensures Storable(WriteWith(LINK_LAYOUT), ReadWith(LINK_LAYOUT), r)
  {
    LinkFits(r);
    LinkRebuilt(r);
    LayoutStores(LINK_LAYOUT, r);
  }

  const PARTITION_KINDS := [Text, Kind.U64, Text, Words(MAX_DEVICES), Words(MAX_SWITCHES), U8, Text, U8, Kind.U64, U8, U8, Kind.U64]

  function PartitionFields(r: Partition): seq<Field> {
    [Txt(r.id), Num(r.gen), Txt(r.fabric), List(r.members), List(r.switches), Num(r.state),
     Txt(r.origin.worker), Flag(r.origin.workerKnown), Num(r.origin.workerBoot), Num(r.origin.provenance),
     Num(r.origin.source), Num(r.origin.topologyGen)]
  }

  function MakePartition(fs: seq<Field>): Partition {
    Partition(AsStr(At(fs, 0)), AsU64(At(fs, 1)), AsStr(At(fs, 2)), AsWords(At(fs, 3)), AsWords(At(fs, 4)), AsByte(At(fs, 5)),
              OriginFrom(fs, 6))
  }

  const PARTITION_LAYOUT := Layout(PARTITION_KINDS, PartitionFields, MakePartition)

  predicate PartitionBounded(r: Partition) {
    Short(r.id) && Short(r.fabric) && Short(r.origin.worker) && |r.members| <= MAX_DEVICES && |r.switches| <= MAX_SWITCHES
  }

  lemma PartitionStored(r: Partition)
    requires PartitionBounded(r)
    ensures Storable(WriteWith(PARTITION_LAYOUT), ReadWith(PARTITION_LAYOUT), r)
  {
    LayoutStores(PARTITION_LAYOUT, r);
  }
}
