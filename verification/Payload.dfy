/** A whole snapshot as bytes: a header, then the five tables. */
module Payload {
  import opened Wire
  import opened Fabric
  import opened Registry
  import opened Listing
  import opened Codec
  import opened Persistence

  const HEADER_KINDS := [Kind.U64, Kind.U64, Kind.U64, Kind.U64, U8, Text, U8]

  function HeaderFields(t: Topology): seq<Field> {
    [Num(t.id), Num(t.topologyGen), Num(t.fabricGen), Num(t.epoch), Num(t.provenance), Txt(t.labelText), Flag(t.persisted)]
  }

  function MakeTopology(h: seq<Field>, b: Tables): Topology {
    Topology(AsU64(At(h, 0)), AsU64(At(h, 1)), AsU64(At(h, 2)), AsU64(At(h, 3)), AsByte(At(h, 4)), AsStr(At(h, 5)), AsBool(At(h, 6)),
             b.devices, b.switches, b.ports, b.links, b.partitions)
  }

  // ----- encoding -----

  function EncodeTables(e: BulkEdit): seq<Byte> {
    EncodeTable(WriteWith(DEVICE_LAYOUT), e.devices)
    + EncodeTable(WriteWith(SWITCH_LAYOUT), e.switches)
    + EncodeTable(WriteWith(PORT_LAYOUT), e.ports)
    + EncodeTable(WriteWith(LINK_LAYOUT), e.links)
    + EncodeTable(WriteWith(PARTITION_LAYOUT), e.partitions)
  }

  /** The payload of a snapshot whose records are walked in the order of the listing. */
  function EncodePayload(t: Topology, e: BulkEdit): seq<Byte> {
    EncodeFields(HEADER_KINDS, HeaderFields(t)) + EncodeTables(e)
  }

  // ----- decoding -----

  function ParseTables(s: seq<Byte>): Option<(Tables, seq<Byte>)> {
    var d := ParseTable(ReadWith(DEVICE_LAYOUT), DeviceKey, MAX_DEVICES, s);
    if d.None? then None
    else
      var w := ParseTable(ReadWith(SWITCH_LAYOUT), SwitchKey, MAX_SWITCHES, d.value.1);
      if w.None? then None
      else
        var p := ParseTable(ReadWith(PORT_LAYOUT), PortKey, MAX_PORTS, w.value.1);
        if p.None? then None
        else
          var l := ParseTable(ReadWith(LINK_LAYOUT), LinkKey, MAX_LINKS, p.value.1);
          if l.None? then None
          else
            var q := ParseTable(ReadWith(PARTITION_LAYOUT), PartitionKey, MAX_PARTITIONS, l.value.1);
            if q.None? then None
            else Some((Tables(d.value.0, w.value.0, p.value.0, l.value.0, q.value.0), q.value.1))
  }

  /** The last checks: nothing left over, and integrity. */
  function Judge(h: seq<Field>, b: Tables, rest: seq<Byte>): Option<Topology> {
    if rest == [] && Integrity(MakeTopology(h, b)) then Some(MakeTopology(h, b)) else None
  }

  function ParseBody(s: seq<Byte>): Option<((seq<Field>, Tables), seq<Byte>)> {
    var h := ParseFields(HEADER_KINDS, s);
    if h.None? then None
    else
      var b := ParseTables(h.value.1);
      if b.None? then None else Some(((h.value.0, b.value.0), b.value.1))
  }

  /** decodeTopology: every field in order, then the last checks. */
  function ParseTopology(s: seq<Byte>): Option<Topology> {
    var p := ParseBody(s);
    if p.None? then None else Judge(p.value.0.0, p.value.0.1, p.value.1)
  }

  // ----- what is decoded is well formed -----

  lemma ParsedTables(s: seq<Byte>, h: seq<Field>)
    requires ParseTables(s).Some?
    ensures var t := MakeTopology(h, ParseTables(s).value.0); KeysMatch(t) && WithinLimits(t)
  {
    ParsedTable(ReadWith(DEVICE_LAYOUT), DeviceKey, MAX_DEVICES, s);
    var d := ParseTable(ReadWith(DEVICE_LAYOUT), DeviceKey, MAX_DEVICES, s).value.1;
    ParsedTable(ReadWith(SWITCH_LAYOUT), SwitchKey, MAX_SWITCHES, d);
    var w := ParseTable(ReadWith(SWITCH_LAYOUT), SwitchKey, MAX_SWITCHES, d).value.1;
    ParsedTable(ReadWith(PORT_LAYOUT), PortKey, MAX_PORTS, w);
    var p := ParseTable(ReadWith(PORT_LAYOUT), PortKey, MAX_PORTS, w).value.1;
    ParsedTable(ReadWith(LINK_LAYOUT), LinkKey, MAX_LINKS, p);
    var l := ParseTable(ReadWith(LINK_LAYOUT), LinkKey, MAX_LINKS, p).value.1;
    ParsedTable(ReadWith(PARTITION_LAYOUT), PartitionKey, MAX_PARTITIONS, l);
  }

  /** Whatever bytes the decoder accepts, it yields integrity, keys that match and counts within the limits. */
  lemma DecodedWellFormed(s: seq<Byte>)
    requires ParseTopology(s).Some?
    ensures WellFormed(ParseTopology(s).value)
  {
    var h := ParseFields(HEADER_KINDS, s).value;
    ParsedTables(h.1, h.0);
  }

  // ----- round trip -----

  /** Everything fits the reader's bounds on strings and lists. */
  predicate Bounded(t: Topology) {
    && Short(t.labelText)
    && (forall k :: k in t.devices ==> DeviceBounded(t.devices[k]))
    && (forall k :: k in t.switches ==> SwitchBounded(t.switches[k]))
    && (forall k :: k in t.ports ==> Short(t.ports[k].origin.worker))
    && (forall k :: k in t.links ==> Short(t.links[k].origin.worker))
    && (forall k :: k in t.partitions ==> PartitionBounded(t.partitions[k]))
  }

  lemma HeaderRebuilt(t: Topology)
    requires Short(t.labelText)
    ensures AllFit(HEADER_KINDS, HeaderFields(t)) && MakeTopology(HeaderFields(t), TablesOf(t)) == t
  {}

  lemma Nest(a: seq<Byte>, b: seq<Byte>, c: seq<Byte>, d: seq<Byte>, e: seq<Byte>)
    ensures a + b + c + d + e == a + (b + (c + (d + (e + []))))
  {}

  lemma DevicesBack(t: Topology, e: BulkEdit, rest: seq<Byte>)
    requires KeysMatch(t) && WithinLimits(t) && Bounded(t) && Lists(e, t)
    ensures ParseTable(ReadWith(DEVICE_LAYOUT), DeviceKey, MAX_DEVICES, EncodeTable(WriteWith(DEVICE_LAYOUT), e.devices) + rest)
            == Some((t.devices, rest))
  {
    forall k | k in t.devices ensures Storable(WriteWith(DEVICE_LAYOUT), ReadWith(DEVICE_LAYOUT), t.devices[k]) { DeviceStored(t.devices[k]); }
    TableRoundTrip(WriteWith(DEVICE_LAYOUT), ReadWith(DEVICE_LAYOUT), DeviceKey, t.devices, e.devices, MAX_DEVICES, rest);
  }

  lemma SwitchesBack(t: Topology, e: BulkEdit, rest: seq<Byte>)
    requires KeysMatch(t) && WithinLimits(t) && Bounded(t) && Lists(e, t)
    ensures ParseTable(ReadWith(SWITCH_LAYOUT), SwitchKey, MAX_SWITCHES, EncodeTable(WriteWith(SWITCH_LAYOUT), e.switches) + rest)
            == Some((t.switches, rest))
  {
    forall k | k in t.switches ensures Storable(WriteWith(SWITCH_LAYOUT), ReadWith(SWITCH_LAYOUT), t.switches[k]) { SwitchStored(t.switches[k]); }
    TableRoundTrip(WriteWith(SWITCH_LAYOUT), ReadWith(SWITCH_LAYOUT), SwitchKey, t.switches, e.switches, MAX_SWITCHES, rest);
  }

  lemma PortsBack(t: Topology, e: BulkEdit, rest: seq<Byte>)
    requires KeysMatch(t) && WithinLimits(t) && Bounded(t) && Lists(e, t)
    ensures ParseTable(ReadWith(PORT_LAYOUT), PortKey, MAX_PORTS, EncodeTable(WriteWith(PORT_LAYOUT), e.ports) + rest)
            == Some((t.ports, rest))
  {
    forall k | k in t.ports ensures Storable(WriteWith(PORT_LAYOUT), ReadWith(PORT_LAYOUT), t.ports[k]) { PortStored(t.ports[k]); }
    TableRoundTrip(WriteWith(PORT_LAYOUT), ReadWith(PORT_LAYOUT), PortKey, t.ports, e.ports, MAX_PORTS, rest);
  }

  lemma LinksBack(t: Topology, e: BulkEdit, rest: seq<Byte>)
    requires KeysMatch(t) && WithinLimits(t) && Bounded(t) && Lists(e, t)
    ensures ParseTable(ReadWith(LINK_LAYOUT), LinkKey, MAX_LINKS, EncodeTable(WriteWith(LINK_LAYOUT), e.links) + rest)
            == Some((t.links, rest))
  {
    forall k | k in t.links ensures Storable(WriteWith(LINK_LAYOUT), ReadWith(LINK_LAYOUT), t.links[k]) { LinkStored(t.links[k]); }
    TableRoundTrip(WriteWith(LINK_LAYOUT), ReadWith(LINK_LAYOUT), LinkKey, t.links, e.links, MAX_LINKS, rest);
  }

  lemma PartitionsBack(t: Topology, e: BulkEdit, rest: seq<Byte>)
    requires KeysMatch(t) && WithinLimits(t) && Bounded(t) && Lists(e, t)
    ensures ParseTable(ReadWith(PARTITION_LAYOUT), PartitionKey, MAX_PARTITIONS, EncodeTable(WriteWith(PARTITION_LAYOUT), e.partitions) + rest)
            == Some((t.partitions, rest))
  {
    forall k | k in t.partitions ensures Storable(WriteWith(PARTITION_LAYOUT), ReadWith(PARTITION_LAYOUT), t.partitions[k]) {
      PartitionStored(t.partitions[k]);
    }
    TableRoundTrip(WriteWith(PARTITION_LAYOUT), ReadWith(PARTITION_LAYOUT), PartitionKey, t.partitions, e.partitions, MAX_PARTITIONS, rest);
  }

  lemma TablesBack(t: Topology, e: BulkEdit)
    requires KeysMatch(t) && WithinLimits(t) && Bounded(t) && Lists(e, t)
    ensures ParseTables(EncodeTables(e)) == Some((TablesOf(t), []))
  {
    var d := EncodeTable(WriteWith(DEVICE_LAYOUT), e.devices);
    var w := EncodeTable(WriteWith(SWITCH_LAYOUT), e.switches);
    var p := EncodeTable(WriteWith(PORT_LAYOUT), e.ports);
    var l := EncodeTable(WriteWith(LINK_LAYOUT), e.links);
    var q := EncodeTable(WriteWith(PARTITION_LAYOUT), e.partitions);
    Nest(d, w, p, l, q);
    DevicesBack(t, e, w + (p + (l + (q + []))));
    SwitchesBack(t, e, p + (l + (q + [])));
    PortsBack(t, e, l + (q + []));
    LinksBack(t, e, q + []);
    PartitionsBack(t, e, []);
  }

  /** Decoding the encoding of a well-formed topology, its records walked in any order, returns it exactly. */
  lemma TopologyRoundTrip(t: Topology, e: BulkEdit)
    requires WellFormed(t) && Bounded(t) && Lists(e, t)
    ensures ParseTopology(EncodePayload(t, e)) == Some(t)
  {
    HeaderRebuilt(t);
    FieldsRoundTrip(HEADER_KINDS, HeaderFields(t), EncodeTables(e));
    TablesBack(t, e);
  }
}
