/** The coordinator object: the shared tables and the registry, one method for each step of the protocol. */
module Coordinators {
  import opened Wire
  import opened Framing
  import opened Fabric
  import opened Registry
  import opened Listing
  import opened FabricRegistries
  import opened Protocol
  import opened Payload
  import opened Store
  import opened Crc
  import Envelope

  // ----- publications -----

  /** What a publication proposes, whatever order its records were walked in. */
  function Overlay(t: Topology, p: Topology, w: WorkerId, b: BootId): Proposal {
    Candidate(t.(
      devices := t.devices + MapValues(p.devices, DeviceTag(w, b)),
      switches := t.switches + MapValues(p.switches, SwitchTag(w, b)),
      ports := t.ports + MapValues(p.ports, PortTag(w, b)),
      links := t.links + MapValues(p.links, LinkTag(w, b)),
      partitions := t.partitions + MapValues(p.partitions, PartitionTag(w, b)),
      topologyGen := Next(t.topologyGen)))
  }

  /** A publication overlays the snapshot with its records, marked as the publisher's. */
  lemma PublicationOverlays(t: Topology, p: Topology, e: BulkEdit, w: WorkerId, b: BootId)
    requires KeysMatch(p) && Lists(e, p)
    ensures ProposeBulk(t, Tagged(e, w, b)) == Overlay(t, p, w, b)
  {
    StagedTagged(t.devices, p.devices, e.devices, DeviceTag(w, b), DeviceKey);
    StagedTagged(t.switches, p.switches, e.switches, SwitchTag(w, b), SwitchKey);
    StagedTagged(t.ports, p.ports, e.ports, PortTag(w, b), PortKey);
    StagedTagged(t.links, p.links, e.links, LinkTag(w, b), LinkKey);
    StagedTagged(t.partitions, p.partitions, e.partitions, PartitionTag(w, b), PartitionKey);
  }

  // ----- the object -----

  /** A step that calls the registry does so once. */
  lemma DoSteps(f: Mutators, s: Coord, e: Action, op: Op)
    requires RegistryEvent(s, e) == Some(Mutate(op))
    ensures Do(Evolve(f), s, e) == SessionAfter(s, e).(reg := Step(f, s.reg, op))
  {}

  class Coordinator {
    const registry: FabricRegistry
    var maxBoot: map<WorkerId, BootId>
    var activeBoot: map<WorkerId, BootId>
    var conns: map<ConnId, Option<Incarnation>>
    ghost var restoring: bool

    ghost function State(): Coord
      reads this, registry
    {
      Coord(registry.State(), maxBoot, activeBoot, conns, restoring)
    }

    constructor ()
      ensures fresh(registry) && State() == START
    {
      registry := new FabricRegistry();
      maxBoot, activeBoot, conns := map[], map[], map[];
      restoring := false;
    }

    method Accept(c: ConnId)
      modifies this
      ensures State() == Do(Evolve(Propose), old(State()), Protocol.Accept(c))
    {
      if |conns| >= MAX_CONNECTIONS { return; }
      if c !in conns { conns := conns[c := None]; }
    }

    /** REGISTER: refuses an old epoch, an old boot and an active duplicate; otherwise the connection becomes the incarnation. */
    method Register(c: ConnId, epoch: U64, worker: WorkerId, boot: BootId)
      modifies this
      ensures State() == Do(Evolve(Propose), old(State()), Protocol.Register(c, epoch, worker, boot))
    {
      if c !in conns { return; }
      if epoch < registry.epoch { return; }
      if worker in maxBoot && boot < maxBoot[worker] { return; }
      if worker in activeBoot && activeBoot[worker] == boot { return; }
      if worker !in maxBoot || boot > maxBoot[worker] { maxBoot := maxBoot[worker := boot]; }
      activeBoot := activeBoot[worker := boot];
      conns := conns[c := Some((worker, boot))];
    }

    /** applyWorkerTopology: every record of the decoded topology, marked and applied in bulk. */
    method ApplyWorkerTopology(topo: Topology, worker: WorkerId, boot: BootId) returns (ghost listing: BulkEdit)
      modifies registry
      ensures Lists(listing, topo)
      ensures registry.State() == Step(Propose, old(registry.State()), ApplyBulk(Tagged(listing, worker, boot)))
    {
      ghost var d0, s0, p0, l0, q0;
      var d, s, p, l, q;
      d, d0 := ListTagged(topo.devices, DeviceTag(worker, boot));
      s, s0 := ListTagged(topo.switches, SwitchTag(worker, boot));
      p, p0 := ListTagged(topo.ports, PortTag(worker, boot));
      l, l0 := ListTagged(topo.links, LinkTag(worker, boot));
      q, q0 := ListTagged(topo.partitions, PartitionTag(worker, boot));
      listing := BulkEdit(d0, s0, p0, l0, q0);
      var err := registry.ApplyBulk(BulkEdit(d, s, p, l, q));
    }

    /** PUBLISH_TOPOLOGY: only under the connection's own incarnation and the current epoch. */
    method Publish(c: ConnId, epoch: U64, worker: WorkerId, boot: BootId, topo: Topology) returns (ghost listing: BulkEdit)
      modifies registry
      ensures Lists(listing, topo)
      ensures State() == Do(Evolve(Propose), old(State()), Protocol.Publish(c, epoch, worker, boot, listing))
    {
      ghost var before := State();
      if c !in conns || conns[c] != Some((worker, boot)) || epoch != registry.epoch {
        listing := AnyListing(topo);
        return;
      }
      listing := ApplyWorkerTopology(topo, worker, boot);
      DoSteps(Propose, before, Protocol.Publish(c, epoch, worker, boot, listing), ApplyBulk(Tagged(listing, worker, boot)));
    }

    /** The same from the message: a blob that is too long or does not decode changes nothing. */
    method PublishBlob(c: ConnId, epoch: U64, worker: WorkerId, boot: BootId, blob: seq<Byte>) returns (ghost listing: BulkEdit)
      modifies registry
      ensures |blob| > MAX_FRAME_BYTES || ParseTopology(blob).None? ==> State() == old(State())
      ensures |blob| <= MAX_FRAME_BYTES && ParseTopology(blob).Some? ==>
        && WellFormed(ParseTopology(blob).value) && Lists(listing, ParseTopology(blob).value)
        && State() == Do(Evolve(Propose), old(State()), Protocol.Publish(c, epoch, worker, boot, listing))
    {
      listing := BulkEdit([], [], [], [], []);
      if |blob| > MAX_FRAME_BYTES { return; }
      var topo := DecodeTopology(blob);
      if topo.None? { return; }
      DecodedWellFormed(blob);
      listing := Publish(c, epoch, worker, boot, topo.value);
    }

    /** The connection closes: its incarnation stops being the active one, and all it owns is fenced. */
    method Close(c: ConnId)
      modifies this, registry
      ensures State() == Do(Evolve(Propose), old(State()), Protocol.Close(c))
    {
      ghost var before := State();
      if c !in conns { return; }
      if conns[c].Some? {
        var (worker, boot) := conns[c].value;
        if worker in activeBoot && activeBoot[worker] == boot { activeBoot := activeBoot - {worker}; }
        var err := registry.InvalidateForWorker(worker, boot);
        DoSteps(Propose, before, Protocol.Close(c), InvalidateForWorker(worker, boot));
      }
      conns := conns - {c};
    }

    /** restoreFromAndRevalidate: the restored records in bulk, then everything dynamic expires. */
    method Restore(snap: Topology) returns (ghost listing: BulkEdit)
      modifies this, registry
      ensures Lists(listing, snap)
      ensures State() == Do(Evolve(Propose), Do(Evolve(Propose), old(State()), RestoreRecords(listing)), RestoreExpiry)
    {
      ghost var before := State();
      listing := RestoreAll(snap);
      DoSteps(Propose, before, RestoreRecords(listing), ApplyBulk(listing));
      DoSteps(Propose, State(), RestoreExpiry, ExpireDynamicEvidence);
      var err := registry.ExpireDynamicEvidence();
      restoring := false;
    }

    /** The same from a file's bytes: if they do not restore, nothing happens. */
    method RestoreFrom(bytes: seq<Byte>) returns (err: Option<Envelope.StoreError>, ghost listing: BulkEdit)
      modifies this, registry
      ensures Envelope.Deserialize(Crc32, bytes).Failed? ==> err == Some(Envelope.Deserialize(Crc32, bytes).error) && State() == old(State())
      ensures Envelope.Deserialize(Crc32, bytes).Registry? ==>
        && err == None && Lists(listing, Envelope.Deserialize(Crc32, bytes).state.current)
        && State() == Do(Evolve(Propose), Do(Evolve(Propose), old(State()), RestoreRecords(listing)), RestoreExpiry)
    {
      listing := BulkEdit([], [], [], [], []);
      var res := DeserializeRegistry(bytes);
      if res.Failed? { return Some(res.error), listing; }
      listing := Restore(res.state.current);
      err := None;
    }

    method RestoreAll(snap: Topology) returns (ghost listing: BulkEdit)
      modifies this, registry
      ensures Lists(listing, snap)
      ensures State() == old(State()).(reg := Step(Propose, old(registry.State()), ApplyBulk(listing)), restoring := true)
    {
      ghost var d0, s0, p0, l0, q0;
      var d, s, p, l, q;
      d, d0 := ListTagged(snap.devices, (r: DeviceRecord) => r);
      s, s0 := ListTagged(snap.switches, (r: SwitchRecord) => r);
      p, p0 := ListTagged(snap.ports, (r: PortRecord) => r);
      l, l0 := ListTagged(snap.links, (r: LinkRecord) => r);
      q, q0 := ListTagged(snap.partitions, (r: Partition) => r);
      assert d == d0 && s == s0 && p == p0 && l == l0 && q == q0;
      listing := BulkEdit(d0, s0, p0, l0, q0);
      var err := registry.ApplyBulk(BulkEdit(d, s, p, l, q));
      restoring := true;
    }
  }
}
