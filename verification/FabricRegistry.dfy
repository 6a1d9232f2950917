/**
 The registry object. Each mutator copies the snapshot, edits the copy in
 place, and submits it; each is proved to settle the proposal its specification
 names, so the laws of steps and runs hold of the object.
 */
module FabricRegistries {
  import opened Wire
  import opened Fabric
  import opened Registry
  import opened RegistryLaws

  // ----- loops over a table -----

  method EraseWhere<K(==), V>(m: map<K, V>, doomed: V -> bool) returns (r: map<K, V>)
    ensures r == Without(m, doomed)
  {
    r := m;
    var todo := m.Keys;
    while todo != {}
      invariant todo <= m.Keys
      invariant forall k :: k in r <==> k in m && (k in todo || !doomed(m[k]))
      invariant forall k :: k in r ==> r[k] == m[k]
    {
      var k :| k in todo;
      if doomed(m[k]) { r := r - {k}; }
      todo := todo - {k};
    }
  }

  method ErasePortsOf(m: map<PortId, PortRecord>, id: SwitchId) returns (r: map<PortId, PortRecord>)
    ensures r == PortsOffSwitch(m, id)
  {
    r := m;
    var todo := m.Keys;
    while todo != {}
      invariant todo <= m.Keys
      invariant forall p :: p in r <==> p in m && (p in todo || p.sw != id)
      invariant forall p :: p in r ==> r[p] == m[p]
    {
      var p :| p in todo;
      if p.sw == id { r := r - {p}; }
      todo := todo - {p};
    }
  }

  method UpdateAll<K(==), V>(m: map<K, V>, f: V -> V) returns (r: map<K, V>)
    ensures r == MapValues(m, f)
  {
    r := m;
    var todo := m.Keys;
    while todo != {}
      invariant todo <= m.Keys
      invariant r.Keys == m.Keys
      invariant forall k :: k in m ==> r[k] == if k in todo then m[k] else f(m[k])
    {
      var k :| k in todo;
      r := r[k := f(m[k])];
      todo := todo - {k};
    }
  }

  method AnyWhere<K(==), V>(m: map<K, V>, p: V -> bool) returns (b: bool)
    ensures b <==> exists k :: k in m && p(m[k])
  {
    b := false;
    var todo := m.Keys;
    while todo != {}
      invariant todo <= m.Keys
      invariant b <==> exists k :: k in m && k !in todo && p(m[k])
    {
      var k :| k in todo;
      if p(m[k]) { b := true; }
      todo := todo - {k};
    }
  }

  method StageAll<K(==), V>(m: map<K, V>, rs: seq<V>, key: V -> K) returns (r: map<K, V>)
    ensures r == Stage(m, rs, key)
  {
    r := m;
    for i := 0 to |rs|
      invariant r == Stage(m, rs[..i], key)
    {
      assert rs[..i + 1][..i] == rs[..i];
      r := r[key(rs[i]) := rs[i]];
    }
    assert rs[..|rs|] == rs;
  }

  method NoneDecreased<K(==), V>(cand: map<K, V>, was: map<K, V>, gen: V -> Gen) returns (ok: bool)
    ensures ok <==> forall k :: k in cand && k in was ==> gen(cand[k]) >= gen(was[k])
  {
    var todo := cand.Keys;
    while todo != {}
      invariant todo <= cand.Keys
      invariant forall k :: k in cand && k !in todo && k in was ==> gen(cand[k]) >= gen(was[k])
    {
      var k :| k in todo;
      if k in was && gen(cand[k]) < gen(was[k]) { return false; }
      todo := todo - {k};
    }
    ok := true;
  }

  /** Checks a new port, and grows its switch's port count to cover it. */
  method AdmitPort(t: Topology, rec: PortRecord) returns (p: Proposal)
    ensures p == ProposeAddPort(t, rec)
  {
    if rec.id.sw !in t.switches { return Refused(INVALID_ARGUMENT); }
    if rec.id in t.ports { return Refused(ALREADY_EXISTS); }
    if |t.ports| >= MAX_PORTS { return Refused(RESOURCE_LIMIT); }
    if rec.id.index >= MAX_PORTS_PER_SWITCH { return Refused(INVALID_ARGUMENT); }
    var sw := t.switches[rec.id.sw];
    if rec.id.index >= sw.portCount { sw := sw.(portCount := rec.id.index + 1); }
    p := Candidate(t.(switches := t.switches[rec.id.sw := sw], ports := t.ports[rec.id := rec], topologyGen := Next(t.topologyGen)));
  }

  method DegradeAll(links: map<LinkId, LinkRecord>, observed: seq<LinkDegradation>) returns (r: map<LinkId, LinkRecord>)
    ensures r == Degrade(links, observed)
  {
    r := links;
    for i := 0 to |observed|
      invariant r == Degrade(links, observed[..i])
    {
      assert observed[..i + 1][..i] == observed[..i];
      var o := observed[i];
      if o.linkKnown && o.link in r {
        var rec := r[o.link].(degraded := o.degraded);
        if o.degraded { rec := rec.(state := DEGRADED); }
        r := r[o.link := rec];
      }
    }
    assert observed[..|observed|] == observed;
  }

  // ----- edits of every table -----

  method OwnsSomething(t: Topology, w: WorkerId, b: BootId) returns (any: bool)
    ensures any == OwnsAny(t, w, b)
  {
    var s := AnyWhere(t.switches, (r: SwitchRecord) => Owned(r.origin, w, b));
    var p := AnyWhere(t.ports, (r: PortRecord) => Owned(r.origin, w, b));
    var l := AnyWhere(t.links, (r: LinkRecord) => Owned(r.origin, w, b));
    var q := AnyWhere(t.partitions, (r: Partition) => Owned(r.origin, w, b));
    var d := AnyWhere(t.devices, (r: DeviceRecord) => Owned(r.origin, w, b));
    any := s || p || l || q || d;
  }

  method FenceTables(t: Topology, w: WorkerId, b: BootId) returns (c: Topology)
    ensures Candidate(c) == ProposeInvalidate(t, w, b)
  {
    var switches := UpdateAll(t.switches, SwitchFence(w, b));
    var ports := UpdateAll(t.ports, PortFence(w, b));
    var links := UpdateAll(t.links, LinkFence(w, b));
    var partitions := UpdateAll(t.partitions, PartitionFence(w, b));
    var devices := UpdateAll(t.devices, DeviceFence(w, b));
    var any := OwnsSomething(t, w, b);
    c := t.(switches := switches, ports := ports, links := links, partitions := partitions, devices := devices,
            topologyGen := if any then Next(t.topologyGen) else t.topologyGen);
  }

  method ExpireTables(t: Topology) returns (c: Topology)
    ensures Candidate(c) == ProposeExpire(t)
  {
    var switches := UpdateAll(t.switches, ExpireSwitch);
    var ports := UpdateAll(t.ports, ExpirePort);
    var links := UpdateAll(t.links, ExpireLink);
    var partitions := UpdateAll(t.partitions, ExpirePartition);
    var devices := UpdateAll(t.devices, ExpireDevice);
    c := t.(switches := switches, ports := ports, links := links, partitions := partitions, devices := devices,
            topologyGen := Next(t.topologyGen));
  }

  method RevalidateTables(t: Topology) returns (c: Topology)
    ensures Candidate(c) == ProposeRevalidate(t)
  {
    var switches := UpdateAll(t.switches, RevalidateSwitch);
    var ports := UpdateAll(t.ports, RevalidatePort);
    var links := UpdateAll(t.links, RevalidateLink);
    var partitions := UpdateAll(t.partitions, RevalidatePartition);
    var devices := UpdateAll(t.devices, RevalidateDevice);
    c := t.(switches := switches, ports := ports, links := links, partitions := partitions, devices := devices,
            topologyGen := Next(t.topologyGen));
  }

  // ----- the validator -----

  method HasProvenance(t: Topology, p: Byte) returns (b: bool)
    ensures b == AnyProvenance(t, p)
  {
    var d := AnyWhere(t.devices, (r: DeviceRecord) => r.origin.provenance == p);
    var s := AnyWhere(t.switches, (r: SwitchRecord) => r.origin.provenance == p);
    var o := AnyWhere(t.ports, (r: PortRecord) => r.origin.provenance == p);
    var l := AnyWhere(t.links, (r: LinkRecord) => r.origin.provenance == p);
    var q := AnyWhere(t.partitions, (r: Partition) => r.origin.provenance == p);
    b := d || s || o || l || q;
  }

  method Finalize(t: Topology) returns (r: Topology)
    ensures r == FinalizeProvenance(t)
  {
    var synthetic := HasProvenance(t, SYNTHETIC);
    var observed := HasProvenance(t, REAL);
    r := t.(provenance := if synthetic then SYNTHETIC else if observed then REAL else PROVENANCE_UNSUPPORTED);
  }

  method KeepsGenerations(was: Topology, cand: Topology) returns (ok: bool)
    ensures ok == GensKept(was, cand)
  {
    var s := NoneDecreased(cand.switches, was.switches, (r: SwitchRecord) => r.gen);
    var p := NoneDecreased(cand.ports, was.ports, (r: PortRecord) => r.gen);
    var l := NoneDecreased(cand.links, was.links, (r: LinkRecord) => r.gen);
    var q := NoneDecreased(cand.partitions, was.partitions, (r: Partition) => r.gen);
    ok := s && p && l && q && cand.topologyGen >= was.topologyGen;
  }

  lemma FinalIntegrity(cand: Topology)
    ensures Integrity(FinalizeProvenance(cand)) <==> Integrity(cand)
  {
    var final := FinalizeProvenance(cand);
    if Integrity(cand) { SameIntegrity(cand, final); return; }
    if Integrity(final) { SameIntegrity(final, cand); }
  }

  lemma FinalGens(was: Topology, cand: Topology)
    ensures GensKept(was, FinalizeProvenance(cand)) <==> GensKept(was, cand)
  {}

  /** Settling the provenance does not change the verdict. */
  lemma FinalValid(was: Topology, cand: Topology)
    ensures Valid(was, FinalizeProvenance(cand)) <==> Valid(was, cand)
  {
    FinalIntegrity(cand);
    FinalGens(was, cand);
  }

  method CountsWithinLimits(t: Topology) returns (ok: bool)
    ensures ok == WithinLimits(t)
  {
    if |t.devices| > MAX_DEVICES { return false; }
    if |t.switches| > MAX_SWITCHES { return false; }
    if |t.ports| > MAX_PORTS { return false; }
    if |t.links| > MAX_LINKS { return false; }
    if |t.partitions| > MAX_PARTITIONS { return false; }
    ok := true;
  }

  method CheckValid(was: Topology, cand: Topology) returns (ok: bool)
    ensures ok == Valid(was, cand)
  {
    var violations := CheckIntegrity(cand);
    if violations != [] { return false; }
    ok := CountsWithinLimits(cand);
    if ok { ok := KeepsGenerations(was, cand); }
  }

  /** Settles the provenance of the candidate, then judges it. */
  method Validate(was: Topology, cand: Topology) returns (ok: bool, final: Topology)
    ensures final == FinalizeProvenance(cand)
    ensures ok == Valid(was, cand)
  {
    final := Finalize(cand);
    FinalValid(was, cand);
    ok := CheckValid(was, final);
  }

  class FabricRegistry {
    var current: Topology
    var nextSnapshotId: U64
    var epoch: U64
    var version: int

    function State(): State
      reads this
    {
      Registry.State.State(current, nextSnapshotId, epoch, version)
    }

    constructor ()
      ensures State() == INITIAL
    {
      current, nextSnapshotId, epoch, version := EMPTY_TOPOLOGY, 2, 0, 0;
    }

    /** Validates the edited copy and, if it passes, publishes it. */
    method Submit(cand: Topology) returns (err: Option<Error>)
      modifies this
      ensures State() == Settle(old(State()), Candidate(cand)) && err == Verdict(old(State()), Candidate(cand))
    {
      var ok, final := Validate(current, cand);
      if !ok { return Some(INVALID_TOPOLOGY); }
      current := final.(id := nextSnapshotId, epoch := epoch);
      nextSnapshotId, version := Next(nextSnapshotId), version + 1;
      err := None;
    }

    /** A new coordinator epoch, which later snapshots carry. */
    method SetEpoch(e: U64)
      modifies this
      ensures State() == old(State()).(epoch := e)
    {
      epoch := e;
    }

    method AddDevice(rec: DeviceRecord) returns (err: Option<Error>)
      modifies this
      ensures State() == Step(Propose, old(State()), Op.AddDevice(rec)) && err == Answer(old(State()), Op.AddDevice(rec))
    {
      Dispatched(State(), Op.AddDevice(rec), ProposeAddDevice(current, rec));
      var cand := current;
      if rec.id in cand.devices { return Some(ALREADY_EXISTS); }
      if |cand.devices| >= MAX_DEVICES { return Some(RESOURCE_LIMIT); }
      cand := cand.(devices := cand.devices[rec.id := rec], topologyGen := Next(cand.topologyGen));
      err := Submit(cand);
    }

    method RemoveDevice(id: DeviceId) returns (err: Option<Error>)
      modifies this
      ensures State() == Step(Propose, old(State()), Op.RemoveDevice(id)) && err == Answer(old(State()), Op.RemoveDevice(id))
    {
      Dispatched(State(), Op.RemoveDevice(id), ProposeRemoveDevice(current, id));
      var cand := current;
      if id !in cand.devices { return Some(NOT_FOUND); }
      var links := EraseWhere(cand.links, EndingAtDevice(id));
      cand := cand.(devices := cand.devices - {id}, links := links, topologyGen := Next(cand.topologyGen));
      err := Submit(cand);
    }

    method AddSwitch(rec: SwitchRecord) returns (err: Option<Error>)
      modifies this
      ensures State() == Step(Propose, old(State()), Op.AddSwitch(rec)) && err == Answer(old(State()), Op.AddSwitch(rec))
    {
      Dispatched(State(), Op.AddSwitch(rec), ProposeAddSwitch(current, rec));
      var cand := current;
      if rec.id in cand.switches { return Some(ALREADY_EXISTS); }
      if |cand.switches| >= MAX_SWITCHES { return Some(RESOURCE_LIMIT); }
      cand := cand.(switches := cand.switches[rec.id := rec], topologyGen := Next(cand.topologyGen));
      err := Submit(cand);
    }

    method RemoveSwitch(id: SwitchId) returns (err: Option<Error>)
      modifies this
      ensures State() == Step(Propose, old(State()), Op.RemoveSwitch(id)) && err == Answer(old(State()), Op.RemoveSwitch(id))
    {
      Dispatched(State(), Op.RemoveSwitch(id), ProposeRemoveSwitch(current, id));
      var cand := current;
      if id !in cand.switches { return Some(NOT_FOUND); }
      var ports := ErasePortsOf(cand.ports, id);
      var links := EraseWhere(cand.links, TouchingSwitch(id));
      cand := cand.(switches := cand.switches - {id}, ports := ports, links := links, topologyGen := Next(cand.topologyGen));
      err := Submit(cand);
    }

    method SetSwitchState(id: SwitchId, state: Byte) returns (err: Option<Error>)
      modifies this
      ensures State() == Step(Propose, old(State()), Op.SetSwitchState(id, state)) && err == Answer(old(State()), Op.SetSwitchState(id, state))
    {
      Dispatched(State(), Op.SetSwitchState(id, state), ProposeSetSwitchState(current, id, state));
      var cand := current;
      if id !in cand.switches { return Some(NOT_FOUND); }
      var rec := cand.switches[id];
      if SwitchFailure(state) { rec := rec.(gen := Next(rec.gen)); }
      rec := rec.(state := state);
      cand := cand.(switches := cand.switches[id := rec], topologyGen := Next(cand.topologyGen));
      err := Submit(cand);
    }

    method RestartSwitch(id: SwitchId, newGen: Gen) returns (err: Option<Error>)
      modifies this
      ensures State() == Step(Propose, old(State()), Op.RestartSwitch(id, newGen)) && err == Answer(old(State()), Op.RestartSwitch(id, newGen))
    {
      Dispatched(State(), Op.RestartSwitch(id, newGen), ProposeRestartSwitch(current, id, newGen));
      var cand := current;
      if id !in cand.switches { return Some(NOT_FOUND); }
      var rec := cand.switches[id];
      if newGen < rec.gen { return Some(STALE_GENERATION); }
      rec := rec.(gen := newGen, state := REVALIDATION_REQUIRED);
      cand := cand.(switches := cand.switches[id := rec], topologyGen := Next(cand.topologyGen));
      err := Submit(cand);
    }

    method AddPort(rec: PortRecord) returns (err: Option<Error>)
      modifies this
      ensures State() == Step(Propose, old(State()), Op.AddPort(rec)) && err == Answer(old(State()), Op.AddPort(rec))
    {
      Dispatched(State(), Op.AddPort(rec), ProposeAddPort(current, rec));
      var p := AdmitPort(current, rec);
      if p.Refused? { return Some(p.error); }
      err := Submit(p.topology);
    }

    method RemovePort(id: PortId) returns (err: Option<Error>)
      modifies this
      ensures State() == Step(Propose, old(State()), Op.RemovePort(id)) && err == Answer(old(State()), Op.RemovePort(id))
    {
      Dispatched(State(), Op.RemovePort(id), ProposeRemovePort(current, id));
      var cand := current;
      if id !in cand.ports { return Some(NOT_FOUND); }
      var links := EraseWhere(cand.links, LeavingPort(id));
      cand := cand.(ports := cand.ports - {id}, links := links, topologyGen := Next(cand.topologyGen));
      err := Submit(cand);
    }

    method SetPortState(id: PortId, state: Byte) returns (err: Option<Error>)
      modifies this
      ensures State() == Step(Propose, old(State()), Op.SetPortState(id, state)) && err == Answer(old(State()), Op.SetPortState(id, state))
    {
      Dispatched(State(), Op.SetPortState(id, state), ProposeSetPortState(current, id, state));
      var cand := current;
      if id !in cand.ports { return Some(NOT_FOUND); }
      var rec := cand.ports[id];
      if PortFailure(state) { rec := rec.(gen := Next(rec.gen)); }
      rec := rec.(state := state);
      cand := cand.(ports := cand.ports[id := rec], topologyGen := Next(cand.topologyGen));
      err := Submit(cand);
    }

    method AddLink(rec: LinkRecord) returns (err: Option<Error>)
      modifies this
      ensures State() == Step(Propose, old(State()), Op.AddLink(rec)) && err == Answer(old(State()), Op.AddLink(rec))
    {
      Dispatched(State(), Op.AddLink(rec), ProposeAddLink(current, rec));
      var cand := current;
      if rec.rootSwitch !in cand.switches { return Some(INVALID_ARGUMENT); }
      if rec.port !in cand.ports { return Some(INVALID_ARGUMENT); }
      if rec.port.sw != rec.rootSwitch { return Some(INVALID_ARGUMENT); }
      if rec.otherEnd.kind == DEVICE_END && rec.otherEnd.device !in cand.devices { return Some(INVALID_ARGUMENT); }
      if rec.otherEnd.kind == SWITCH_END && rec.otherEnd.sw !in cand.switches { return Some(INVALID_ARGUMENT); }
      if rec.id in cand.links { return Some(ALREADY_EXISTS); }
      if |cand.links| >= MAX_LINKS { return Some(RESOURCE_LIMIT); }
      cand := cand.(links := cand.links[rec.id := rec], topologyGen := Next(cand.topologyGen));
      err := Submit(cand);
    }

    method RemoveLink(id: LinkId) returns (err: Option<Error>)
      modifies this
      ensures State() == Step(Propose, old(State()), Op.RemoveLink(id)) && err == Answer(old(State()), Op.RemoveLink(id))
    {
      Dispatched(State(), Op.RemoveLink(id), ProposeRemoveLink(current, id));
      var cand := current;
      if id !in cand.links { return Some(NOT_FOUND); }
      cand := cand.(links := cand.links - {id}, topologyGen := Next(cand.topologyGen));
      err := Submit(cand);
    }

    method SetLinkState(id: LinkId, state: Byte, degraded: bool) returns (err: Option<Error>)
      modifies this
      ensures State() == Step(Propose, old(State()), Op.SetLinkState(id, state, degraded)) && err == Answer(old(State()), Op.SetLinkState(id, state, degraded))
    {
      Dispatched(State(), Op.SetLinkState(id, state, degraded), ProposeSetLinkState(current, id, state, degraded));
      var cand := current;
      if id !in cand.links { return Some(NOT_FOUND); }
      var rec := cand.links[id];
      if LinkFailure(state) { rec := rec.(gen := Next(rec.gen)); }
      rec := rec.(state := state, degraded := degraded);
      cand := cand.(links := cand.links[id := rec], topologyGen := Next(cand.topologyGen));
      err := Submit(cand);
    }

    /** A new partition starts at generation one at least; a changed one moves past both generations. */
    method PublishPartition(part: Partition) returns (err: Option<Error>)
      modifies this
      ensures State() == Step(Propose, old(State()), Op.PublishPartition(part)) && err == Answer(old(State()), Op.PublishPartition(part))
    {
      Dispatched(State(), Op.PublishPartition(part), ProposePublishPartition(current, part));
      var cand := current;
      var p := part;
      if part.id !in cand.partitions {
        if |cand.partitions| >= MAX_PARTITIONS { return Some(RESOURCE_LIMIT); }
        if p.gen == 0 { p := p.(gen := 1); }
      } else {
        var existing := cand.partitions[part.id];
        var top := MaxGen(existing.gen, p.gen);
        p := p.(gen := if PartitionChanged(existing, part) then Next(top) else top);
      }
      var violations := PartitionViolations(cand, p);
      assert PartitionSound(cand, p) <==> PartitionSound(cand, part);
      if violations != [] { return Some(INVALID_PARTITION); }
      cand := cand.(partitions := cand.partitions[part.id := p], topologyGen := Next(cand.topologyGen));
      err := Submit(cand);
    }

    method RemovePartition(id: PartitionId) returns (err: Option<Error>)
      modifies this
      ensures State() == Step(Propose, old(State()), Op.RemovePartition(id)) && err == Answer(old(State()), Op.RemovePartition(id))
    {
      Dispatched(State(), Op.RemovePartition(id), ProposeRemovePartition(current, id));
      var cand := current;
      if id !in cand.partitions { return Some(NOT_FOUND); }
      cand := cand.(partitions := cand.partitions - {id}, topologyGen := Next(cand.topologyGen));
      err := Submit(cand);
    }

    method MarkPartitionStale(id: PartitionId) returns (err: Option<Error>)
      modifies this
      ensures State() == Step(Propose, old(State()), Op.MarkPartitionStale(id)) && err == Answer(old(State()), Op.MarkPartitionStale(id))
    {
      Dispatched(State(), Op.MarkPartitionStale(id), ProposeMarkPartitionStale(current, id));
      var cand := current;
      if id !in cand.partitions { return Some(NOT_FOUND); }
      var rec := cand.partitions[id];
      if rec.state != PARTITION_STALE { rec := rec.(gen := Next(rec.gen)); }
      rec := rec.(state := PARTITION_STALE);
      cand := cand.(partitions := cand.partitions[id := rec], topologyGen := Next(cand.topologyGen));
      err := Submit(cand);
    }

    /** Merges observed link degradation into the snapshot, observation by observation. */
    method PublishCongestion(observed: seq<LinkDegradation>) returns (err: Option<Error>)
      modifies this
      ensures State() == Step(Propose, old(State()), Op.PublishCongestion(observed)) && err == Answer(old(State()), Op.PublishCongestion(observed))
    {
      Dispatched(State(), Op.PublishCongestion(observed), ProposePublishCongestion(current, observed));
      var cand := current;
      var links := DegradeAll(cand.links, observed);
      cand := cand.(links := links, topologyGen := Next(cand.topologyGen));
      err := Submit(cand);
    }

    /** Fences one incarnation: everything it owns needs revalidation and moves to a new generation. */
    method InvalidateForWorker(worker: WorkerId, boot: BootId) returns (err: Option<Error>)
      modifies this
      ensures State() == Step(Propose, old(State()), Op.InvalidateForWorker(worker, boot)) && err == Answer(old(State()), Op.InvalidateForWorker(worker, boot))
    {
      Dispatched(State(), Op.InvalidateForWorker(worker, boot), ProposeInvalidate(current, worker, boot));
      var cand := FenceTables(current, worker, boot);
      err := Submit(cand);
    }

    method ExpireDynamicEvidence() returns (err: Option<Error>)
      modifies this
      ensures State() == Step(Propose, old(State()), Op.ExpireDynamicEvidence) && err == Answer(old(State()), Op.ExpireDynamicEvidence)
    {
      Dispatched(State(), Op.ExpireDynamicEvidence, ProposeExpire(current));
      var cand := ExpireTables(current);
      err := Submit(cand);
    }

    method RevalidateAll() returns (err: Option<Error>)
      modifies this
      ensures State() == Step(Propose, old(State()), Op.RevalidateAll) && err == Answer(old(State()), Op.RevalidateAll)
    {
      Dispatched(State(), Op.RevalidateAll, ProposeRevalidate(current));
      var cand := RevalidateTables(current);
      err := Submit(cand);
    }

    /** Stages every record, then validates the whole. */
    method ApplyBulk(e: BulkEdit) returns (err: Option<Error>)
      modifies this
      ensures State() == Step(Propose, old(State()), Op.ApplyBulk(e)) && err == Answer(old(State()), Op.ApplyBulk(e))
    {
      Dispatched(State(), Op.ApplyBulk(e), ProposeBulk(current, e));
      var cand := current;
      var devices := StageAll(cand.devices, e.devices, DeviceKey);
      var switches := StageAll(cand.switches, e.switches, SwitchKey);
      var ports := StageAll(cand.ports, e.ports, PortKey);
      var links := StageAll(cand.links, e.links, LinkKey);
      var partitions := StageAll(cand.partitions, e.partitions, PartitionKey);
      cand := cand.(devices := devices, switches := switches, ports := ports, links := links, partitions := partitions,
                    topologyGen := Next(cand.topologyGen));
      err := Submit(cand);
    }
  }
}
