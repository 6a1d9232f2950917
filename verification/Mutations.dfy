/**
 The registry operations as contracts in record fields, apart from how they are
 carried out: what each committed operation leaves, record by record.
 */
module Mutations {
  import opened Wire
  import opened Fabric
  import opened Registry
  import opened RegistryLaws

  // ----- frames -----

  datatype Table = Devices | Switches | Ports | Links | Partitions

  /** The tables an operation does not touch are as they were. */
  predicate Untouched(a: Tables, b: Tables, touched: set<Table>) {
    && (Devices !in touched ==> b.devices == a.devices)
    && (Switches !in touched ==> b.switches == a.switches)
    && (Ports !in touched ==> b.ports == a.ports)
    && (Links !in touched ==> b.links == a.links)
    && (Partitions !in touched ==> b.partitions == a.partitions)
  }

  /** Away from one key, two tables agree. */
  ghost predicate Elsewhere<K(!new), V>(was: map<K, V>, now: map<K, V>, k: K) {
    forall j :: j != k ==> (j in now <==> j in was) && (j in was ==> now[j] == was[j])
  }

  ghost predicate Put<K(!new), V>(was: map<K, V>, now: map<K, V>, k: K, v: V) {
    k in now && now[k] == v && Elsewhere(was, now, k)
  }

  ghost predicate Gone<K(!new), V>(was: map<K, V>, now: map<K, V>, k: K) {
    k in was && k !in now && Elsewhere(was, now, k)
  }

  /** Of one table, exactly the records that meet the condition are left, unchanged. */
  ghost predicate Left<K(!new), V>(was: map<K, V>, now: map<K, V>, stays: (K, V) -> bool) {
    && (forall k :: k in now <==> k in was && stays(k, was[k]))
    && (forall k :: k in now ==> k in was && now[k] == was[k])
  }

  // ----- devices -----

  ghost predicate DeviceAdded(a: Tables, rec: DeviceRecord, b: Tables) {
    Untouched(a, b, {Devices}) && rec.id !in a.devices && Put(a.devices, b.devices, rec.id, rec)
  }

  /** The device goes, and with it exactly the links that end at it. */
  ghost predicate DeviceRemoved(a: Tables, id: DeviceId, b: Tables) {
    && Untouched(a, b, {Devices, Links}) && Gone(a.devices, b.devices, id)
    && Left(a.links, b.links, (_: LinkId, l: LinkRecord) => !(l.otherEnd.kind == DEVICE_END && l.otherEnd.device == id))
  }

  lemma AddDeviceLeaves(t: Topology, rec: DeviceRecord, c: Topology)
    requires ProposeAddDevice(t, rec) == Candidate(c)
    ensures DeviceAdded(TablesOf(t), rec, TablesOf(c))
  {}

  lemma RemoveDeviceLeaves(t: Topology, id: DeviceId, c: Topology)
    requires ProposeRemoveDevice(t, id) == Candidate(c)
    ensures DeviceRemoved(TablesOf(t), id, TablesOf(c))
  {}

  // ----- switches -----

  ghost predicate SwitchAdded(a: Tables, rec: SwitchRecord, b: Tables) {
    Untouched(a, b, {Switches}) && rec.id !in a.switches && Put(a.switches, b.switches, rec.id, rec)
  }

  /** The switch goes, and with it exactly its ports and the links rooted at it or ending at it as a switch. */
  ghost predicate SwitchRemoved(a: Tables, id: SwitchId, b: Tables) {
    && Untouched(a, b, {Switches, Ports, Links}) && Gone(a.switches, b.switches, id)
    && Left(a.ports, b.ports, (p: PortId, _: PortRecord) => p.sw != id)
    && Left(a.links, b.links, (_: LinkId, l: LinkRecord) =>
              l.rootSwitch != id && !(l.otherEnd.kind == SWITCH_END && l.otherEnd.sw == id))
  }

  /** The switch ends in the given state, one generation on if that is a failure state. */
  ghost predicate SwitchStateSet(a: Tables, id: SwitchId, state: Byte, b: Tables) {
    && Untouched(a, b, {Switches}) && id in a.switches && id in b.switches && Elsewhere(a.switches, b.switches, id)
    && b.switches[id] == a.switches[id].(state := state, gen := b.switches[id].gen)
    && b.switches[id].gen == a.switches[id].gen
         + (if state == DOWN || state == UNREACHABLE || state == ABSENT || state == STALE || state == REVALIDATION_REQUIRED then 1 else 0)
  }

  ghost predicate SwitchRestarted(a: Tables, id: SwitchId, newGen: Gen, b: Tables) {
    && Untouched(a, b, {Switches}) && id in a.switches && a.switches[id].gen <= newGen
    && Put(a.switches, b.switches, id, a.switches[id].(gen := newGen, state := REVALIDATION_REQUIRED))
  }

  lemma AddSwitchLeaves(t: Topology, rec: SwitchRecord, c: Topology)
    requires ProposeAddSwitch(t, rec) == Candidate(c)
    ensures SwitchAdded(TablesOf(t), rec, TablesOf(c))
  {}

  lemma RemoveSwitchLeaves(t: Topology, id: SwitchId, c: Topology)
    requires ProposeRemoveSwitch(t, id) == Candidate(c)
    ensures SwitchRemoved(TablesOf(t), id, TablesOf(c))
  {}

  lemma SetSwitchStateLeaves(t: Topology, id: SwitchId, state: Byte, c: Topology)
    requires ProposeSetSwitchState(t, id, state) == Candidate(c) && GensKept(t, c)
    ensures SwitchStateSet(TablesOf(t), id, state, TablesOf(c))
  {
    assert c.switches[id].gen >= t.switches[id].gen;
  }

  lemma RestartSwitchLeaves(t: Topology, id: SwitchId, newGen: Gen, c: Topology)
    requires ProposeRestartSwitch(t, id, newGen) == Candidate(c)
    ensures SwitchRestarted(TablesOf(t), id, newGen, TablesOf(c))
  {}

  // ----- ports -----

  /** The port comes, and its switch counts at least as many ports as the new index needs. */
  ghost predicate PortAdded(a: Tables, rec: PortRecord, b: Tables) {
    var s := rec.id.sw;
    && Untouched(a, b, {Switches, Ports}) && rec.id !in a.ports && Put(a.ports, b.ports, rec.id, rec)
    && s in a.switches && s in b.switches && Elsewhere(a.switches, b.switches, s)
    && b.switches[s] == a.switches[s].(portCount := b.switches[s].portCount)
    && b.switches[s].portCount == if a.switches[s].portCount > rec.id.index then a.switches[s].portCount else rec.id.index + 1
  }

  /** The port goes, and with it exactly the links that leave by it. */
  ghost predicate PortRemoved(a: Tables, id: PortId, b: Tables) {
    && Untouched(a, b, {Ports, Links}) && Gone(a.ports, b.ports, id)
    && Left(a.links, b.links, (_: LinkId, l: LinkRecord) => l.port != id)
  }

  ghost predicate PortStateSet(a: Tables, id: PortId, state: Byte, b: Tables) {
    && Untouched(a, b, {Ports}) && id in a.ports && id in b.ports && Elsewhere(a.ports, b.ports, id)
    && b.ports[id] == a.ports[id].(state := state, gen := b.ports[id].gen)
    && b.ports[id].gen == a.ports[id].gen
         + (if state == DOWN || state == UNREACHABLE || state == ABSENT || state == STALE || state == REVALIDATION_REQUIRED
               || state == DISABLED then 1 else 0)
  }

  lemma AddPortLeaves(t: Topology, rec: PortRecord, c: Topology)
    requires ProposeAddPort(t, rec) == Candidate(c)
    ensures PortAdded(TablesOf(t), rec, TablesOf(c))
  {}

  lemma RemovePortLeaves(t: Topology, id: PortId, c: Topology)
    requires ProposeRemovePort(t, id) == Candidate(c)
    ensures PortRemoved(TablesOf(t), id, TablesOf(c))
  {}

  lemma SetPortStateLeaves(t: Topology, id: PortId, state: Byte, c: Topology)
    requires ProposeSetPortState(t, id, state) == Candidate(c) && GensKept(t, c)
    ensures PortStateSet(TablesOf(t), id, state, TablesOf(c))
  {
    assert c.ports[id].gen >= t.ports[id].gen;
  }

  // ----- links -----

  ghost predicate LinkAdded(a: Tables, rec: LinkRecord, b: Tables) {
    Untouched(a, b, {Links}) && rec.id !in a.links && Put(a.links, b.links, rec.id, rec)
  }

  ghost predicate LinkRemoved(a: Tables, id: LinkId, b: Tables) {
    Untouched(a, b, {Links}) && Gone(a.links, b.links, id)
  }

  ghost predicate LinkStateSet(a: Tables, id: LinkId, state: Byte, degraded: bool, b: Tables) {
    && Untouched(a, b, {Links}) && id in a.links && id in b.links && Elsewhere(a.links, b.links, id)
    && b.links[id] == a.links[id].(state := state, degraded := degraded, gen := b.links[id].gen)
    && b.links[id].gen == a.links[id].gen
         + (if state == DOWN || state == UNREACHABLE || state == STALE || state == REVALIDATION_REQUIRED then 1 else 0)
  }

  /** Observation i is about the link. */
  predicate About(observed: seq<LinkDegradation>, i: int, l: LinkId) {
    0 <= i < |observed| && observed[i].linkKnown && observed[i].link == l
  }

  predicate LastAbout(observed: seq<LinkDegradation>, i: int, l: LinkId) {
    About(observed, i, l) && forall j :: i < j < |observed| ==> !About(observed, j, l)
  }

  /** The mark is the last observation's; the state is DEGRADED once any observation said so. */
  ghost predicate Observed(observed: seq<LinkDegradation>, l: LinkId, r: LinkRecord, n: LinkRecord) {
    && n == r.(degraded := n.degraded, state := n.state)
    && (forall i :: LastAbout(observed, i, l) ==> n.degraded == observed[i].degraded)
    && ((forall i :: 0 <= i < |observed| ==> !About(observed, i, l)) ==> n.degraded == r.degraded)
    && n.state == if exists i :: About(observed, i, l) && observed[i].degraded then DEGRADED else r.state
  }

  ghost predicate CongestionMerged(a: Tables, observed: seq<LinkDegradation>, b: Tables) {
    && Untouched(a, b, {Links}) && (forall l :: l in b.links <==> l in a.links)
    && forall l :: l in a.links ==> l in b.links && Observed(observed, l, a.links[l], b.links[l])
  }

  lemma AddLinkLeaves(t: Topology, rec: LinkRecord, c: Topology)
    requires ProposeAddLink(t, rec) == Candidate(c)
    ensures LinkAdded(TablesOf(t), rec, TablesOf(c))
  {}

  lemma RemoveLinkLeaves(t: Topology, id: LinkId, c: Topology)
    requires ProposeRemoveLink(t, id) == Candidate(c)
    ensures LinkRemoved(TablesOf(t), id, TablesOf(c))
  {}

  lemma SetLinkStateLeaves(t: Topology, id: LinkId, state: Byte, degraded: bool, c: Topology)
    requires ProposeSetLinkState(t, id, state, degraded) == Candidate(c) && GensKept(t, c)
    ensures LinkStateSet(TablesOf(t), id, state, degraded, TablesOf(c))
  {
    assert c.links[id].gen >= t.links[id].gen;
  }

  lemma OneMoreObservation(rest: seq<LinkDegradation>, o: LinkDegradation, l: LinkId, r: LinkRecord, m: LinkRecord, n: LinkRecord)
    requires Observed(rest, l, r, m)
    requires n == if o.linkKnown && o.link == l then m.(degraded := o.degraded, state := if o.degraded then DEGRADED else m.state) else m
    ensures Observed(rest + [o], l, r, n)
  {
    var all := rest + [o];
    forall i | 0 <= i < |rest| ensures About(all, i, l) <==> About(rest, i, l) {}
    assert About(all, |rest|, l) <==> o.linkKnown && o.link == l;
    if !About(all, |rest|, l) {
      forall i | LastAbout(all, i, l) ensures LastAbout(rest, i, l) {
        forall j | i < j < |rest| ensures !About(rest, j, l) { assert !About(all, j, l); }
      }
    }
    if exists i :: About(rest, i, l) && rest[i].degraded {
      var i :| About(rest, i, l) && rest[i].degraded;
      assert About(all, i, l) && all[i].degraded;
    }
    if exists i :: About(all, i, l) && all[i].degraded {
      var i :| About(all, i, l) && all[i].degraded;
      if i < |rest| { assert About(rest, i, l) && rest[i].degraded; }
    }
  }

  lemma {:induction false} DegradeObserves(links: map<LinkId, LinkRecord>, observed: seq<LinkDegradation>, l: LinkId)
    requires l in links
    ensures Observed(observed, l, links[l], Degrade(links, observed)[l])
  {
    if observed != [] {
      var rest, o := observed[..|observed| - 1], observed[|observed| - 1];
      DegradeObserves(links, rest, l);
      OneMoreObservation(rest, o, l, links[l], Degrade(links, rest)[l], Degrade(links, observed)[l]);
      assert observed == rest + [o];
    }
  }

  lemma PublishCongestionLeaves(t: Topology, observed: seq<LinkDegradation>, c: Topology)
    requires ProposePublishCongestion(t, observed) == Candidate(c)
    ensures CongestionMerged(TablesOf(t), observed, TablesOf(c))
  {
    forall l | l in t.links ensures Observed(observed, l, t.links[l], c.links[l]) { DegradeObserves(t.links, observed, l); }
  }

  // ----- partitions -----

  /** As published but for the generation, which moves past both the old and the incoming one when anything changed. */
  ghost predicate PartitionPublished(a: Tables, part: Partition, b: Tables) {
    && Untouched(a, b, {Partitions}) && part.id in b.partitions && Elsewhere(a.partitions, b.partitions, part.id)
    && b.partitions[part.id] == part.(gen := b.partitions[part.id].gen)
    && var g := b.partitions[part.id].gen;
       if part.id !in a.partitions then g == (if part.gen == 0 then 1 else part.gen)
       else
         var was := a.partitions[part.id];
         var top := if was.gen < part.gen then part.gen else was.gen;
         if multiset(was.members) == multiset(part.members) && was.fabric == part.fabric && was.state == part.state then g == top
         else if was.gen == 0 && part.gen == U64_MAX then g == 0
         else g == top + 1
  }

  ghost predicate PartitionRemoved(a: Tables, id: PartitionId, b: Tables) {
    Untouched(a, b, {Partitions}) && Gone(a.partitions, b.partitions, id)
  }

  ghost predicate PartitionMarked(a: Tables, id: PartitionId, b: Tables) {
    && Untouched(a, b, {Partitions}) && id in a.partitions && id in b.partitions && Elsewhere(a.partitions, b.partitions, id)
    && b.partitions[id] == a.partitions[id].(state := PARTITION_STALE, gen := b.partitions[id].gen)
    && b.partitions[id].gen == a.partitions[id].gen + (if a.partitions[id].state == PARTITION_STALE then 0 else 1)
  }

  lemma PublishPartitionLeaves(t: Topology, part: Partition, c: Topology)
    requires ProposePublishPartition(t, part) == Candidate(c) && GensKept(t, c)
    ensures PartitionPublished(TablesOf(t), part, TablesOf(c))
  {
    if part.id in t.partitions { assert c.partitions[part.id].gen >= t.partitions[part.id].gen; }
  }

  lemma RemovePartitionLeaves(t: Topology, id: PartitionId, c: Topology)
    requires ProposeRemovePartition(t, id) == Candidate(c)
    ensures PartitionRemoved(TablesOf(t), id, TablesOf(c))
  {}

  lemma MarkPartitionStaleLeaves(t: Topology, id: PartitionId, c: Topology)
    requires ProposeMarkPartitionStale(t, id) == Candidate(c) && GensKept(t, c)
    ensures PartitionMarked(TablesOf(t), id, TablesOf(c))
  {
    assert c.partitions[id].gen >= t.partitions[id].gen;
  }

  // ----- fencing, expiry, revalidation -----

  /** Reported by this incarnation of this worker. */
  predicate From(o: Origin, w: WorkerId, b: BootId) {
    o.workerKnown && o.worker == w && o.workerBoot == b
  }

  predicate SwitchesFenced(was: map<SwitchId, SwitchRecord>, now: map<SwitchId, SwitchRecord>, w: WorkerId, boot: BootId) {
    && now.Keys == was.Keys
    && forall k :: k in was ==>
         if From(was[k].origin, w, boot) then now[k] == was[k].(state := REVALIDATION_REQUIRED, gen := now[k].gen) && now[k].gen == was[k].gen + 1
         else now[k] == was[k]
  }

  lemma FenceSwitches(was: map<SwitchId, SwitchRecord>, now: map<SwitchId, SwitchRecord>, w: WorkerId, boot: BootId)
    requires now == MapValues(was, SwitchFence(w, boot)) && forall k :: k in now && k in was ==> now[k].gen >= was[k].gen
    ensures SwitchesFenced(was, now, w, boot)
  {
    forall k | k in was ensures now[k] == FenceSwitch(was[k], w, boot) {}
  }

  predicate PortsFenced(was: map<PortId, PortRecord>, now: map<PortId, PortRecord>, w: WorkerId, boot: BootId) {
    && now.Keys == was.Keys
    && forall k :: k in was ==>
         if From(was[k].origin, w, boot) then now[k] == was[k].(state := REVALIDATION_REQUIRED, gen := now[k].gen) && now[k].gen == was[k].gen + 1
         else now[k] == was[k]
  }

  lemma FencePorts(was: map<PortId, PortRecord>, now: map<PortId, PortRecord>, w: WorkerId, boot: BootId)
    requires now == MapValues(was, PortFence(w, boot)) && forall k :: k in now && k in was ==> now[k].gen >= was[k].gen
    ensures PortsFenced(was, now, w, boot)
  {
    forall k | k in was ensures now[k] == FencePort(was[k], w, boot) {}
  }

  predicate LinksFenced(was: map<LinkId, LinkRecord>, now: map<LinkId, LinkRecord>, w: WorkerId, boot: BootId) {
    && now.Keys == was.Keys
    && forall k :: k in was ==>
         if From(was[k].origin, w, boot) then now[k] == was[k].(state := REVALIDATION_REQUIRED, gen := now[k].gen) && now[k].gen == was[k].gen + 1
         else now[k] == was[k]
  }

  lemma FenceLinks(was: map<LinkId, LinkRecord>, now: map<LinkId, LinkRecord>, w: WorkerId, boot: BootId)
    requires now == MapValues(was, LinkFence(w, boot)) && forall k :: k in now && k in was ==> now[k].gen >= was[k].gen
    ensures LinksFenced(was, now, w, boot)
  {
    forall k | k in was ensures now[k] == FenceLink(was[k], w, boot) {}
  }

  predicate PartitionsFenced(was: map<PartitionId, Partition>, now: map<PartitionId, Partition>, w: WorkerId, boot: BootId) {
    && now.Keys == was.Keys
    && forall k :: k in was ==>
         if From(was[k].origin, w, boot) then now[k] == was[k].(state := PARTITION_REVALIDATION_REQUIRED, gen := now[k].gen) && now[k].gen == was[k].gen + 1
         else now[k] == was[k]
  }

  lemma FencePartitions(was: map<PartitionId, Partition>, now: map<PartitionId, Partition>, w: WorkerId, boot: BootId)
    requires now == MapValues(was, PartitionFence(w, boot)) && forall k :: k in now && k in was ==> now[k].gen >= was[k].gen
    ensures PartitionsFenced(was, now, w, boot)
  {
    forall k | k in was ensures now[k] == FencePartition(was[k], w, boot) {}
  }

  predicate DevicesFenced(was: map<DeviceId, DeviceRecord>, now: map<DeviceId, DeviceRecord>, w: WorkerId, boot: BootId) {
    && now.Keys == was.Keys
    && forall k :: k in was ==> now[k] == if From(was[k].origin, w, boot) then was[k].(state := REVALIDATION_REQUIRED) else was[k]
  }

  /** What the incarnation reported awaits revalidation, one generation on; all else is as it was. */
  predicate Fenced(a: Tables, w: WorkerId, boot: BootId, b: Tables) {
    && SwitchesFenced(a.switches, b.switches, w, boot) && PortsFenced(a.ports, b.ports, w, boot)
    && LinksFenced(a.links, b.links, w, boot) && PartitionsFenced(a.partitions, b.partitions, w, boot)
    && DevicesFenced(a.devices, b.devices, w, boot)
  }

  lemma InvalidateLeaves(t: Topology, w: WorkerId, boot: BootId, c: Topology)
    requires ProposeInvalidate(t, w, boot) == Candidate(c) && GensKept(t, c)
    ensures Fenced(TablesOf(t), w, boot, TablesOf(c))
  {
    FenceSwitches(t.switches, c.switches, w, boot);
    FencePorts(t.ports, c.ports, w, boot);
    FenceLinks(t.links, c.links, w, boot);
    FencePartitions(t.partitions, c.partitions, w, boot);
  }

  /** Reported by a worker, or observed on hardware. */
  predicate Perishable(o: Origin) {
    o.workerKnown || o.provenance == REAL
  }

  /** What a worker reported or hardware showed awaits revalidation, at its generation; all else is as it was. */
  ghost predicate EvidenceExpired(a: Tables, b: Tables) {
    && b.switches.Keys == a.switches.Keys
    && (forall k :: k in a.switches ==>
          b.switches[k] == if Perishable(a.switches[k].origin) then a.switches[k].(state := REVALIDATION_REQUIRED) else a.switches[k])
    && b.ports.Keys == a.ports.Keys
    && (forall k :: k in a.ports ==>
          b.ports[k] == if Perishable(a.ports[k].origin) then a.ports[k].(state := REVALIDATION_REQUIRED) else a.ports[k])
    && b.links.Keys == a.links.Keys
    && (forall k :: k in a.links ==>
          b.links[k] == if Perishable(a.links[k].origin) then a.links[k].(state := REVALIDATION_REQUIRED) else a.links[k])
    && b.partitions.Keys == a.partitions.Keys
    && (forall k :: k in a.partitions ==>
          b.partitions[k] == if Perishable(a.partitions[k].origin) then a.partitions[k].(state := PARTITION_REVALIDATION_REQUIRED) else a.partitions[k])
    && b.devices.Keys == a.devices.Keys
    && (forall k :: k in a.devices ==>
          b.devices[k] == if Perishable(a.devices[k].origin) then a.devices[k].(state := REVALIDATION_REQUIRED) else a.devices[k])
  }

  lemma ExpireLeaves(t: Topology, c: Topology)
    requires ProposeExpire(t) == Candidate(c)
    ensures EvidenceExpired(TablesOf(t), TablesOf(c))
  {}

  /** What was stale or awaiting revalidation is back in service, at its generation; all else is as it was. */
  ghost predicate Revalidated(a: Tables, b: Tables) {
    && b.switches.Keys == a.switches.Keys
    && (forall k :: k in a.switches ==>
          b.switches[k] == if a.switches[k].state == STALE || a.switches[k].state == REVALIDATION_REQUIRED then a.switches[k].(state := UP) else a.switches[k])
    && b.ports.Keys == a.ports.Keys
    && (forall k :: k in a.ports ==>
          b.ports[k] == if a.ports[k].state == STALE || a.ports[k].state == REVALIDATION_REQUIRED then a.ports[k].(state := UP) else a.ports[k])
    && b.links.Keys == a.links.Keys
    && (forall k :: k in a.links ==>
          b.links[k] == if a.links[k].state == STALE || a.links[k].state == REVALIDATION_REQUIRED then a.links[k].(state := UP) else a.links[k])
    && b.partitions.Keys == a.partitions.Keys
    && (forall k :: k in a.partitions ==>
          b.partitions[k] == if a.partitions[k].state == PARTITION_STALE || a.partitions[k].state == PARTITION_REVALIDATION_REQUIRED
                             then a.partitions[k].(state := PARTITION_ACTIVE) else a.partitions[k])
    && b.devices.Keys == a.devices.Keys
    && (forall k :: k in a.devices ==>
          b.devices[k] == if a.devices[k].state == STALE || a.devices[k].state == REVALIDATION_REQUIRED then a.devices[k].(state := UP) else a.devices[k])
  }

  lemma RevalidateLeaves(t: Topology, c: Topology)
    requires ProposeRevalidate(t) == Candidate(c)
    ensures Revalidated(TablesOf(t), TablesOf(c))
  {}

  // ----- bulk edits -----

  predicate Brings<K(==), V>(rs: seq<V>, key: V -> K, k: K) {
    exists i :: 0 <= i < |rs| && key(rs[i]) == k
  }

  /** Under each key the last record the edit brings, and where it brings none what was there before. */
  ghost predicate Overlaid<K(!new), V>(was: map<K, V>, rs: seq<V>, key: V -> K, now: map<K, V>) {
    && (forall k :: k in now <==> k in was || Brings(rs, key, k))
    && (forall i: nat :: LastUnder(rs, key, i) ==> key(rs[i]) in now && now[key(rs[i])] == rs[i])
    && (forall k :: k in was && !Brings(rs, key, k) ==> k in now && now[k] == was[k])
  }

  lemma {:induction false} StageKeys<K(!new), V>(m: map<K, V>, rs: seq<V>, key: V -> K, k: K)
    ensures k in Stage(m, rs, key) <==> k in m || Brings(rs, key, k)
    ensures k in m && !Brings(rs, key, k) ==> k in Stage(m, rs, key) && Stage(m, rs, key)[k] == m[k]
  {
    if rs != [] {
      var n := |rs| - 1;
      StageKeys(m, rs[..n], key, k);
      assert forall i :: 0 <= i < n ==> rs[..n][i] == rs[i];
      if Brings(rs, key, k) && key(rs[n]) != k {
        var i :| 0 <= i < |rs| && key(rs[i]) == k;
        assert rs[..n][i] == rs[i];
      }
    }
  }

  lemma StageOverlays<K(!new), V>(m: map<K, V>, rs: seq<V>, key: V -> K)
    ensures Overlaid(m, rs, key, Stage(m, rs, key))
  {
    forall k ensures k in Stage(m, rs, key) <==> k in m || Brings(rs, key, k)
      ensures k in m && !Brings(rs, key, k) ==> k in Stage(m, rs, key) && Stage(m, rs, key)[k] == m[k]
    {
      StageKeys(m, rs, key, k);
    }
    forall i: nat | LastUnder(rs, key, i) ensures key(rs[i]) in Stage(m, rs, key) && Stage(m, rs, key)[key(rs[i])] == rs[i] {
      StagedLast(m, rs, key, i);
    }
  }

  ghost predicate BulkApplied(a: Tables, e: BulkEdit, b: Tables) {
    && Overlaid(a.devices, e.devices, DeviceKey, b.devices)
    && Overlaid(a.switches, e.switches, SwitchKey, b.switches)
    && Overlaid(a.ports, e.ports, PortKey, b.ports)
    && Overlaid(a.links, e.links, LinkKey, b.links)
    && Overlaid(a.partitions, e.partitions, PartitionKey, b.partitions)
  }

  lemma ApplyBulkLeaves(t: Topology, e: BulkEdit, c: Topology)
    requires ProposeBulk(t, e) == Candidate(c)
    ensures BulkApplied(TablesOf(t), e, TablesOf(c))
  {
    StageOverlays(t.devices, e.devices, DeviceKey);
    StageOverlays(t.switches, e.switches, SwitchKey);
    StageOverlays(t.ports, e.ports, PortKey);
    StageOverlays(t.links, e.links, LinkKey);
    StageOverlays(t.partitions, e.partitions, PartitionKey);
  }

  // ----- every operation -----

  /** What a committed operation leaves of the tables, in record fields. */
  ghost predicate Leaves(a: Tables, op: Op, b: Tables) {
    match op
    case AddDevice(rec) => DeviceAdded(a, rec, b)
    case RemoveDevice(id) => DeviceRemoved(a, id, b)
    case AddSwitch(rec) => SwitchAdded(a, rec, b)
    case RemoveSwitch(id) => SwitchRemoved(a, id, b)
    case SetSwitchState(id, state) => SwitchStateSet(a, id, state, b)
    case RestartSwitch(id, g) => SwitchRestarted(a, id, g, b)
    case AddPort(rec) => PortAdded(a, rec, b)
    case RemovePort(id) => PortRemoved(a, id, b)
    case SetPortState(id, state) => PortStateSet(a, id, state, b)
    case AddLink(rec) => LinkAdded(a, rec, b)
    case RemoveLink(id) => LinkRemoved(a, id, b)
    case SetLinkState(id, state, degraded) => LinkStateSet(a, id, state, degraded, b)
    case PublishPartition(part) => PartitionPublished(a, part, b)
    case RemovePartition(id) => PartitionRemoved(a, id, b)
    case MarkPartitionStale(id) => PartitionMarked(a, id, b)
    case PublishCongestion(observed) => CongestionMerged(a, observed, b)
    case InvalidateForWorker(w, boot) => Fenced(a, w, boot, b)
    case ExpireDynamicEvidence => EvidenceExpired(a, b)
    case RevalidateAll => Revalidated(a, b)
    case ApplyBulk(e) => BulkApplied(a, e, b)
  }

  lemma DeviceOpsLeave(t: Topology, op: Op, c: Topology)
    requires op.AddDevice? || op.RemoveDevice?
    requires Propose(t, op) == Candidate(c)
    ensures Leaves(TablesOf(t), op, TablesOf(c))
  {
    if op.AddDevice? { AddDeviceLeaves(t, op.device, c); } else { RemoveDeviceLeaves(t, op.deviceId, c); }
  }

  lemma SwitchOpsLeave(t: Topology, op: Op, c: Topology)
    requires op.AddSwitch? || op.RemoveSwitch? || op.SetSwitchState? || op.RestartSwitch?
    requires Propose(t, op) == Candidate(c) && GensKept(t, c)
    ensures Leaves(TablesOf(t), op, TablesOf(c))
  {
    match op
    case AddSwitch(rec) => AddSwitchLeaves(t, rec, c);
    case RemoveSwitch(id) => RemoveSwitchLeaves(t, id, c);
    case SetSwitchState(id, state) => SetSwitchStateLeaves(t, id, state, c);
    case RestartSwitch(id, g) => RestartSwitchLeaves(t, id, g, c);
  }

  lemma PortOpsLeave(t: Topology, op: Op, c: Topology)
    requires op.AddPort? || op.RemovePort? || op.SetPortState?
    requires Propose(t, op) == Candidate(c) && GensKept(t, c)
    ensures Leaves(TablesOf(t), op, TablesOf(c))
  {
    match op
    case AddPort(rec) => AddPortLeaves(t, rec, c);
    case RemovePort(id) => RemovePortLeaves(t, id, c);
    case SetPortState(id, state) => SetPortStateLeaves(t, id, state, c);
  }

  lemma LinkOpsLeave(t: Topology, op: Op, c: Topology)
    requires op.AddLink? || op.RemoveLink? || op.SetLinkState? || op.PublishCongestion?
    requires Propose(t, op) == Candidate(c) && GensKept(t, c)
    ensures Leaves(TablesOf(t), op, TablesOf(c))
  {
    match op
    case AddLink(rec) => AddLinkLeaves(t, rec, c);
    case RemoveLink(id) => RemoveLinkLeaves(t, id, c);
    case SetLinkState(id, state, degraded) => SetLinkStateLeaves(t, id, state, degraded, c);
    case PublishCongestion(observed) => PublishCongestionLeaves(t, observed, c);
  }

  lemma PartitionOpsLeave(t: Topology, op: Op, c: Topology)
    requires op.PublishPartition? || op.RemovePartition? || op.MarkPartitionStale?
    requires Propose(t, op) == Candidate(c) && GensKept(t, c)
    ensures Leaves(TablesOf(t), op, TablesOf(c))
  {
    match op
    case PublishPartition(part) => PublishPartitionLeaves(t, part, c);
    case RemovePartition(id) => RemovePartitionLeaves(t, id, c);
    case MarkPartitionStale(id) => MarkPartitionStaleLeaves(t, id, c);
  }

  lemma WholesaleOpsLeave(t: Topology, op: Op, c: Topology)
    requires op.InvalidateForWorker? || op.ExpireDynamicEvidence? || op.RevalidateAll? || op.ApplyBulk?
    requires Propose(t, op) == Candidate(c) && GensKept(t, c)
    ensures Leaves(TablesOf(t), op, TablesOf(c))
  {
    match op
    case InvalidateForWorker(w, boot) => InvalidateLeaves(t, w, boot, c);
    case ExpireDynamicEvidence => ExpireLeaves(t, c);
    case RevalidateAll => RevalidateLeaves(t, c);
    case ApplyBulk(e) => ApplyBulkLeaves(t, e, c);
  }

  lemma CandidateLeaves(t: Topology, op: Op, c: Topology)
    requires Propose(t, op) == Candidate(c) && GensKept(t, c)
    ensures Leaves(TablesOf(t), op, TablesOf(c))
  {
    if op.AddDevice? || op.RemoveDevice? { DeviceOpsLeave(t, op, c); return; }
    if op.AddSwitch? || op.RemoveSwitch? || op.SetSwitchState? || op.RestartSwitch? { SwitchOpsLeave(t, op, c); return; }
    if op.AddPort? || op.RemovePort? || op.SetPortState? { PortOpsLeave(t, op, c); return; }
    if op.AddLink? || op.RemoveLink? || op.SetLinkState? || op.PublishCongestion? { LinkOpsLeave(t, op, c); return; }
    if op.PublishPartition? || op.RemovePartition? || op.MarkPartitionStale? { PartitionOpsLeave(t, op, c); return; }
    WholesaleOpsLeave(t, op, c);
  }

  predicate Reported(a: Tables, w: WorkerId, boot: BootId) {
    || (exists k :: k in a.devices && From(a.devices[k].origin, w, boot))
    || (exists k :: k in a.switches && From(a.switches[k].origin, w, boot))
    || (exists k :: k in a.ports && From(a.ports[k].origin, w, boot))
    || (exists k :: k in a.links && From(a.links[k].origin, w, boot))
    || (exists k :: k in a.partitions && From(a.partitions[k].origin, w, boot))
  }

  predicate Shows(a: Tables, provenance: Byte) {
    || (exists k :: k in a.devices && a.devices[k].origin.provenance == provenance)
    || (exists k :: k in a.switches && a.switches[k].origin.provenance == provenance)
    || (exists k :: k in a.ports && a.ports[k].origin.provenance == provenance)
    || (exists k :: k in a.links && a.links[k].origin.provenance == provenance)
    || (exists k :: k in a.partitions && a.partitions[k].origin.provenance == provenance)
  }

  /** What a committed operation leaves of everything but the tables. */
  predicate Stamped(r: State, op: Op, n: State) {
    && n.current.id == r.nextSnapshotId && n.current.epoch == r.epoch == n.epoch && n.version == r.version + 1
    && n.nextSnapshotId == (if r.nextSnapshotId == U64_MAX then 0 else r.nextSnapshotId + 1)
    && n.current.fabricGen == r.current.fabricGen && n.current.labelText == r.current.labelText && n.current.persisted == r.current.persisted
    && n.current.topologyGen ==
         r.current.topologyGen + (if op.InvalidateForWorker? && !Reported(TablesOf(r.current), op.worker, op.boot) then 0 else 1)
  }

  /** SYNTHETIC if any record is, else REAL if any record is, else unsupported. */
  predicate Labelled(n: Topology) {
    n.provenance ==
      (if Shows(TablesOf(n), SYNTHETIC) then SYNTHETIC else if Shows(TablesOf(n), REAL) then REAL else PROVENANCE_UNSUPPORTED)
  }

  lemma ReportedOwned(t: Topology, w: WorkerId, boot: BootId)
    ensures Reported(TablesOf(t), w, boot) <==> OwnsAny(t, w, boot)
  {}

  lemma ShowsProvenance(t: Topology, provenance: Byte)
    ensures Shows(TablesOf(t), provenance) <==> AnyProvenance(t, provenance)
  {}

  predicate SameLabels(t: Topology, c: Topology) {
    c.fabricGen == t.fabricGen && c.labelText == t.labelText && c.persisted == t.persisted
  }

  lemma CandidateLabels(t: Topology, op: Op, c: Topology)
    requires Propose(t, op) == Candidate(c)
    ensures SameLabels(t, c)
  {}

  lemma CommitStamps(r: State, op: Op, c: Topology)
    requires Valid(r.current, c) && Keeps(r.current, op, c) && SameLabels(r.current, c)
    ensures Stamped(r, op, Commit(r, c))
  {
    if op.InvalidateForWorker? { ReportedOwned(r.current, op.worker, op.boot); }
  }

  lemma CommitLabels(r: State, c: Topology)
    ensures Labelled(Commit(r, c).current)
  {
    var n := Commit(r, c).current;
    assert TablesOf(n) == TablesOf(c);
    ShowsProvenance(c, SYNTHETIC);
    ShowsProvenance(c, REAL);
  }

  /**
   Every committed operation leaves exactly what its contract says of the tables, moves the snapshot
   id, the version and the topology generation on, and labels the snapshot by its records; a refused
   one leaves everything alone.
   */
  lemma StepLeaves(r: State, op: Op)
    requires KeysMatch(r.current)
    ensures Accepts(Propose, r, op) ==>
      var n := Step(Propose, r, op); Leaves(TablesOf(r.current), op, TablesOf(n.current)) && Stamped(r, op, n) && Labelled(n.current)
    ensures !Accepts(Propose, r, op) ==> Step(Propose, r, op) == r
  {
    if Accepts(Propose, r, op) {
      var c := Propose(r.current, op).topology;
      CandidateLeaves(r.current, op, c);
      CandidateKeeps(r.current, op);
      CandidateLabels(r.current, op, c);
      CommitStamps(r, op, c);
      CommitLabels(r, c);
      assert TablesOf(Commit(r, c).current) == TablesOf(c);
    }
  }

  // ----- the contracts leave nothing open -----

  lemma PutOnce<K(!new), V>(was: map<K, V>, b: map<K, V>, c: map<K, V>, k: K)
    requires k in b && k in c && b[k] == c[k] && Elsewhere(was, b, k) && Elsewhere(was, c, k)
    ensures b == c
  {
    forall j ensures j in b <==> j in c {}
  }

  lemma GoneOnce<K(!new), V>(was: map<K, V>, b: map<K, V>, c: map<K, V>, k: K)
    requires Gone(was, b, k) && Gone(was, c, k)
    ensures b == c
  {
    forall j ensures j in b <==> j in c {}
  }

  lemma LeftOnce<K(!new), V>(was: map<K, V>, b: map<K, V>, c: map<K, V>, stays: (K, V) -> bool, same: (K, V) -> bool)
    requires Left(was, b, stays) && Left(was, c, same) && forall k, v :: stays(k, v) <==> same(k, v)
    ensures b == c
  {}

  lemma {:induction false} LastBrought<K, V>(rs: seq<V>, key: V -> K, k: K) returns (i: nat)
    requires Brings(rs, key, k)
    ensures LastUnder(rs, key, i) && key(rs[i]) == k
  {
    var n := |rs| - 1;
    if key(rs[n]) == k {
      i := n;
    } else {
      var j :| 0 <= j < |rs| && key(rs[j]) == k;
      assert rs[..n][j] == rs[j];
      i := LastBrought(rs[..n], key, k);
    }
  }

  lemma OverlaidOnce<K(!new), V>(was: map<K, V>, rs: seq<V>, key: V -> K, b: map<K, V>, c: map<K, V>)
    requires Overlaid(was, rs, key, b) && Overlaid(was, rs, key, c)
    ensures b == c
  {
    forall k | k in b ensures k in c && b[k] == c[k] {
      if Brings(rs, key, k) { var i := LastBrought(rs, key, k); }
    }
    forall k ensures k in b <==> k in c {}
  }

  lemma {:induction false} LastObservation(observed: seq<LinkDegradation>, l: LinkId, i: int) returns (j: int)
    requires About(observed, i, l)
    ensures LastAbout(observed, j, l)
    decreases |observed| - i
  {
    if k :| i < k < |observed| && About(observed, k, l) { j := LastObservation(observed, l, k); } else { j := i; }
  }

  lemma ObservedOnce(observed: seq<LinkDegradation>, l: LinkId, r: LinkRecord, n: LinkRecord, m: LinkRecord)
    requires Observed(observed, l, r, n) && Observed(observed, l, r, m)
    ensures n == m
  {
    if i :| About(observed, i, l) { var j := LastObservation(observed, l, i); }
  }

  lemma CongestionOnce(a: Tables, observed: seq<LinkDegradation>, b: Tables, c: Tables)
    requires CongestionMerged(a, observed, b) && CongestionMerged(a, observed, c)
    ensures b == c
  {
    forall l | l in b.links ensures l in c.links && b.links[l] == c.links[l] { ObservedOnce(observed, l, a.links[l], b.links[l], c.links[l]); }
    assert b.links == c.links;
  }

  lemma BulkOnce(a: Tables, e: BulkEdit, b: Tables, c: Tables)
    requires BulkApplied(a, e, b) && BulkApplied(a, e, c)
    ensures b == c
  {
    OverlaidOnce(a.devices, e.devices, DeviceKey, b.devices, c.devices);
    OverlaidOnce(a.switches, e.switches, SwitchKey, b.switches, c.switches);
    OverlaidOnce(a.ports, e.ports, PortKey, b.ports, c.ports);
    OverlaidOnce(a.links, e.links, LinkKey, b.links, c.links);
    OverlaidOnce(a.partitions, e.partitions, PartitionKey, b.partitions, c.partitions);
  }

  lemma RemovalOnce(a: Tables, op: Op, b: Tables, c: Tables)
    requires op.RemoveDevice? || op.RemoveSwitch? || op.RemovePort? || op.RemoveLink? || op.RemovePartition?
    requires Leaves(a, op, b) && Leaves(a, op, c)
    ensures b == c
  {
    match op
    case RemoveDevice(id) => GoneOnce(a.devices, b.devices, c.devices, id); assert b.links == c.links;
    case RemoveSwitch(id) => GoneOnce(a.switches, b.switches, c.switches, id); assert b.ports == c.ports && b.links == c.links;
    case RemovePort(id) => GoneOnce(a.ports, b.ports, c.ports, id); assert b.links == c.links;
    case RemoveLink(id) => GoneOnce(a.links, b.links, c.links, id);
    case RemovePartition(id) => GoneOnce(a.partitions, b.partitions, c.partitions, id);
  }

  lemma DeviceOrSwitchOnce(a: Tables, op: Op, b: Tables, c: Tables)
    requires op.AddDevice? || op.AddSwitch? || op.SetSwitchState? || op.RestartSwitch?
    requires Leaves(a, op, b) && Leaves(a, op, c)
    ensures b == c
  {
    match op
    case AddDevice(rec) => PutOnce(a.devices, b.devices, c.devices, rec.id);
    case AddSwitch(rec) => PutOnce(a.switches, b.switches, c.switches, rec.id);
    case SetSwitchState(id, _) => PutOnce(a.switches, b.switches, c.switches, id);
    case RestartSwitch(id, _) => PutOnce(a.switches, b.switches, c.switches, id);
  }

  lemma PortOrLinkOnce(a: Tables, op: Op, b: Tables, c: Tables)
    requires op.AddPort? || op.SetPortState? || op.AddLink? || op.SetLinkState?
    requires Leaves(a, op, b) && Leaves(a, op, c)
    ensures b == c
  {
    match op
    case AddPort(rec) => PutOnce(a.ports, b.ports, c.ports, rec.id); PutOnce(a.switches, b.switches, c.switches, rec.id.sw);
    case SetPortState(id, _) => PutOnce(a.ports, b.ports, c.ports, id);
    case AddLink(rec) => PutOnce(a.links, b.links, c.links, rec.id);
    case SetLinkState(id, _, _) => PutOnce(a.links, b.links, c.links, id);
  }

  lemma PartitionOnce(a: Tables, op: Op, b: Tables, c: Tables)
    requires op.PublishPartition? || op.MarkPartitionStale?
    requires Leaves(a, op, b) && Leaves(a, op, c)
    ensures b == c
  {
    var k := if op.PublishPartition? then op.part.id else op.partitionId;
    PutOnce(a.partitions, b.partitions, c.partitions, k);
  }

  lemma FencedOnce(a: Tables, w: WorkerId, boot: BootId, b: Tables, c: Tables)
    requires Fenced(a, w, boot, b) && Fenced(a, w, boot, c)
    ensures b == c
  {
    assert b.devices == c.devices && b.switches == c.switches && b.ports == c.ports;
    assert b.links == c.links && b.partitions == c.partitions;
  }

  lemma ExpiredOnce(a: Tables, b: Tables, c: Tables)
    requires EvidenceExpired(a, b) && EvidenceExpired(a, c)
    ensures b == c
  {
    assert b.devices == c.devices && b.switches == c.switches && b.ports == c.ports;
    assert b.links == c.links && b.partitions == c.partitions;
  }

  lemma RevalidatedOnce(a: Tables, b: Tables, c: Tables)
    requires Revalidated(a, b) && Revalidated(a, c)
    ensures b == c
  {
    assert b.devices == c.devices && b.switches == c.switches && b.ports == c.ports;
    assert b.links == c.links && b.partitions == c.partitions;
  }

  lemma EvidenceOnce(a: Tables, op: Op, b: Tables, c: Tables)
    requires op.InvalidateForWorker? || op.ExpireDynamicEvidence? || op.RevalidateAll? || op.PublishCongestion? || op.ApplyBulk?
    requires Leaves(a, op, b) && Leaves(a, op, c)
    ensures b == c
  {
    match op
    case InvalidateForWorker(w, boot) => FencedOnce(a, w, boot, b, c);
    case ExpireDynamicEvidence => ExpiredOnce(a, b, c);
    case RevalidateAll => RevalidatedOnce(a, b, c);
    case PublishCongestion(observed) => CongestionOnce(a, observed, b, c);
    case ApplyBulk(e) => BulkOnce(a, e, b, c);
  }

  predicate PointOp(op: Op) {
    op.AddDevice? || op.AddSwitch? || op.SetSwitchState? || op.RestartSwitch? || op.AddPort? || op.SetPortState? || op.AddLink? || op.SetLinkState?
  }

  lemma PointOnce(a: Tables, op: Op, b: Tables, c: Tables)
    requires PointOp(op) && Leaves(a, op, b) && Leaves(a, op, c)
    ensures b == c
  {
    if op.AddDevice? || op.AddSwitch? || op.SetSwitchState? || op.RestartSwitch? { DeviceOrSwitchOnce(a, op, b, c); } else { PortOrLinkOnce(a, op, b, c); }
  }

  /** An operation's contract determines the tables it leaves. */
  lemma LeavesDetermines(a: Tables, op: Op, b: Tables, c: Tables)
    requires Leaves(a, op, b) && Leaves(a, op, c)
    ensures b == c
  {
    if PointOp(op) {
      PointOnce(a, op, b, c);
    } else if op.RemoveDevice? || op.RemoveSwitch? || op.RemovePort? || op.RemoveLink? || op.RemovePartition? {
      RemovalOnce(a, op, b, c);
    } else if op.PublishPartition? || op.MarkPartitionStale? {
      PartitionOnce(a, op, b, c);
    } else {
      EvidenceOnce(a, op, b, c);
    }
  }
}
