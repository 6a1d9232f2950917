/** What every step and every run of the registry keeps. */
module RegistryLaws {
  import opened Wire
  import opened Fabric
  import opened Registry

  // ----- every candidate -----

  lemma {:induction false} Staged<K, V>(m: map<K, V>, rs: seq<V>, key: V -> K)
    requires forall k :: k in m ==> key(m[k]) == k
    ensures forall k :: k in Stage(m, rs, key) ==> key(Stage(m, rs, key)[k]) == k
    ensures forall k :: k in m ==> k in Stage(m, rs, key)
  {
    if rs != [] { Staged(m, rs[..|rs| - 1], key); }
  }

  /** The last record staged under a key is the one that stays. */
  predicate LastUnder<K(==), V>(rs: seq<V>, key: V -> K, i: nat) {
    i < |rs| && forall j :: i < j < |rs| ==> key(rs[j]) != key(rs[i])
  }

  lemma {:induction false} StagedLast<K, V>(m: map<K, V>, rs: seq<V>, key: V -> K, i: nat)
    requires LastUnder(rs, key, i)
    ensures key(rs[i]) in Stage(m, rs, key) && Stage(m, rs, key)[key(rs[i])] == rs[i]
    decreases |rs|
  {
    if i < |rs| - 1 {
      assert key(rs[|rs| - 1]) != key(rs[i]);
      StagedLast(m, rs[..|rs| - 1], key, i);
    }
  }

  /** Whatever is staged came from the edit or was there before. */
  lemma {:induction false} StagedFrom<K, V>(m: map<K, V>, rs: seq<V>, key: V -> K, k: K)
    requires k in Stage(m, rs, key)
    ensures Stage(m, rs, key)[k] in rs || (k in m && Stage(m, rs, key)[k] == m[k])
  {
    if rs != [] && key(rs[|rs| - 1]) != k { StagedFrom(m, rs[..|rs| - 1], key, k); }
  }

  /** What each mutator's candidate is: keyed by id, and one topology generation on. */
  predicate Keeps(t: Topology, op: Op, c: Topology) {
    && KeysMatch(c)
    && c.topologyGen == if Advances(t, op) then Next(t.topologyGen) else t.topologyGen
  }

  /** All mutators advance the topology generation, but for fencing an incarnation that owns nothing. */
  predicate Advances(t: Topology, op: Op) {
    !(op.InvalidateForWorker? && !OwnsAny(t, op.worker, op.boot))
  }

  lemma DeviceOpsKeep(t: Topology, op: Op)
    requires op.AddDevice? || op.RemoveDevice?
    requires KeysMatch(t) && Propose(t, op).Candidate?
    ensures Keeps(t, op, Propose(t, op).topology)
  {}

  lemma SwitchesComeAndGo(t: Topology, op: Op)
    requires op.AddSwitch? || op.RemoveSwitch?
    requires KeysMatch(t) && Propose(t, op).Candidate?
    ensures Keeps(t, op, Propose(t, op).topology)
  {}

  lemma SwitchOpsKeep(t: Topology, op: Op)
    requires op.SetSwitchState? || op.RestartSwitch?
    requires KeysMatch(t) && Propose(t, op).Candidate?
    ensures Keeps(t, op, Propose(t, op).topology)
  {}

  lemma PortsComeAndGo(t: Topology, op: Op)
    requires op.AddPort? || op.RemovePort?
    requires KeysMatch(t) && Propose(t, op).Candidate?
    ensures Keeps(t, op, Propose(t, op).topology)
  {}

  lemma PortStateKeeps(t: Topology, op: Op)
    requires op.SetPortState?
    requires KeysMatch(t) && Propose(t, op).Candidate?
    ensures Keeps(t, op, Propose(t, op).topology)
  {}

  lemma LinksComeAndGo(t: Topology, op: Op)
    requires op.AddLink? || op.RemoveLink?
    requires KeysMatch(t) && Propose(t, op).Candidate?
    ensures Keeps(t, op, Propose(t, op).topology)
  {}

  lemma LinkStateKeeps(t: Topology, op: Op)
    requires op.SetLinkState? || op.PublishCongestion?
    requires KeysMatch(t) && Propose(t, op).Candidate?
    ensures Keeps(t, op, Propose(t, op).topology)
  {}

  lemma PartitionOpsKeep(t: Topology, op: Op)
    requires op.PublishPartition? || op.RemovePartition? || op.MarkPartitionStale?
    requires KeysMatch(t) && Propose(t, op).Candidate?
    ensures Keeps(t, op, Propose(t, op).topology)
  {}

  lemma FencingKeeps(t: Topology, w: WorkerId, b: BootId)
    requires KeysMatch(t)
    ensures Keeps(t, InvalidateForWorker(w, b), ProposeInvalidate(t, w, b).topology)
  {}

  lemma ExpiryKeeps(t: Topology)
    requires KeysMatch(t)
    ensures Keeps(t, ExpireDynamicEvidence, ProposeExpire(t).topology)
  {}

  lemma RevalidationKeeps(t: Topology)
    requires KeysMatch(t)
    ensures Keeps(t, RevalidateAll, ProposeRevalidate(t).topology)
  {}

  lemma BulkKeeps(t: Topology, e: BulkEdit)
    requires KeysMatch(t)
    ensures Keeps(t, ApplyBulk(e), ProposeBulk(t, e).topology)
  {
    Staged(t.devices, e.devices, DeviceKey);
    Staged(t.switches, e.switches, SwitchKey);
    Staged(t.ports, e.ports, PortKey);
    Staged(t.links, e.links, LinkKey);
    Staged(t.partitions, e.partitions, PartitionKey);
  }

  lemma WholesaleOpsKeep(t: Topology, op: Op)
    requires op.InvalidateForWorker? || op.ExpireDynamicEvidence? || op.RevalidateAll? || op.ApplyBulk?
    requires KeysMatch(t)
    ensures Propose(t, op).Candidate? && Keeps(t, op, Propose(t, op).topology)
  {
    match op
    case InvalidateForWorker(w, b) => FencingKeeps(t, w, b);
    case ExpireDynamicEvidence => ExpiryKeeps(t);
    case RevalidateAll => RevalidationKeeps(t);
    case ApplyBulk(e) => BulkKeeps(t, e);
  }

  lemma CandidateKeeps(t: Topology, op: Op)
    requires KeysMatch(t) && Propose(t, op).Candidate?
    ensures Keeps(t, op, Propose(t, op).topology)
  {
    if op.AddDevice? || op.RemoveDevice? { DeviceOpsKeep(t, op); return; }
    if op.AddSwitch? || op.RemoveSwitch? { SwitchesComeAndGo(t, op); return; }
    if op.SetSwitchState? || op.RestartSwitch? { SwitchOpsKeep(t, op); return; }
    if op.AddPort? || op.RemovePort? { PortsComeAndGo(t, op); return; }
    if op.SetPortState? { PortStateKeeps(t, op); return; }
    if op.AddLink? || op.RemoveLink? { LinksComeAndGo(t, op); return; }
    if op.SetLinkState? || op.PublishCongestion? { LinkStateKeeps(t, op); return; }
    if op.PublishPartition? || op.RemovePartition? || op.MarkPartitionStale? { PartitionOpsKeep(t, op); return; }
    WholesaleOpsKeep(t, op);
  }

  // ----- entities -----

  datatype Entity = ASwitch(sw: SwitchId) | APort(port: PortId) | ALink(link: LinkId) | APartition(partition: PartitionId)

  /** The generation of an entity in a snapshot that holds it. */
  function GenOf(t: Topology, x: Entity): Option<Gen> {
    match x
    case ASwitch(s) => if s in t.switches then Some(t.switches[s].gen) else None
    case APort(p) => if p in t.ports then Some(t.ports[p].gen) else None
    case ALink(l) => if l in t.links then Some(t.links[l].gen) else None
    case APartition(k) => if k in t.partitions then Some(t.partitions[k].gen) else None
  }

  /** An operation that removes neither the entity nor what it hangs on. */
  predicate Spares(op: Op, x: Entity) {
    match x
    case ASwitch(s) => op != RemoveSwitch(s)
    case APort(p) => op != RemovePort(p) && op != RemoveSwitch(p.sw)
    case ALink(l) => op != RemoveLink(l) && !op.RemoveDevice? && !op.RemoveSwitch? && !op.RemovePort?
    case APartition(k) => op != RemovePartition(k)
  }

  /** The operations that rewrite whole tables. */
  predicate Wholesale(op: Op) {
    op.InvalidateForWorker? || op.ExpireDynamicEvidence? || op.RevalidateAll? || op.ApplyBulk?
  }

  lemma SwitchSparedLocally(t: Topology, op: Op, s: SwitchId)
    requires !Wholesale(op) && Propose(t, op).Candidate? && s in t.switches && Spares(op, ASwitch(s))
    ensures s in Propose(t, op).topology.switches
  {}

  lemma SwitchSpared(t: Topology, op: Op, s: SwitchId)
    requires KeysMatch(t) && Propose(t, op).Candidate? && s in t.switches && Spares(op, ASwitch(s))
    ensures s in Propose(t, op).topology.switches
  {
    if !Wholesale(op) { SwitchSparedLocally(t, op, s); return; }
    if op.ApplyBulk? { Staged(t.switches, op.edit.switches, SwitchKey); }
  }

  lemma PortSparedLocally(t: Topology, op: Op, p: PortId)
    requires !Wholesale(op) && Propose(t, op).Candidate? && p in t.ports && Spares(op, APort(p))
    ensures p in Propose(t, op).topology.ports
  {}

  lemma PortSpared(t: Topology, op: Op, p: PortId)
    requires KeysMatch(t) && Propose(t, op).Candidate? && p in t.ports && Spares(op, APort(p))
    ensures p in Propose(t, op).topology.ports
  {
    if !Wholesale(op) { PortSparedLocally(t, op, p); return; }
    if op.ApplyBulk? { Staged(t.ports, op.edit.ports, PortKey); }
  }

  lemma LinkSparedLocally(t: Topology, op: Op, l: LinkId)
    requires !Wholesale(op) && Propose(t, op).Candidate? && l in t.links && Spares(op, ALink(l))
    ensures l in Propose(t, op).topology.links
  {}

  lemma LinkSpared(t: Topology, op: Op, l: LinkId)
    requires KeysMatch(t) && Propose(t, op).Candidate? && l in t.links && Spares(op, ALink(l))
    ensures l in Propose(t, op).topology.links
  {
    if !Wholesale(op) { LinkSparedLocally(t, op, l); return; }
    if op.ApplyBulk? { Staged(t.links, op.edit.links, LinkKey); }
  }

  lemma PartitionSparedLocally(t: Topology, op: Op, k: PartitionId)
    requires !Wholesale(op) && Propose(t, op).Candidate? && k in t.partitions && Spares(op, APartition(k))
    ensures k in Propose(t, op).topology.partitions
  {}

  lemma PartitionSpared(t: Topology, op: Op, k: PartitionId)
    requires KeysMatch(t) && Propose(t, op).Candidate? && k in t.partitions && Spares(op, APartition(k))
    ensures k in Propose(t, op).topology.partitions
  {
    if !Wholesale(op) { PartitionSparedLocally(t, op, k); return; }
    if op.ApplyBulk? { Staged(t.partitions, op.edit.partitions, PartitionKey); }
  }

  lemma EntitySpared(t: Topology, op: Op, x: Entity)
    requires KeysMatch(t) && Propose(t, op).Candidate? && GenOf(t, x).Some? && Spares(op, x)
    ensures GenOf(Propose(t, op).topology, x).Some?
  {
    match x
    case ASwitch(s) => SwitchSpared(t, op, s);
    case APort(p) => PortSpared(t, op, p);
    case ALink(l) => LinkSpared(t, op, l);
    case APartition(k) => PartitionSpared(t, op, k);
  }

  /** All the laws of runs need to know about the mutators. */
  ghost predicate Sound(f: Mutators) {
    && (forall t, op :: KeysMatch(t) && f(t, op).Candidate? ==> Keeps(t, op, f(t, op).topology))
    && (forall t, op, x ::
          KeysMatch(t) && f(t, op).Candidate? && GenOf(t, x).Some? && Spares(op, x) ==> GenOf(f(t, op).topology, x).Some?)
  }

  lemma MutatorsSound()
    ensures Sound(Propose)
  {
    forall t, op | KeysMatch(t) && Propose(t, op).Candidate? ensures Keeps(t, op, Propose(t, op).topology) {
      CandidateKeeps(t, op);
    }
    forall t, op, x | KeysMatch(t) && Propose(t, op).Candidate? && GenOf(t, x).Some? && Spares(op, x)
      ensures GenOf(Propose(t, op).topology, x).Some?
    {
      EntitySpared(t, op, x);
    }
  }

  // ----- every step -----

  predicate Honest(t: Topology) {
    && (t.provenance == SYNTHETIC <==> AnyProvenance(t, SYNTHETIC))
    && (t.provenance == REAL <==> AnyProvenance(t, REAL) && !AnyProvenance(t, SYNTHETIC))
  }

  /** The parts of a candidate that committing does not touch. */
  predicate SameTables(c: Topology, s: Topology) {
    && c.devices == s.devices && c.switches == s.switches && c.ports == s.ports
    && c.links == s.links && c.partitions == s.partitions && c.topologyGen == s.topologyGen
  }

  lemma SameIntegrity(c: Topology, s: Topology)
    requires SameTables(c, s) && Integrity(c)
    ensures Integrity(s)
  {
    forall l | l in s.links ensures LinkSound(s, s.links[l]) { assert LinkSound(c, c.links[l]); }
    forall p | p in s.partitions ensures PartitionSound(s, s.partitions[p]) { assert PartitionSound(c, c.partitions[p]); }
    forall p | p in s.ports ensures PortSound(s, p) { assert PortSound(c, p); }
  }

  lemma SameProvenance(c: Topology, s: Topology)
    requires SameTables(c, s)
    ensures forall p :: AnyProvenance(c, p) <==> AnyProvenance(s, p)
  {}

  lemma CommitHonest(r: State, c: Topology)
    ensures Honest(Commit(r, c).current)
  {
    SameProvenance(c, Commit(r, c).current);
  }

  lemma CommitWellFormed(r: State, c: Topology)
    requires Valid(r.current, c) && KeysMatch(c)
    ensures WellFormed(Commit(r, c).current) && GensKept(r.current, Commit(r, c).current)
  {
    SameIntegrity(c, Commit(r, c).current);
  }

  /** A committed step yields a well-formed snapshot in which no shared entity has gone back in generation. */
  lemma StepWellFormed(f: Mutators, r: State, op: Op)
    requires Sound(f) && WellFormed(r.current)
    ensures WellFormed(Step(f, r, op).current) && GensKept(r.current, Step(f, r, op).current)
  {
    if Accepts(f, r, op) {
      assert Keeps(r.current, op, f(r.current, op).topology);
      CommitWellFormed(r, f(r.current, op).topology);
    }
  }

  /** A committed step is honest about provenance, and takes the next id and the current epoch. */
  lemma StepHonest(f: Mutators, r: State, op: Op)
    requires Accepts(f, r, op)
    ensures Honest(Step(f, r, op).current)
    ensures Step(f, r, op).current.id == r.nextSnapshotId && Step(f, r, op).current.epoch == r.epoch
  {
    CommitHonest(r, f(r.current, op).topology);
  }

  /**
   A committed step really advances the topology generation, although the 64-bit increment
   wraps, because the validator refuses a wrapped candidate. The only exception is fencing
   an incarnation that owns nothing.
   */
  lemma StepAdvances(f: Mutators, r: State, op: Op)
    requires Sound(f) && KeysMatch(r.current) && Accepts(f, r, op)
    ensures Step(f, r, op).current.topologyGen > r.current.topologyGen <==> Advances(r.current, op)
    ensures Step(f, r, op).current.topologyGen >= r.current.topologyGen
  {
    assert Keeps(r.current, op, f(r.current, op).topology);
  }

  // ----- every event -----

  lemma AfterWellFormed(f: Mutators, r: State, e: Event)
    requires Sound(f) && WellFormed(r.current)
    ensures WellFormed(After(f, r, e).current) && GensKept(r.current, After(f, r, e).current)
  {
    if e.Mutate? { StepWellFormed(f, r, e.op); }
  }

  // ----- every run -----

  /** Every snapshot of every run from a well-formed one is well formed. */
  lemma {:induction false} RunWellFormed(f: Mutators, r: State, es: seq<Event>)
    requires Sound(f) && WellFormed(r.current)
    ensures WellFormed(Run(f, r, es).current)
    ensures Run(f, r, es).current.topologyGen >= r.current.topologyGen
    decreases |es|
  {
    if es != [] {
      AfterWellFormed(f, r, es[0]);
      RunWellFormed(f, After(f, r, es[0]), es[1..]);
    }
  }

  /** A snapshot produced by a mutation is SYNTHETIC exactly when some record is, and REAL only when none is. */
  lemma {:induction false} RunHonest(f: Mutators, r: State, es: seq<Event>)
    ensures Run(f, r, es).current == r.current || Honest(Run(f, r, es).current)
    decreases |es|
  {
    if es != [] {
      if es[0].Mutate? && Accepts(f, r, es[0].op) { StepHonest(f, r, es[0].op); }
      RunHonest(f, After(f, r, es[0]), es[1..]);
    }
  }

  lemma InitialWellFormed()
    ensures WellFormed(INITIAL.current) && Honest(INITIAL.current)
  {}

  /** Every snapshot of every run of the registry from its initial state. */
  lemma RunFromStart(es: seq<Event>)
    ensures WellFormed(Run(Propose, INITIAL, es).current) && Honest(Run(Propose, INITIAL, es).current)
  {
    InitialWellFormed();
    MutatorsSound();
    RunWellFormed(Propose, INITIAL, es);
    RunHonest(Propose, INITIAL, es);
  }

  /** StepAdvances, of every step of every run of the registry. */
  lemma RegistryAdvances(es: seq<Event>, op: Op)
    requires Accepts(Propose, Run(Propose, INITIAL, es), op)
    ensures var r := Run(Propose, INITIAL, es);
      Step(Propose, r, op).current.topologyGen > r.current.topologyGen <==> Advances(r.current, op)
  {
    MutatorsSound();
    InitialWellFormed();
    RunWellFormed(Propose, INITIAL, es);
    StepAdvances(Propose, Run(Propose, INITIAL, es), op);
  }

  // ----- generations over a run -----

  /** The entity is in every snapshot of the run. */
  predicate Throughout(f: Mutators, r: State, es: seq<Event>, x: Entity)
    decreases |es|
  {
    GenOf(r.current, x).Some? && (es != [] ==> Throughout(f, After(f, r, es[0]), es[1..], x))
  }

  lemma GenKept(was: Topology, now: Topology, x: Entity)
    requires GensKept(was, now) && GenOf(was, x).Some? && GenOf(now, x).Some?
    ensures GenOf(now, x).value >= GenOf(was, x).value
  {}

  /** The generation of a continuously present entity never decreases. */
  lemma {:induction false} GenGrows(f: Mutators, r: State, es: seq<Event>, x: Entity)
    requires Sound(f) && WellFormed(r.current) && Throughout(f, r, es, x)
    ensures GenOf(Run(f, r, es).current, x).Some?
    ensures GenOf(Run(f, r, es).current, x).value >= GenOf(r.current, x).value
    decreases |es|
  {
    if es != [] {
      AfterWellFormed(f, r, es[0]);
      GenKept(r.current, After(f, r, es[0]).current, x);
      GenGrows(f, After(f, r, es[0]), es[1..], x);
    }
  }

  lemma SameGens(c: Topology, s: Topology, x: Entity)
    requires SameTables(c, s)
    ensures GenOf(c, x) == GenOf(s, x)
  {}

  lemma AfterKeeps(f: Mutators, r: State, e: Event, x: Entity)
    requires Sound(f) && KeysMatch(r.current) && GenOf(r.current, x).Some? && (e.Mutate? ==> Spares(e.op, x))
    ensures GenOf(After(f, r, e).current, x).Some?
  {
    if e.Mutate? && Accepts(f, r, e.op) {
      var c := f(r.current, e.op).topology;
      assert GenOf(c, x).Some?;
      SameGens(c, Step(f, r, e.op).current, x);
    }
  }

  /** Only the removals can make an entity disappear. */
  lemma {:induction false} SparedThroughout(f: Mutators, r: State, es: seq<Event>, x: Entity)
    requires Sound(f) && WellFormed(r.current) && GenOf(r.current, x).Some?
    requires forall e :: e in es && e.Mutate? ==> Spares(e.op, x)
    ensures Throughout(f, r, es, x)
    decreases |es|
  {
    if es != [] {
      assert es[0] in es;
      AfterWellFormed(f, r, es[0]);
      AfterKeeps(f, r, es[0], x);
      SparedThroughout(f, After(f, r, es[0]), es[1..], x);
    }
  }
}
