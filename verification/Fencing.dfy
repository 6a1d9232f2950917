/**
 What the fencing protocol is for: evidence of a worker that is gone is never
 taken for current, and what was fenced cannot be published again.
 */
module Fencing {
  import opened Wire
  import opened Fabric
  import opened Registry
  import opened RegistryLaws
  import opened Acceptance
  import opened Protocol

  // ----- unfenced evidence -----

  /** Some record of the incarnation is not waiting for revalidation. */
  predicate Unfenced(t: Topology, w: WorkerId, b: BootId) {
    || (exists k :: k in t.devices && Owned(t.devices[k].origin, w, b) && t.devices[k].state != REVALIDATION_REQUIRED)
    || (exists k :: k in t.switches && Owned(t.switches[k].origin, w, b) && t.switches[k].state != REVALIDATION_REQUIRED)
    || (exists k :: k in t.ports && Owned(t.ports[k].origin, w, b) && t.ports[k].state != REVALIDATION_REQUIRED)
    || (exists k :: k in t.links && Owned(t.links[k].origin, w, b) && t.links[k].state != REVALIDATION_REQUIRED)
    || (exists k :: k in t.partitions && Owned(t.partitions[k].origin, w, b)
                    && t.partitions[k].state != PARTITION_REVALIDATION_REQUIRED)
  }

  lemma SameUnfenced(c: Topology, s: Topology, w: WorkerId, b: BootId)
    requires SameTables(c, s)
    ensures Unfenced(c, w, b) <==> Unfenced(s, w, b)
  {}

  lemma FencedGone(t: Topology, v: WorkerId, k: BootId, w: WorkerId, b: BootId)
    requires Unfenced(ProposeInvalidate(t, v, k).topology, w, b)
    ensures Unfenced(t, w, b) && (w, b) != (v, k)
  {}

  lemma ExpiredGone(t: Topology, w: WorkerId, b: BootId)
    ensures !Unfenced(ProposeExpire(t).topology, w, b)
  {}

  lemma PublishedOwn(t: Topology, e: BulkEdit, v: WorkerId, k: BootId, w: WorkerId, b: BootId)
    requires Unfenced(ProposeBulk(t, Tagged(e, v, k)).topology, w, b)
    ensures Unfenced(t, w, b) || (w, b) == (v, k)
  {
    var g := Tagged(e, v, k);
    var c := ProposeBulk(t, g).topology;
    if (w, b) != (v, k) {
      forall i | i in c.devices && Owned(c.devices[i].origin, w, b) ensures i in t.devices && c.devices[i] == t.devices[i] {
        StagedFrom(t.devices, g.devices, DeviceKey, i);
      }
      forall i | i in c.switches && Owned(c.switches[i].origin, w, b) ensures i in t.switches && c.switches[i] == t.switches[i] {
        StagedFrom(t.switches, g.switches, SwitchKey, i);
      }
      forall i | i in c.ports && Owned(c.ports[i].origin, w, b) ensures i in t.ports && c.ports[i] == t.ports[i] {
        StagedFrom(t.ports, g.ports, PortKey, i);
      }
      forall i | i in c.links && Owned(c.links[i].origin, w, b) ensures i in t.links && c.links[i] == t.links[i] {
        StagedFrom(t.links, g.links, LinkKey, i);
      }
      forall i | i in c.partitions && Owned(c.partitions[i].origin, w, b) ensures i in t.partitions && c.partitions[i] == t.partitions[i] {
        StagedFrom(t.partitions, g.partitions, PartitionKey, i);
      }
    }
  }

  // ----- one step -----

  type Evidence = (Topology, WorkerId, BootId) -> bool

  /** What safety needs of the registry, of a notion of unfenced evidence, and of the states it is asked in. */
  ghost predicate Fences(g: Registrar, u: Evidence, fit: State -> bool) {
    && (forall r, w, b, v, k ::
          fit(r) && u(g(r, Mutate(InvalidateForWorker(w, b))).current, v, k) ==> u(r.current, v, k) && (v, k) != (w, b))
    && (forall r, e, w, b, v, k ::
          u(g(r, Mutate(ApplyBulk(Tagged(e, w, b)))).current, v, k) ==> u(r.current, v, k) || (v, k) == (w, b))
    && (forall r, v, k :: fit(r) ==> !u(g(r, Mutate(ExpireDynamicEvidence)).current, v, k))
    && (forall r, epoch :: g(r, SetEpoch(epoch)).current == r.current)
  }

  /** Whatever is not waiting for revalidation has a live connection holding exactly its incarnation. */
  ghost predicate Safe(u: Evidence, s: Coord) {
    forall w, b :: u(s.reg.current, w, b) ==> exists c :: Holds(s, c, (w, b))
  }

  lemma PublishSafe(g: Registrar, u: Evidence, fit: State -> bool, s: Coord, c: ConnId, epoch: U64, w: WorkerId, b: BootId, e: BulkEdit)
    requires Fences(g, u, fit) && Safe(u, s)
    ensures Safe(u, Do(g, s, Publish(c, epoch, w, b, e)))
  {
    var n := Do(g, s, Publish(c, epoch, w, b, e));
    forall d, inc | Holds(s, d, inc) ensures Holds(n, d, inc) {}
    forall v: WorkerId, k: BootId | u(n.reg.current, v, k) ensures exists d :: Holds(n, d, (v, k)) {
      assert u(s.reg.current, v, k) || ((v, k) == (w, b) && Holds(s, c, (w, b)));
      var d: ConnId :| Holds(s, d, (v, k));
      assert Holds(n, d, (v, k));
    }
  }

  lemma CloseSafe(g: Registrar, u: Evidence, fit: State -> bool, s: Coord, c: ConnId)
    requires Fences(g, u, fit) && Safe(u, s) && fit(s.reg)
    ensures Safe(u, Do(g, s, Close(c)))
  {
    var n := Do(g, s, Close(c));
    forall v: WorkerId, k: BootId | u(n.reg.current, v, k) ensures exists d :: Holds(n, d, (v, k)) {
      assert u(s.reg.current, v, k) && !Holds(s, c, (v, k));
      var d: ConnId :| Holds(s, d, (v, k));
      assert d != c && n.conns == s.conns - {c};
      assert Holds(n, d, (v, k));
    }
  }

  /** A connection that already holds an incarnation does not take another. */
  predicate RegistersOnce(s: Coord, e: Action) {
    e.Register? && e.c in s.conns && Admits(s, e.epoch, e.worker, e.boot) ==> s.conns[e.c].None?
  }

  lemma StepSafe(g: Registrar, u: Evidence, fit: State -> bool, s: Coord, e: Action)
    requires Fences(g, u, fit) && fit(s.reg) && RegistersOnce(s, e)
    requires !s.restoring ==> Safe(u, s)
    ensures !Do(g, s, e).restoring ==> Safe(u, Do(g, s, e))
  {
    if s.restoring && !e.RestoreExpiry? { return; }
    match e
    case Publish(c, epoch, w, b, edit) => PublishSafe(g, u, fit, s, c, epoch, w, b, edit);
    case Close(c) => CloseSafe(g, u, fit, s, c);
    case RestoreExpiry =>
    case RestoreRecords(_) =>
    case _ =>
      var n := Do(g, s, e);
      assert n.reg.current == s.reg.current;
      forall d, inc | Holds(s, d, inc) ensures Holds(n, d, inc) {}
  }

  // ----- exactly when a step keeps safety -----

  /** A connection that takes another incarnation keeps safety exactly when its first one left nothing unfenced. */
  lemma ReRegistrationExact(g: Registrar, u: Evidence, s: Coord, e: Action, inc: Incarnation)
    requires Safe(u, s) && BootInvariant(s) && e.Register? && Holds(s, e.c, inc) && Admits(s, e.epoch, e.worker, e.boot)
    ensures Safe(u, Do(g, s, e)) <==> !u(s.reg.current, inc.0, inc.1)
  {
    var n := Do(g, s, e);
    NewcomerUnique(s, e.worker, e.boot, e.c);
    assert n.reg == s.reg && n.conns == s.conns[e.c := Some((e.worker, e.boot))];
    forall d: ConnId ensures !Holds(n, d, inc) { assert d != e.c ==> (Holds(n, d, inc) <==> Holds(s, d, inc)); }
    if !u(s.reg.current, inc.0, inc.1) {
      forall v: WorkerId, k: BootId | u(n.reg.current, v, k) ensures exists d :: Holds(n, d, (v, k)) {
        var d: ConnId :| Holds(s, d, (v, k));
        assert d != e.c && Holds(n, d, (v, k));
      }
    }
  }

  /** A refused fencing keeps safety exactly when there was nothing to fence. */
  lemma RefusedFencingExact(g: Registrar, u: Evidence, s: Coord, c: ConnId, inc: Incarnation)
    requires Safe(u, s) && NoTwins(s) && Holds(s, c, inc)
    requires g(s.reg, Mutate(InvalidateForWorker(inc.0, inc.1))) == s.reg
    ensures Safe(u, Do(g, s, Close(c))) <==> !u(s.reg.current, inc.0, inc.1)
  {
    var n := Do(g, s, Close(c));
    assert n.reg == s.reg && n.conns == s.conns - {c};
    forall d: ConnId ensures !Holds(n, d, inc) { assert d != c ==> (Holds(n, d, inc) <==> Holds(s, d, inc)); }
    if !u(s.reg.current, inc.0, inc.1) {
      forall v: WorkerId, k: BootId | u(n.reg.current, v, k) ensures exists d :: Holds(n, d, (v, k)) {
        var d: ConnId :| Holds(s, d, (v, k));
        assert d != c && Holds(n, d, (v, k));
      }
    }
  }

  // ----- every run -----

  /** A run of fit registry states in which connections register once. */
  predicate Restrained(g: Registrar, fit: State -> bool, s: Coord, es: seq<Action>)
    decreases |es|
  {
    fit(s.reg) && (es != [] ==> RegistersOnce(s, es[0]) && Restrained(g, fit, Do(g, s, es[0]), es[1..]))
  }

  lemma {:induction false} RunSafe(g: Registrar, u: Evidence, fit: State -> bool, s: Coord, es: seq<Action>)
    requires Fences(g, u, fit) && Restrained(g, fit, s, es)
    requires !s.restoring ==> Safe(u, s)
    ensures !DoAll(g, s, es).restoring ==> Safe(u, DoAll(g, s, es))
    decreases |es|
  {
    if es != [] {
      StepSafe(g, u, fit, s, es[0]);
      RunSafe(g, u, fit, Do(g, s, es[0]), es[1..]);
    }
  }

  // ----- the registry fences -----

  /** Every generation can still advance. */
  predicate Advanceable(t: Topology) {
    && t.topologyGen < U64_MAX
    && (forall k :: k in t.switches ==> t.switches[k].gen < U64_MAX)
    && (forall k :: k in t.ports ==> t.ports[k].gen < U64_MAX)
    && (forall k :: k in t.links ==> t.links[k].gen < U64_MAX)
    && (forall k :: k in t.partitions ==> t.partitions[k].gen < U64_MAX)
  }

  predicate Fit(r: State) {
    WellFormed(r.current) && Advanceable(r.current)
  }

  lemma SettledUnfenced(r: State, p: Proposal, w: WorkerId, b: BootId)
    requires Unfenced(Settle(r, p).current, w, b)
    ensures if Passes(r, p) then Unfenced(p.topology, w, b) else Unfenced(r.current, w, b)
  {
    if Passes(r, p) { SameUnfenced(p.topology, Settle(r, p).current, w, b); }
  }

  lemma AllBumpable(t: Topology, w: WorkerId, b: BootId)
    requires Advanceable(t)
    ensures Bumpable(t, w, b) && t.topologyGen < U64_MAX
  {}

  lemma FencingCommits(r: State, w: WorkerId, b: BootId)
    requires Fit(r)
    ensures Passes(r, ProposeInvalidate(r.current, w, b))
  {
    AllBumpable(r.current, w, b);
    InvalidateExact(r, w, b);
  }

  lemma InvalidationFences(r: State, w: WorkerId, b: BootId, v: WorkerId, k: BootId)
    requires Fit(r) && Unfenced(Settle(r, ProposeInvalidate(r.current, w, b)).current, v, k)
    ensures Unfenced(r.current, v, k) && (v, k) != (w, b)
  {
    FencingCommits(r, w, b);
    SettledUnfenced(r, ProposeInvalidate(r.current, w, b), v, k);
    FencedGone(r.current, w, b, v, k);
  }

  lemma PublicationFences(r: State, e: BulkEdit, w: WorkerId, b: BootId, v: WorkerId, k: BootId)
    requires Unfenced(Settle(r, ProposeBulk(r.current, Tagged(e, w, b))).current, v, k)
    ensures Unfenced(r.current, v, k) || (v, k) == (w, b)
  {
    var p := ProposeBulk(r.current, Tagged(e, w, b));
    SettledUnfenced(r, p, v, k);
    if Passes(r, p) { PublishedOwn(r.current, e, w, b, v, k); }
  }

  lemma ExpiryFences(r: State, v: WorkerId, k: BootId)
    requires Fit(r)
    ensures !Unfenced(Settle(r, ProposeExpire(r.current)).current, v, k)
  {
    ExpireExact(r);
    if Unfenced(Settle(r, ProposeExpire(r.current)).current, v, k) {
      SettledUnfenced(r, ProposeExpire(r.current), v, k);
      ExpiredGone(r.current, v, k);
      assert false;
    }
  }

  /** The mutators the protocol uses are the registry's own. */
  ghost predicate Faithful(f: Mutators) {
    && (forall t, w, b :: f(t, InvalidateForWorker(w, b)) == ProposeInvalidate(t, w, b))
    && (forall t :: f(t, ExpireDynamicEvidence) == ProposeExpire(t))
    && (forall t, e :: f(t, ApplyBulk(e)) == ProposeBulk(t, e))
  }

  lemma InvalidateDispatch(t: Topology, w: WorkerId, b: BootId)
    ensures Propose(t, InvalidateForWorker(w, b)) == ProposeInvalidate(t, w, b)
  {}

  lemma BulkDispatch(t: Topology, e: BulkEdit)
    ensures Propose(t, ApplyBulk(e)) == ProposeBulk(t, e)
  {}

  lemma ExpireDispatch(t: Topology)
    ensures Propose(t, ExpireDynamicEvidence) == ProposeExpire(t)
  {}

  lemma RegistryFaithful()
    ensures Faithful(Propose)
  {
    forall t, w, b ensures Propose(t, InvalidateForWorker(w, b)) == ProposeInvalidate(t, w, b) { InvalidateDispatch(t, w, b); }
    forall t, e ensures Propose(t, ApplyBulk(e)) == ProposeBulk(t, e) { BulkDispatch(t, e); }
    forall t ensures Propose(t, ExpireDynamicEvidence) == ProposeExpire(t) { ExpireDispatch(t); }
  }

  lemma RegistryFences(f: Mutators)
    requires Faithful(f)
    ensures Fences(Evolve(f), Unfenced, Fit)
  {
    var g := Evolve(f);
    forall r, w, b, v, k | Fit(r) && Unfenced(g(r, Mutate(InvalidateForWorker(w, b))).current, v, k)
      ensures Unfenced(r.current, v, k) && (v, k) != (w, b)
    {
      InvalidationFences(r, w, b, v, k);
    }
    forall r, e, w, b, v, k | Unfenced(g(r, Mutate(ApplyBulk(Tagged(e, w, b)))).current, v, k)
      ensures Unfenced(r.current, v, k) || (v, k) == (w, b)
    {
      PublicationFences(r, e, w, b, v, k);
    }
    forall r, v, k | Fit(r) ensures !Unfenced(g(r, Mutate(ExpireDynamicEvidence)).current, v, k) {
      ExpiryFences(r, v, k);
    }
  }

  predicate Low(r: State) {
    Advanceable(r.current)
  }

  lemma {:induction false} FitThroughout(f: Mutators, s: Coord, es: seq<Action>)
    requires Sound(f) && WellFormed(s.reg.current) && Restrained(Evolve(f), Low, s, es)
    ensures Restrained(Evolve(f), Fit, s, es)
    decreases |es|
  {
    if es != [] {
      if RegistryEvent(s, es[0]).Some? { AfterWellFormed(f, s.reg, RegistryEvent(s, es[0]).value); }
      FitThroughout(f, Do(Evolve(f), s, es[0]), es[1..]);
    }
  }

  lemma SafeThroughout(f: Mutators, s: Coord, es: seq<Action>)
    requires Sound(f) && Faithful(f) && WellFormed(s.reg.current) && Restrained(Evolve(f), Low, s, es)
    requires !s.restoring ==> Safe(Unfenced, s)
    ensures !DoAll(Evolve(f), s, es).restoring ==> Safe(Unfenced, DoAll(Evolve(f), s, es))
  {
    FitThroughout(f, s, es);
    RegistryFences(f);
    RunSafe(Evolve(f), Unfenced, Fit, s, es);
  }

  lemma StartSafe()
    ensures WellFormed(START.reg.current) && Safe(Unfenced, START)
  {}

  /**
   Coordinator safety: after any interleaving of registrations, publications, closes,
   restores and epoch changes in which connections register once and no generation reaches
   the last one, outside a restore, every worker-tagged record that is not waiting for
   revalidation has a live connection holding exactly its incarnation.
   */
  lemma CoordinatorSafety(es: seq<Action>)
    requires Restrained(Evolve(Propose), Low, START, es)
    ensures var s := DoAll(Evolve(Propose), START, es); !s.restoring ==> Safe(Unfenced, s)
  {
    MutatorsSound();
    RegistryFaithful();
    StartSafe();
    SafeThroughout(Propose, START, es);
  }

  // ----- replay -----

  predicate OwnedBy(t: Topology, x: Entity, w: WorkerId, b: BootId) {
    match x
    case ASwitch(s) => s in t.switches && Owned(t.switches[s].origin, w, b)
    case APort(p) => p in t.ports && Owned(t.ports[p].origin, w, b)
    case ALink(l) => l in t.links && Owned(t.links[l].origin, w, b)
    case APartition(k) => k in t.partitions && Owned(t.partitions[k].origin, w, b)
  }

  /** The publication's last word on the entity is a record at this generation. */
  ghost predicate Carries(e: BulkEdit, x: Entity, g: Gen) {
    match x
    case ASwitch(s) => exists i: nat :: LastUnder(e.switches, SwitchKey, i) && e.switches[i].id == s && e.switches[i].gen == g
    case APort(p) => exists i: nat :: LastUnder(e.ports, PortKey, i) && e.ports[i].id == p && e.ports[i].gen == g
    case ALink(l) => exists i: nat :: LastUnder(e.links, LinkKey, i) && e.links[i].id == l && e.links[i].gen == g
    case APartition(k) => exists i: nat :: LastUnder(e.partitions, PartitionKey, i) && e.partitions[i].id == k && e.partitions[i].gen == g
  }

  lemma CarriedGen(t: Topology, e: BulkEdit, x: Entity, g: Gen)
    requires Carries(e, x, g)
    ensures GenOf(ProposeBulk(t, e).topology, x) == Some(g)
  {
    match x
    case ASwitch(s) =>
      var i: nat :| LastUnder(e.switches, SwitchKey, i) && e.switches[i].id == s && e.switches[i].gen == g;
      StagedLast(t.switches, e.switches, SwitchKey, i);
    case APort(p) =>
      var i: nat :| LastUnder(e.ports, PortKey, i) && e.ports[i].id == p && e.ports[i].gen == g;
      StagedLast(t.ports, e.ports, PortKey, i);
    case ALink(l) =>
      var i: nat :| LastUnder(e.links, LinkKey, i) && e.links[i].id == l && e.links[i].gen == g;
      StagedLast(t.links, e.links, LinkKey, i);
    case APartition(k) =>
      var i: nat :| LastUnder(e.partitions, PartitionKey, i) && e.partitions[i].id == k && e.partitions[i].gen == g;
      StagedLast(t.partitions, e.partitions, PartitionKey, i);
  }

  lemma AdmittedGen(r: State, p: Proposal, x: Entity)
    requires Passes(r, p) && GenOf(r.current, x).Some? && GenOf(p.topology, x).Some?
    ensures GenOf(p.topology, x).value >= GenOf(r.current, x).value
  {}

  lemma BehindRejected(r: State, e: BulkEdit, x: Entity, g: Gen)
    requires Carries(e, x, g) && GenOf(r.current, x).Some? && g < GenOf(r.current, x).value
    ensures !Passes(r, ProposeBulk(r.current, e))
  {
    CarriedGen(r.current, e, x, g);
    if Passes(r, ProposeBulk(r.current, e)) {
      AdmittedGen(r, ProposeBulk(r.current, e), x);
      assert false;
    }
  }

  lemma SettledGen(r: State, p: Proposal, x: Entity)
    requires Passes(r, p)
    ensures GenOf(Settle(r, p).current, x) == GenOf(p.topology, x)
  {
    SameGens(p.topology, Settle(r, p).current, x);
  }

  lemma FencedGen(t: Topology, w: WorkerId, b: BootId, x: Entity)
    requires OwnedBy(t, x, w, b)
    ensures GenOf(t, x).Some? && GenOf(ProposeInvalidate(t, w, b).topology, x) == Some(Next(GenOf(t, x).value))
  {}

  /** Past the fence and everything after it, the entity is above its generation before the fence. */
  lemma FencedBeyond(f: Mutators, r: State, w: WorkerId, b: BootId, x: Entity, es: seq<Event>)
    requires Sound(f) && Faithful(f) && WellFormed(r.current) && Accepts(f, r, InvalidateForWorker(w, b)) && OwnedBy(r.current, x, w, b)
    requires Throughout(f, Step(f, r, InvalidateForWorker(w, b)), es, x)
    ensures var s := Run(f, Step(f, r, InvalidateForWorker(w, b)), es);
      GenOf(r.current, x).Some? && GenOf(s.current, x).Some? && GenOf(s.current, x).value > GenOf(r.current, x).value
  {
    var op := InvalidateForWorker(w, b);
    FencedGen(r.current, w, b, x);
    AdmittedGen(r, f(r.current, op), x);
    SettledGen(r, f(r.current, op), x);
    StepWellFormed(f, r, op);
    GenGrows(f, Step(f, r, op), es, x);
  }

  /**
   Replay fencing: once an incarnation is fenced, a publication that carries one of its
   switches, ports, links or partitions, still present, at or below the generation it had
   before the fence is rejected as a whole and leaves the registry as it was.
   */
  lemma ReplayFenced(f: Mutators, r: State, w: WorkerId, b: BootId, x: Entity, es: seq<Event>, e: BulkEdit, g: Gen)
    requires Sound(f) && Faithful(f) && WellFormed(r.current) && Accepts(f, r, InvalidateForWorker(w, b)) && OwnedBy(r.current, x, w, b)
    requires Throughout(f, Step(f, r, InvalidateForWorker(w, b)), es, x)
    requires Carries(e, x, g) && GenOf(r.current, x).Some? && g <= GenOf(r.current, x).value
    ensures var s := Run(f, Step(f, r, InvalidateForWorker(w, b)), es);
      !Accepts(f, s, ApplyBulk(e)) && Step(f, s, ApplyBulk(e)) == s
  {
    FencedBeyond(f, r, w, b, x, es);
    BehindRejected(Run(f, Step(f, r, InvalidateForWorker(w, b)), es), e, x, g);
  }

  lemma TaggedCarries(e: BulkEdit, w: WorkerId, b: BootId, x: Entity, g: Gen)
    requires Carries(e, x, g)
    ensures Carries(Tagged(e, w, b), x, g)
  {
    var n := Tagged(e, w, b);
    match x
    case ASwitch(s) =>
      var i: nat :| LastUnder(e.switches, SwitchKey, i) && e.switches[i].id == s && e.switches[i].gen == g;
      assert LastUnder(n.switches, SwitchKey, i) && n.switches[i].id == s && n.switches[i].gen == g;
    case APort(p) =>
      var i: nat :| LastUnder(e.ports, PortKey, i) && e.ports[i].id == p && e.ports[i].gen == g;
      assert LastUnder(n.ports, PortKey, i) && n.ports[i].id == p && n.ports[i].gen == g;
    case ALink(l) =>
      var i: nat :| LastUnder(e.links, LinkKey, i) && e.links[i].id == l && e.links[i].gen == g;
      assert LastUnder(n.links, LinkKey, i) && n.links[i].id == l && n.links[i].gen == g;
    case APartition(k) =>
      var i: nat :| LastUnder(e.partitions, PartitionKey, i) && e.partitions[i].id == k && e.partitions[i].gen == g;
      assert LastUnder(n.partitions, PartitionKey, i) && n.partitions[i].id == k && n.partitions[i].gen == g;
  }

  lemma ClosedRegistry(f: Mutators, s: Coord, c: ConnId, w: WorkerId, b: BootId)
    requires Holds(s, c, (w, b))
    ensures Do(Evolve(f), s, Close(c)).reg == Step(f, s.reg, InvalidateForWorker(w, b))
  {}

  lemma IdlePublication(f: Mutators, s: Coord, p: Action)
    requires p.Publish? && Step(f, s.reg, ApplyBulk(Tagged(p.edit, p.worker, p.boot))) == s.reg
    ensures Do(Evolve(f), s, p).reg == s.reg
  {}

  /**
   The same on the wire: the connection closes, any steps follow, and no connection can
   publish its fenced records back.
   */
  lemma PublicationFenced(f: Mutators, s: Coord, c: ConnId, w: WorkerId, b: BootId, x: Entity,
                          closed: Coord, es: seq<Action>, end: Coord, p: Action, g: Gen)
    requires Sound(f) && Faithful(f) && WellFormed(s.reg.current)
    requires Holds(s, c, (w, b)) && Accepts(f, s.reg, InvalidateForWorker(w, b)) && OwnedBy(s.reg.current, x, w, b)
    requires closed == Do(Evolve(f), s, Close(c)) && end == DoAll(Evolve(f), closed, es)
    requires Throughout(f, closed.reg, RegistryEvents(Evolve(f), closed, es), x)
    requires p.Publish? && Carries(p.edit, x, g) && GenOf(s.reg.current, x).Some? && g <= GenOf(s.reg.current, x).value
    ensures Do(Evolve(f), end, p).reg == end.reg
  {
    ClosedRegistry(f, s, c, w, b);
    RegistryRun(f, closed, es);
    TaggedCarries(p.edit, p.worker, p.boot, x, g);
    ReplayFenced(f, s.reg, w, b, x, RegistryEvents(Evolve(f), closed, es), Tagged(p.edit, p.worker, p.boot), g);
    IdlePublication(f, end, p);
  }

  // ----- the instances at the registry's own mutators -----

  /** ReplayFenced, of the registry. */
  lemma RegistryReplayFenced(r: State, w: WorkerId, b: BootId, x: Entity, es: seq<Event>, e: BulkEdit, g: Gen)
    requires WellFormed(r.current) && Accepts(Propose, r, InvalidateForWorker(w, b)) && OwnedBy(r.current, x, w, b)
    requires Throughout(Propose, Step(Propose, r, InvalidateForWorker(w, b)), es, x)
    requires Carries(e, x, g) && GenOf(r.current, x).Some? && g <= GenOf(r.current, x).value
    ensures var s := Run(Propose, Step(Propose, r, InvalidateForWorker(w, b)), es);
      !Accepts(Propose, s, ApplyBulk(e)) && Step(Propose, s, ApplyBulk(e)) == s
  {
    MutatorsSound();
    RegistryFaithful();
    ReplayFenced(Propose, r, w, b, x, es, e, g);
  }

  /** PublicationFenced, of the coordinator. */
  lemma CoordinatorReplayFenced(s: Coord, c: ConnId, w: WorkerId, b: BootId, x: Entity,
                                closed: Coord, es: seq<Action>, end: Coord, p: Action, g: Gen)
    requires WellFormed(s.reg.current)
    requires Holds(s, c, (w, b)) && Accepts(Propose, s.reg, InvalidateForWorker(w, b)) && OwnedBy(s.reg.current, x, w, b)
    requires closed == Do(Evolve(Propose), s, Close(c)) && end == DoAll(Evolve(Propose), closed, es)
    requires Throughout(Propose, closed.reg, RegistryEvents(Evolve(Propose), closed, es), x)
    requires p.Publish? && Carries(p.edit, x, g) && GenOf(s.reg.current, x).Some? && g <= GenOf(s.reg.current, x).value
    ensures Do(Evolve(Propose), end, p).reg == end.reg
  {
    MutatorsSound();
    RegistryFaithful();
    PublicationFenced(Propose, s, c, w, b, x, closed, es, end, p, g);
  }
}
