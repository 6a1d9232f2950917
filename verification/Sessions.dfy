/**
 The steps of the protocol as contracts: which steps are ignored, what a step that is not
 leaves, and what every committed publication of a run goes back to.
 */
module Sessions {
  import opened Wire
  import opened Fabric
  import opened Registry
  import opened RegistryLaws
  import opened Mutations
  import opened Protocol

  // ----- ignored steps -----

  /** A step that changes nothing: an old epoch or boot, a duplicate, or a connection that may not do this. */
  predicate Ignored(s: Coord, e: Action) {
    match e
    case Accept(c) => c in s.conns || |s.conns| >= 256
    case Register(c, epoch, w, b) =>
      || c !in s.conns || epoch < s.reg.epoch
      || (w in s.maxBoot && b < s.maxBoot[w]) || (w in s.activeBoot && b == s.activeBoot[w])
    case Publish(c, epoch, w, b, _) => c !in s.conns || s.conns[c] != Some((w, b)) || epoch != s.reg.epoch
    case Close(c) => c !in s.conns
    case _ => false
  }

  /** An ignored step leaves the registry, the boot tables and the connections as they were, whatever the registrar. */
  lemma IgnoredChangesNothing(g: Registrar, s: Coord, e: Action)
    requires Ignored(s, e)
    ensures Do(g, s, e) == s
  {}

  // ----- steps that are taken -----

  /** The records of an edit, each marked as reported by the incarnation and otherwise as it was. */
  predicate Marked(e: BulkEdit, w: WorkerId, b: BootId, m: BulkEdit) {
    && |m.devices| == |e.devices| && |m.switches| == |e.switches| && |m.ports| == |e.ports|
    && |m.links| == |e.links| && |m.partitions| == |e.partitions|
    && (forall i :: 0 <= i < |e.devices| ==>
          m.devices[i] == e.devices[i].(origin := e.devices[i].origin.(workerKnown := true, worker := w, workerBoot := b)))
    && (forall i :: 0 <= i < |e.switches| ==>
          m.switches[i] == e.switches[i].(origin := e.switches[i].origin.(workerKnown := true, worker := w, workerBoot := b)))
    && (forall i :: 0 <= i < |e.ports| ==>
          m.ports[i] == e.ports[i].(origin := e.ports[i].origin.(workerKnown := true, worker := w, workerBoot := b)))
    && (forall i :: 0 <= i < |e.links| ==>
          m.links[i] == e.links[i].(origin := e.links[i].origin.(workerKnown := true, worker := w, workerBoot := b)))
    && (forall i :: 0 <= i < |e.partitions| ==>
          m.partitions[i] == e.partitions[i].(origin := e.partitions[i].origin.(workerKnown := true, worker := w, workerBoot := b)))
  }

  lemma TaggedIsMarked(e: BulkEdit, w: WorkerId, b: BootId)
    ensures Marked(e, w, b, Tagged(e, w, b))
  {}

  /** The connection is the incarnation, whose boot is the worker's highest and its active one. */
  ghost predicate Registered(s: Coord, c: ConnId, w: WorkerId, b: BootId, n: Coord) {
    && Put(s.conns, n.conns, c, Some((w, b))) && Put(s.activeBoot, n.activeBoot, w, b) && Put(s.maxBoot, n.maxBoot, w, b)
    && n.reg == s.reg && n.restoring == s.restoring
  }

  /** The connection is gone, its incarnation is no longer active and has been fenced, and its highest boot stands. */
  ghost predicate Closed(g: Registrar, s: Coord, c: ConnId, n: Coord) {
    && Gone(s.conns, n.conns, c) && n.maxBoot == s.maxBoot && n.restoring == s.restoring
    && match s.conns[c]
       case None => n.reg == s.reg && n.activeBoot == s.activeBoot
       case Some((w, b)) =>
         && n.reg == g(s.reg, Mutate(InvalidateForWorker(w, b)))
         && if w in s.activeBoot && s.activeBoot[w] == b then Gone(s.activeBoot, n.activeBoot, w) else n.activeBoot == s.activeBoot
  }

  /** What a step that is not ignored leaves. */
  ghost predicate Took(g: Registrar, s: Coord, e: Action, n: Coord) {
    match e
    case Accept(c) => c !in s.conns && Put(s.conns, n.conns, c, None) && n == s.(conns := n.conns)
    case Register(c, _, w, b) => Registered(s, c, w, b, n)
    case Publish(_, _, w, b, edit) =>
      exists m :: Marked(edit, w, b, m) && n == s.(reg := g(s.reg, Mutate(ApplyBulk(m))))
    case Close(c) => c in s.conns && Closed(g, s, c, n)
    case RestoreRecords(edit) => n == s.(reg := g(s.reg, Mutate(ApplyBulk(edit))), restoring := true)
    case RestoreExpiry => n == s.(reg := g(s.reg, Mutate(ExpireDynamicEvidence)), restoring := false)
    case NewEpoch(epoch) => n == s.(reg := g(s.reg, SetEpoch(epoch)))
  }

  /** A step is either ignored or leaves what its contract says. */
  lemma StepTaken(g: Registrar, s: Coord, e: Action)
    requires BootInvariant(s) && !Ignored(s, e)
    ensures Took(g, s, e, Do(g, s, e))
  {
    var n := Do(g, s, e);
    match e
    case Publish(_, _, w, b, edit) =>
      TaggedIsMarked(edit, w, b);
      assert n == s.(reg := g(s.reg, Mutate(ApplyBulk(Tagged(edit, w, b)))));
    case Register(c, _, w, b) =>
      assert n.maxBoot == if w !in s.maxBoot || b > s.maxBoot[w] then s.maxBoot[w := b] else s.maxBoot;
    case Close(c) =>
      assert Gone(s.conns, n.conns, c);
    case _ =>
  }

  lemma MarkedOnce(e: BulkEdit, w: WorkerId, b: BootId, m: BulkEdit, k: BulkEdit)
    requires Marked(e, w, b, m) && Marked(e, w, b, k)
    ensures m == k
  {
    assert m.devices == k.devices && m.switches == k.switches && m.ports == k.ports;
    assert m.links == k.links && m.partitions == k.partitions;
  }

  /** The contract of a step determines the state it leaves. */
  lemma TookDetermines(g: Registrar, s: Coord, e: Action, n: Coord, m: Coord)
    requires Took(g, s, e, n) && Took(g, s, e, m)
    ensures n == m
  {
    match e
    case Accept(c) => PutOnce(s.conns, n.conns, m.conns, c);
    case Register(c, _, w, b) =>
      PutOnce(s.conns, n.conns, m.conns, c);
      PutOnce(s.activeBoot, n.activeBoot, m.activeBoot, w);
      PutOnce(s.maxBoot, n.maxBoot, m.maxBoot, w);
    case Publish(_, _, w, b, edit) =>
      var x :| Marked(edit, w, b, x) && n == s.(reg := g(s.reg, Mutate(ApplyBulk(x))));
      var y :| Marked(edit, w, b, y) && m == s.(reg := g(s.reg, Mutate(ApplyBulk(y))));
      MarkedOnce(edit, w, b, x, y);
    case Close(c) =>
      GoneOnce(s.conns, n.conns, m.conns, c);
      if s.conns[c].Some? && s.conns[c].value.0 in s.activeBoot && s.activeBoot[s.conns[c].value.0] == s.conns[c].value.1 {
        GoneOnce(s.activeBoot, n.activeBoot, m.activeBoot, s.conns[c].value.0);
      }
    case _ =>
  }

  // ----- over whole runs -----

  lemma {:induction false} DoAllSnoc(g: Registrar, s: Coord, es: seq<Action>, e: Action)
    ensures DoAll(g, s, es + [e]) == Do(g, DoAll(g, s, es), e)
    decreases |es|
  {
    if es == [] {
      assert DoAll(g, s, [e]) == DoAll(g, Do(g, s, e), []);
    } else {
      assert (es + [e])[1..] == es[1..] + [e];
      DoAllSnoc(g, Do(g, s, es[0]), es[1..], e);
    }
  }

  /** The step is an admitted registration of the incarnation on this connection. */
  predicate Registers(s: Coord, e: Action, c: ConnId, w: WorkerId, b: BootId) {
    e.Register? && e == Register(c, e.epoch, w, b) && !Ignored(s, e)
  }

  /** Some step of the run registered the incarnation on this connection. */
  ghost predicate RegisteredIn(g: Registrar, s: Coord, es: seq<Action>, c: ConnId, w: WorkerId, b: BootId)
    decreases |es|
  {
    es != [] && (Registers(s, es[0], c, w, b) || RegisteredIn(g, Do(g, s, es[0]), es[1..], c, w, b))
  }

  lemma HeldBefore(g: Registrar, s: Coord, e: Action, c: ConnId, w: WorkerId, b: BootId)
    requires Holds(Do(g, s, e), c, (w, b))
    ensures Holds(s, c, (w, b)) || Registers(s, e, c, w, b)
  {}

  lemma {:induction false} HolderRegistered(g: Registrar, s: Coord, es: seq<Action>, c: ConnId, w: WorkerId, b: BootId)
    requires Holds(DoAll(g, s, es), c, (w, b))
    ensures Holds(s, c, (w, b)) || RegisteredIn(g, s, es, c, w, b)
    decreases |es|
  {
    if es != [] {
      HolderRegistered(g, Do(g, s, es[0]), es[1..], c, w, b);
      if Holds(Do(g, s, es[0]), c, (w, b)) { HeldBefore(g, s, es[0], c, w, b); }
    }
  }

  /** The snapshot a publication commits: under the message's own epoch, holding every record it ends with. */
  ghost predicate Landed(r: State, p: Action, n: State)
    requires p.Publish?
  {
    && n.current.epoch == r.epoch == p.epoch && n.current.id == r.nextSnapshotId
    && exists m :: Marked(p.edit, p.worker, p.boot, m) && BulkApplied(TablesOf(r.current), m, TablesOf(n.current))
  }

  lemma PublicationLands(s: Coord, p: Action)
    requires p.Publish? && KeysMatch(s.reg.current)
    requires Do(Evolve(Propose), s, p).reg != s.reg
    ensures Holds(s, p.c, (p.worker, p.boot)) && Landed(s.reg, p, Do(Evolve(Propose), s, p).reg)
  {
    if Ignored(s, p) { IgnoredChangesNothing(Evolve(Propose), s, p); }
    var m := Tagged(p.edit, p.worker, p.boot);
    TaggedIsMarked(p.edit, p.worker, p.boot);
    assert Do(Evolve(Propose), s, p).reg == Step(Propose, s.reg, ApplyBulk(m));
    StepLeaves(s.reg, ApplyBulk(m));
  }

  /**
   In every run from the start: a publication that changed the registry carried the epoch of the very
   snapshot it committed, was made under the incarnation its connection holds, which an earlier
   admitted registration on that connection put there, and its records are in that snapshot, marked.
   */
  lemma PublicationsCurrent(es: seq<Action>, p: Action)
    requires p.Publish?
    requires DoAll(Evolve(Propose), START, es + [p]).reg != DoAll(Evolve(Propose), START, es).reg
    ensures Landed(DoAll(Evolve(Propose), START, es).reg, p, DoAll(Evolve(Propose), START, es + [p]).reg)
    ensures Holds(DoAll(Evolve(Propose), START, es), p.c, (p.worker, p.boot))
    ensures RegisteredIn(Evolve(Propose), START, es, p.c, p.worker, p.boot)
  {
    var s := DoAll(Evolve(Propose), START, es);
    DoAllSnoc(Evolve(Propose), START, es, p);
    RegistryRun(Propose, START, es);
    RunFromStart(RegistryEvents(Evolve(Propose), START, es));
    PublicationLands(s, p);
    HolderRegistered(Evolve(Propose), START, es, p.c, p.worker, p.boot);
  }
}
