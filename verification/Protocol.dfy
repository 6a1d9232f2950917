/**
 The worker-fencing protocol: connections register an incarnation of a worker,
 publish under it, and on closing have everything it owns fenced. Steps of
 different connections interleave in any order.
 */
module Protocol {
  import opened Wire
  import opened Fabric
  import opened Registry
  import opened Listing

  type ConnId = nat
  type Incarnation = (WorkerId, BootId)

  const MAX_CONNECTIONS := 256

  /**
   The shared state. A connection holds no incarnation until it registers. `restoring`
   is set between the two registry calls of a restore.
   */
  datatype Coord = Coord(
    reg: State, maxBoot: map<WorkerId, BootId>, activeBoot: map<WorkerId, BootId>,
    conns: map<ConnId, Option<Incarnation>>, restoring: bool)

  datatype Action =
    | Accept(c: ConnId)
    | Register(c: ConnId, epoch: U64, worker: WorkerId, boot: BootId)
    | Publish(c: ConnId, epoch: U64, worker: WorkerId, boot: BootId, edit: BulkEdit)
    | Close(c: ConnId)
    | RestoreRecords(edit: BulkEdit)
    | RestoreExpiry
    | NewEpoch(epoch: U64)

  const START := Coord(INITIAL, map[], map[], map[], false)

  // ----- tagging -----

  function Tag(o: Origin, w: WorkerId, b: BootId): Origin {
    o.(workerKnown := true, worker := w, workerBoot := b)
  }

  function DeviceTag(w: WorkerId, b: BootId): DeviceRecord -> DeviceRecord { (r: DeviceRecord) => r.(origin := Tag(r.origin, w, b)) }
  function SwitchTag(w: WorkerId, b: BootId): SwitchRecord -> SwitchRecord { (r: SwitchRecord) => r.(origin := Tag(r.origin, w, b)) }
  function PortTag(w: WorkerId, b: BootId): PortRecord -> PortRecord { (r: PortRecord) => r.(origin := Tag(r.origin, w, b)) }
  function LinkTag(w: WorkerId, b: BootId): LinkRecord -> LinkRecord { (r: LinkRecord) => r.(origin := Tag(r.origin, w, b)) }
  function PartitionTag(w: WorkerId, b: BootId): Partition -> Partition { (r: Partition) => r.(origin := Tag(r.origin, w, b)) }

  /** Every record of a publication, marked as the publisher's. */
  function Tagged(e: BulkEdit, w: WorkerId, b: BootId): BulkEdit {
    BulkEdit(TagAll(e.devices, DeviceTag(w, b)), TagAll(e.switches, SwitchTag(w, b)), TagAll(e.ports, PortTag(w, b)),
             TagAll(e.links, LinkTag(w, b)), TagAll(e.partitions, PartitionTag(w, b)))
  }

  // ----- steps -----

  predicate Holds(s: Coord, c: ConnId, inc: Incarnation) {
    c in s.conns && s.conns[c] == Some(inc)
  }

  /** Whether a registration is let in: not an old epoch, not an old boot, not an active duplicate. */
  predicate Admits(s: Coord, epoch: U64, w: WorkerId, b: BootId) {
    && epoch >= s.reg.epoch
    && (w in s.maxBoot ==> b >= s.maxBoot[w])
    && (w in s.activeBoot ==> b != s.activeBoot[w])
  }

  function Enrol(s: Coord, c: ConnId, w: WorkerId, b: BootId): Coord {
    s.(maxBoot := if w !in s.maxBoot || b > s.maxBoot[w] then s.maxBoot[w := b] else s.maxBoot,
       activeBoot := s.activeBoot[w := b],
       conns := s.conns[c := Some((w, b))])
  }

  function Retire(active: map<WorkerId, BootId>, inc: Incarnation): map<WorkerId, BootId> {
    if inc.0 in active && active[inc.0] == inc.1 then active - {inc.0} else active
  }

  /** The registry operation a step performs, if any. */
  function RegistryEvent(s: Coord, e: Action): Option<Event> {
    match e
    case Publish(c, epoch, w, b, edit) =>
      if Holds(s, c, (w, b)) && epoch == s.reg.epoch then Some(Mutate(ApplyBulk(Tagged(edit, w, b)))) else None
    case Close(c) =>
      if c in s.conns && s.conns[c].Some? then Some(Mutate(InvalidateForWorker(s.conns[c].value.0, s.conns[c].value.1))) else None
    case RestoreRecords(edit) => Some(Mutate(ApplyBulk(edit)))
    case RestoreExpiry => Some(Mutate(ExpireDynamicEvidence))
    case NewEpoch(epoch) => Some(SetEpoch(epoch))
    case _ => None
  }

  function RegistryAfter(g: Registrar, s: Coord, e: Action): State {
    if RegistryEvent(s, e).Some? then g(s.reg, RegistryEvent(s, e).value) else s.reg
  }

  /** What a step does to everything but the registry. */
  function SessionAfter(s: Coord, e: Action): Coord {
    match e
    case Accept(c) => if c !in s.conns && |s.conns| < MAX_CONNECTIONS then s.(conns := s.conns[c := None]) else s
    case Register(c, epoch, w, b) => if c in s.conns && Admits(s, epoch, w, b) then Enrol(s, c, w, b) else s
    case Publish(_, _, _, _, _) => s
    case Close(c) =>
      if c !in s.conns then s
      else s.(activeBoot := if s.conns[c].Some? then Retire(s.activeBoot, s.conns[c].value) else s.activeBoot,
              conns := s.conns - {c})
    case RestoreRecords(_) => s.(restoring := true)
    case RestoreExpiry => s.(restoring := false)
    case NewEpoch(_) => s
  }

  function Do(g: Registrar, s: Coord, e: Action): Coord {
    SessionAfter(s, e).(reg := RegistryAfter(g, s, e))
  }

  function DoAll(g: Registrar, s: Coord, es: seq<Action>): Coord
    decreases |es|
  {
    if es == [] then s else DoAll(g, Do(g, s, es[0]), es[1..])
  }

  // ----- the registry of a coordinator run is a registry run -----

  function RegistryEvents(g: Registrar, s: Coord, es: seq<Action>): seq<Event>
    decreases |es|
  {
    if es == [] then []
    else
      var rest := RegistryEvents(g, Do(g, s, es[0]), es[1..]);
      if RegistryEvent(s, es[0]).Some? then [RegistryEvent(s, es[0]).value] + rest else rest
  }

  lemma RunFirst(f: Mutators, r: State, e: Event, rest: seq<Event>)
    ensures Run(f, r, [e] + rest) == Run(f, After(f, r, e), rest)
  {
    assert ([e] + rest)[1..] == rest;
  }

  /** Every law of registry runs holds of the coordinator's registry. */
  lemma {:induction false} RegistryRun(f: Mutators, s: Coord, es: seq<Action>)
    ensures DoAll(Evolve(f), s, es).reg == Run(f, s.reg, RegistryEvents(Evolve(f), s, es))
    decreases |es|
  {
    if es != [] {
      var n := Do(Evolve(f), s, es[0]);
      RegistryRun(f, n, es[1..]);
      if RegistryEvent(s, es[0]).Some? {
        RunFirst(f, s.reg, RegistryEvent(s, es[0]).value, RegistryEvents(Evolve(f), n, es[1..]));
      }
    }
  }

  // ----- the boot protocol -----

  /** A worker's active boot is its highest, and the holder of the highest boot is the active one. */
  ghost predicate BootsAgree(s: Coord) {
    && (forall w :: w in s.activeBoot ==> w in s.maxBoot && s.activeBoot[w] == s.maxBoot[w])
    && (forall c, w, b :: Holds(s, c, (w, b)) ==>
          w in s.maxBoot && b <= s.maxBoot[w] && (b == s.maxBoot[w] ==> w in s.activeBoot))
  }

  ghost predicate NoTwins(s: Coord) {
    forall c, d, inc :: Holds(s, c, inc) && Holds(s, d, inc) ==> c == d
  }

  ghost predicate BootInvariant(s: Coord) {
    BootsAgree(s) && NoTwins(s)
  }

  lemma NewcomerUnique(s: Coord, w: WorkerId, b: BootId, c: ConnId)
    requires BootInvariant(s) && (w in s.maxBoot ==> b >= s.maxBoot[w]) && (w in s.activeBoot ==> b != s.activeBoot[w])
    ensures !Holds(s, c, (w, b))
  {}

  lemma EnrolKeepsBoots(s: Coord, c: ConnId, w: WorkerId, b: BootId)
    requires BootInvariant(s) && c in s.conns
    requires (w in s.maxBoot ==> b >= s.maxBoot[w]) && (w in s.activeBoot ==> b != s.activeBoot[w])
    ensures BootInvariant(Enrol(s, c, w, b))
  {
    var n := Enrol(s, c, w, b);
    assert n.maxBoot[w] == b;
    forall d, v, k | Holds(n, d, (v, k))
      ensures v in n.maxBoot && k <= n.maxBoot[v] && (k == n.maxBoot[v] ==> v in n.activeBoot)
    {
      if d != c { assert Holds(s, d, (v, k)); }
    }
    forall d, e, inc | Holds(n, d, inc) && Holds(n, e, inc) ensures d == e {
      if d != c { assert Holds(s, d, inc); }
      if e != c { assert Holds(s, e, inc); }
      NewcomerUnique(s, w, b, d);
      NewcomerUnique(s, w, b, e);
    }
  }

  lemma CloseKeepsBoots(s: Coord, c: ConnId)
    requires BootInvariant(s) && c in s.conns
    ensures BootInvariant(SessionAfter(s, Close(c)))
  {
    var n := SessionAfter(s, Close(c));
    forall d, v, k | Holds(n, d, (v, k))
      ensures v in n.maxBoot && k <= n.maxBoot[v] && (k == n.maxBoot[v] ==> v in n.activeBoot)
    {
      assert Holds(s, d, (v, k));
      if s.conns[c].Some? { assert Holds(s, c, s.conns[c].value); }
    }
    forall d, e, inc | Holds(n, d, inc) && Holds(n, e, inc) ensures d == e {
      assert Holds(s, d, inc) && Holds(s, e, inc);
    }
  }

  lemma SessionKeepsBoots(s: Coord, e: Action)
    requires BootInvariant(s)
    ensures BootInvariant(SessionAfter(s, e))
  {
    match e
    case Register(c, epoch, w, b) => if c in s.conns && Admits(s, epoch, w, b) { EnrolKeepsBoots(s, c, w, b); }
    case Close(c) => if c in s.conns { CloseKeepsBoots(s, c); }
    case Accept(c) =>
      var n := SessionAfter(s, e);
      forall d, inc | Holds(n, d, inc) ensures Holds(s, d, inc) {}
    case _ =>
      var n := SessionAfter(s, e);
      forall d, inc ensures Holds(n, d, inc) <==> Holds(s, d, inc) {}
  }

  predicate BootsGrow(was: map<WorkerId, BootId>, now: map<WorkerId, BootId>) {
    forall w :: w in was ==> w in now && was[w] <= now[w]
  }

  lemma StepKeepsBoots(g: Registrar, s: Coord, e: Action)
    requires BootInvariant(s)
    ensures BootInvariant(Do(g, s, e)) && BootsGrow(s.maxBoot, Do(g, s, e).maxBoot)
  {
    SessionKeepsBoots(s, e);
    var n, m := SessionAfter(s, e), Do(g, s, e);
    forall d, inc ensures Holds(n, d, inc) <==> Holds(m, d, inc) {}
  }

  /**
   Over every interleaving, re-registrations included: the highest boot never goes down, an
   active boot is the highest, and no two live connections hold the same incarnation.
   */
  lemma {:induction false} BootsThroughout(g: Registrar, s: Coord, es: seq<Action>)
    requires BootInvariant(s)
    ensures BootInvariant(DoAll(g, s, es)) && BootsGrow(s.maxBoot, DoAll(g, s, es).maxBoot)
    decreases |es|
  {
    if es != [] {
      StepKeepsBoots(g, s, es[0]);
      BootsThroughout(g, Do(g, s, es[0]), es[1..]);
    }
  }

  lemma StartBoots()
    ensures BootInvariant(START)
  {}

  /** BootsThroughout, of every run of the coordinator. */
  lemma CoordinatorBoots(es: seq<Action>, more: seq<Action>)
    ensures var s := DoAll(Evolve(Propose), START, es);
      BootInvariant(s) && BootsGrow(s.maxBoot, DoAll(Evolve(Propose), s, more).maxBoot)
  {
    StartBoots();
    BootsThroughout(Evolve(Propose), START, es);
    BootsThroughout(Evolve(Propose), DoAll(Evolve(Propose), START, es), more);
  }
}
