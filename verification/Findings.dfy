/** Concrete runs, from the initial state, on which a promise fails; the exact conditions are proved elsewhere. */
module Findings {
  import opened Wire
  import opened Fabric
  import opened Registry
  import opened RegistryLaws
  import opened Acceptance
  import opened Listing

  const NOBODY := Origin([], false, 0, SYNTHETIC, 0, 0)

  function PlainSwitch(id: SwitchId): SwitchRecord {
    SwitchRecord(id, 1, [], false, [], [], [], 1, UP, [], false, [], false, NOBODY)
  }

  /** A snapshot some operations after the initial one, with nothing in it yet. */
  function Later(n: nat): Topology
    requires n < 100
  {
    EMPTY_TOPOLOGY.(id := n + 1, topologyGen := n, provenance := SYNTHETIC)
  }

  lemma OneStep(f: Mutators, r: State, a: Op)
    ensures Run(f, r, [Mutate(a)]) == Step(f, r, a)
  {
    assert [Mutate(a)][1..] == [];
  }

  lemma RunTwo(f: Mutators, r: State, a: Op, b: Op, q: State, s: State)
    requires Step(f, r, a) == q && Step(f, q, b) == s
    ensures Run(f, r, [Mutate(a), Mutate(b)]) == s
  {
    var es := [Mutate(a), Mutate(b)];
    assert es[1..] == [Mutate(b)] && es[1..][1..] == [];
    assert Run(f, s, []) == s && Run(f, q, [Mutate(b)]) == Run(f, s, []);
  }

  lemma RunMore(f: Mutators, r: State, es: seq<Event>, a: Op, b: Op, q: State, s: State, end: State)
    requires Run(f, r, es) == q && Step(f, q, a) == s && Step(f, s, b) == end
    ensures Run(f, r, es + [Mutate(a), Mutate(b)]) == end
    decreases |es|
  {
    var more := [Mutate(a), Mutate(b)];
    if es == [] {
      assert es + more == more;
      RunTwo(f, r, a, b, s, end);
    } else {
      assert (es + more)[1..] == es[1..] + more;
      RunMore(f, After(f, r, es[0]), es[1..], a, b, q, s, end);
    }
  }

  lemma RunFour(f: Mutators, r: State, a: Op, b: Op, c: Op, d: Op, s1: State, s2: State, s3: State, s4: State)
    requires Step(f, r, a) == s1 && Step(f, s1, b) == s2 && Step(f, s2, c) == s3 && Step(f, s3, d) == s4
    ensures Run(f, r, [Mutate(a), Mutate(b), Mutate(c), Mutate(d)]) == s4
  {
    RunTwo(f, r, a, b, s1, s2);
    RunMore(f, r, [Mutate(a), Mutate(b)], c, d, s2, s3, s4);
    assert [Mutate(a), Mutate(b)] + [Mutate(c), Mutate(d)] == [Mutate(a), Mutate(b), Mutate(c), Mutate(d)];
  }

  // ----- fabrics loaded in one edit -----

  /** What one bulk edit of the empty registry leaves beside the tables. */
  predicate FirstSnapshot(t: Topology) {
    && t.id == 2 && t.topologyGen == 1 && t.fabricGen == 0 && t.epoch == 0
    && t.labelText == EMPTY_TOPOLOGY.labelText && !t.persisted
    && t.provenance == FinalizeProvenance(t).provenance
  }

  lemma StagedWhole(t: Topology, e: BulkEdit)
    requires Lists(e, t) && KeysMatch(t)
    ensures SameTables(t.(topologyGen := 1), ProposeBulk(EMPTY_TOPOLOGY, e).topology)
  {
    StagedAlone(t.devices, e.devices, DeviceKey);
    StagedAlone(t.switches, e.switches, SwitchKey);
    StagedAlone(t.ports, e.ports, PortKey);
    StagedAlone(t.links, e.links, LinkKey);
    StagedAlone(t.partitions, e.partitions, PartitionKey);
  }

  lemma StagedValid(t: Topology, c: Topology)
    requires WellFormed(t) && SameTables(t, c)
    ensures Valid(EMPTY_TOPOLOGY, c)
  {
    SameIntegrity(t, c);
  }

  lemma StagedCommits(t: Topology, c: Topology)
    requires FirstSnapshot(t) && SameTables(t, c)
    requires c.fabricGen == 0 && c.labelText == EMPTY_TOPOLOGY.labelText && !c.persisted
    ensures Commit(INITIAL, c).current == t
  {
    SameProvenance(t, c);
    assert Commit(INITIAL, c).current.provenance == t.provenance;
  }

  lemma BulkStep(r: State, e: BulkEdit)
    ensures Step(Propose, r, ApplyBulk(e)) == Settle(r, ProposeBulk(r.current, e))
  {
    Dispatched(r, ApplyBulk(e), ProposeBulk(r.current, e));
  }

  /** The snapshot is the current one of a registry that received it in one bulk edit. */
  ghost predicate Reached(t: Topology) {
    exists e :: Lists(e, t) && Run(Propose, INITIAL, [Mutate(ApplyBulk(e))]).current == t
  }

  /** Every well-formed fabric is one bulk edit away from the empty registry. */
  lemma Loaded(t: Topology) returns (e: BulkEdit)
    requires WellFormed(t) && FirstSnapshot(t)
    ensures Lists(e, t) && Run(Propose, INITIAL, [Mutate(ApplyBulk(e))]).current == t
  {
    e := AnyListing(t);
    StagedWhole(t, e);
    StagedValid(t, ProposeBulk(EMPTY_TOPOLOGY, e).topology);
    StagedCommits(t, ProposeBulk(EMPTY_TOPOLOGY, e).topology);
    BulkStep(INITIAL, e);
    OneStep(Propose, INITIAL, ApplyBulk(e));
  }

  // ----- a switch that cannot be removed -----

  const PORT := PortRecord(PortId(1, 0), 1, LinkEnd(DEVICE_END, 0, 0), false, UP, 0, false, 0, false, NOBODY)

  /** A link from switch 1 to switch 2 whose end kind is neither device nor switch. */
  const STRAY_LINK := LinkRecord(7, 1, 1, PortId(1, 0), LinkEnd(2, 0, 2), true, UP, false, NOBODY)

  const BUILD: seq<Event> := [Mutate(AddSwitch(PlainSwitch(1))), Mutate(AddSwitch(PlainSwitch(2))), Mutate(AddPort(PORT)), Mutate(AddLink(STRAY_LINK))]

  const ONE_SWITCH := State(Later(1).(switches := map[1 := PlainSwitch(1)]), 3, 0, 1)
  const TWO_SWITCHES := State(Later(2).(switches := map[1 := PlainSwitch(1), 2 := PlainSwitch(2)]), 4, 0, 2)
  const WITH_PORT := State(TWO_SWITCHES.current.(id := 4, topologyGen := 3, ports := map[PortId(1, 0) := PORT]), 5, 0, 3)
  const WITH_STRAY := State(WITH_PORT.current.(id := 5, topologyGen := 4, links := map[7 := STRAY_LINK]), 6, 0, 4)

  lemma FirstSwitch()
    ensures Settle(INITIAL, ProposeAddSwitch(INITIAL.current, PlainSwitch(1))) == ONE_SWITCH
  {
    var c := ProposeAddSwitch(INITIAL.current, PlainSwitch(1)).topology;
    assert c.switches == map[1 := PlainSwitch(1)];
    assert c.switches[1].origin.provenance == SYNTHETIC;
  }

  lemma FirstSwitchStep()
    ensures Step(Propose, INITIAL, AddSwitch(PlainSwitch(1))) == ONE_SWITCH
  {
    Dispatched(INITIAL, AddSwitch(PlainSwitch(1)), ProposeAddSwitch(INITIAL.current, PlainSwitch(1)));
    FirstSwitch();
  }

  lemma SecondSwitch()
    ensures Settle(ONE_SWITCH, ProposeAddSwitch(ONE_SWITCH.current, PlainSwitch(2))) == TWO_SWITCHES
  {
    var c := ProposeAddSwitch(ONE_SWITCH.current, PlainSwitch(2)).topology;
    assert c.switches == map[1 := PlainSwitch(1), 2 := PlainSwitch(2)];
    assert c.switches[1].origin.provenance == SYNTHETIC;
  }

  lemma SecondSwitchStep()
    ensures Step(Propose, ONE_SWITCH, AddSwitch(PlainSwitch(2))) == TWO_SWITCHES
  {
    Dispatched(ONE_SWITCH, AddSwitch(PlainSwitch(2)), ProposeAddSwitch(ONE_SWITCH.current, PlainSwitch(2)));
    SecondSwitch();
  }

  lemma OnePort()
    ensures Settle(TWO_SWITCHES, ProposeAddPort(TWO_SWITCHES.current, PORT)) == WITH_PORT
  {
    var c := ProposeAddPort(TWO_SWITCHES.current, PORT).topology;
    assert c.switches == TWO_SWITCHES.current.switches && c.ports == map[PortId(1, 0) := PORT];
    assert c.switches[1].origin.provenance == SYNTHETIC;
  }

  lemma OnePortStep()
    ensures Step(Propose, TWO_SWITCHES, AddPort(PORT)) == WITH_PORT
  {
    Dispatched(TWO_SWITCHES, AddPort(PORT), ProposeAddPort(TWO_SWITCHES.current, PORT));
    OnePort();
  }

  lemma StrayLink()
    ensures Settle(WITH_PORT, ProposeAddLink(WITH_PORT.current, STRAY_LINK)) == WITH_STRAY
  {
    var c := ProposeAddLink(WITH_PORT.current, STRAY_LINK).topology;
    assert c.links == map[7 := STRAY_LINK] && LinkSound(c, STRAY_LINK);
    assert c.switches[1].origin.provenance == SYNTHETIC;
  }

  lemma StrayLinkStep()
    ensures Step(Propose, WITH_PORT, AddLink(STRAY_LINK)) == WITH_STRAY
  {
    Dispatched(WITH_PORT, AddLink(STRAY_LINK), ProposeAddLink(WITH_PORT.current, STRAY_LINK));
    StrayLink();
  }

  lemma StrayReached()
    ensures Run(Propose, INITIAL, BUILD) == WITH_STRAY
  {
    FirstSwitchStep();
    SecondSwitchStep();
    OnePortStep();
    StrayLinkStep();
    RunFour(Propose, INITIAL, AddSwitch(PlainSwitch(1)), AddSwitch(PlainSwitch(2)), AddPort(PORT), AddLink(STRAY_LINK),
            ONE_SWITCH, TWO_SWITCHES, WITH_PORT, WITH_STRAY);
  }

  /**
   The registry built by adding two switches, a port and a link whose end is of unknown kind:
   every step commits, no partition lists switch 2, and from then on it cannot be removed.
   */
  lemma StraySwitchStuck()
    ensures var r := Run(Propose, INITIAL, BUILD);
      2 in r.current.switches && !ListsSwitch(r.current, 2) && Answer(r, RemoveSwitch(2)) == Some(INVALID_TOPOLOGY)
  {
    StrayReached();
    RunFromStart(BUILD);
    Stuck(WITH_STRAY);
  }

  lemma RemovalAnswer(r: State, id: SwitchId)
    ensures Answer(r, RemoveSwitch(id)) == Verdict(r, ProposeRemoveSwitch(r.current, id))
  {
    Dispatched(r, RemoveSwitch(id), ProposeRemoveSwitch(r.current, id));
  }

  lemma Stuck(r: State)
    requires WellFormed(r.current) && r.current.topologyGen < U64_MAX && 2 in r.current.switches
    requires 7 in r.current.links && r.current.links[7] == STRAY_LINK
    ensures Answer(r, RemoveSwitch(2)) == Some(INVALID_TOPOLOGY)
  {
    assert Strays(r.current.links[7], 2);
    RemoveSwitchExact(r, 2);
    RemovalAnswer(r, 2);
  }

  // ----- a change that does not advance the generation -----

  const ZONE := Partition([65], 0, [], [], [], PARTITION_ACTIVE, NOBODY)
  const RENAMED := Partition([65], U64_MAX, [66], [], [], PARTITION_ACTIVE, NOBODY)
  const ZONE_EDIT := BulkEdit([], [], [], [], [ZONE])
  const ZONED := State(Later(1).(partitions := map[[65] := ZONE]), 3, 0, 1)

  lemma StageOne<K, V>(v: V, key: V -> K)
    ensures Stage(map[], [v], key) == map[key(v) := v]
  {
    assert Stage(map[], [v][..0], key) == map[];
  }

  lemma ZoneReached()
    ensures Step(Propose, INITIAL, ApplyBulk(ZONE_EDIT)) == ZONED
  {
    BulkStep(INITIAL, ZONE_EDIT);
    ZoneSettles();
  }

  lemma ZoneSettles()
    ensures Settle(INITIAL, ProposeBulk(INITIAL.current, ZONE_EDIT)) == ZONED
  {
    StageOne(ZONE, PartitionKey);
    var c := ProposeBulk(INITIAL.current, ZONE_EDIT).topology;
    assert c.partitions == map[[65] := ZONE] && c.partitions[[65]].origin.provenance == SYNTHETIC;
  }

  lemma RenameSettles()
    ensures PartitionChanged(ZONE, RENAMED) && Passes(ZONED, ProposePublishPartition(ZONED.current, RENAMED))
    ensures Settle(ZONED, ProposePublishPartition(ZONED.current, RENAMED)).current.partitions == map[[65] := RENAMED.(gen := 0)]
  {
    var p := ProposePublishPartition(ZONED.current, RENAMED);
    assert p.Candidate? && p.topology.partitions == map[[65] := RENAMED.(gen := 0)];
  }

  lemma PublicationStep(r: State, part: Partition)
    ensures Step(Propose, r, PublishPartition(part)) == Settle(r, ProposePublishPartition(r.current, part))
    ensures Answer(r, PublishPartition(part)) == Verdict(r, ProposePublishPartition(r.current, part))
  {
    Dispatched(r, PublishPartition(part), ProposePublishPartition(r.current, part));
  }

  /**
   A registry that received a partition at generation 0 in a bulk edit commits a change of it
   that does not advance its generation: the incoming generation is the last one, the increment
   wraps to zero, and zero is not below zero.
   */
  lemma ChangeWithoutBump()
    ensures var r := Run(Propose, INITIAL, [Mutate(ApplyBulk(ZONE_EDIT))]);
      && r.current.partitions == map[[65] := ZONE] && PartitionChanged(ZONE, RENAMED)
      && Answer(r, PublishPartition(RENAMED)) == None
      && Step(Propose, r, PublishPartition(RENAMED)).current.partitions == map[[65] := RENAMED.(gen := ZONE.gen)]
  {
    ZoneReached();
    OneStep(Propose, INITIAL, ApplyBulk(ZONE_EDIT));
    PublicationStep(ZONED, RENAMED);
    RenameSettles();
  }
}
