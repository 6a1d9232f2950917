/** Runs of the coordinator, from its start, that show that safety needs both its hypotheses. */
module CoordinatorFindings {
  import opened Wire
  import opened Fabric
  import opened Registry
  import opened Acceptance
  import opened Protocol
  import opened Fencing
  import opened Findings

  const ALICE: WorkerId := [65]
  const BOB: WorkerId := [66]

  // ----- a worker registers and publishes one switch -----

  function AliceEdit(g: Gen): BulkEdit {
    BulkEdit([], [PlainSwitch(1).(gen := g)], [], [], [])
  }

  function AliceSwitch(g: Gen): SwitchRecord {
    PlainSwitch(1).(gen := g, origin := Tag(NOBODY, ALICE, 1))
  }

  function AliceRegistry(g: Gen): State {
    State(Later(1).(switches := map[1 := AliceSwitch(g)]), 3, 0, 1)
  }

  const CONNECTED := START.(conns := map[0 := None])
  const REGISTERED := CONNECTED.(maxBoot := map[ALICE := 1], activeBoot := map[ALICE := 1], conns := map[0 := Some((ALICE, 1))])

  function Published(g: Gen): Coord {
    REGISTERED.(reg := AliceRegistry(g))
  }

  lemma TaggedAlice(g: Gen)
    ensures Tagged(AliceEdit(g), ALICE, 1) == BulkEdit([], [AliceSwitch(g)], [], [], [])
  {}

  lemma AliceSettles(g: Gen)
    ensures Settle(INITIAL, ProposeBulk(INITIAL.current, Tagged(AliceEdit(g), ALICE, 1))) == AliceRegistry(g)
  {
    TaggedAlice(g);
    StageOne(AliceSwitch(g), SwitchKey);
    var c := ProposeBulk(INITIAL.current, Tagged(AliceEdit(g), ALICE, 1)).topology;
    assert c.switches == map[1 := AliceSwitch(g)] && c.switches[1].origin.provenance == SYNTHETIC;
  }

  lemma AliceConnects(g: Registrar)
    ensures Do(g, START, Accept(0)) == CONNECTED
    ensures Do(g, CONNECTED, Register(0, 0, ALICE, 1)) == REGISTERED
  {}

  lemma AlicePublishes(f: Mutators, g: Gen)
    requires Faithful(f)
    ensures Do(Evolve(f), REGISTERED, Publish(0, 0, ALICE, 1, AliceEdit(g))) == Published(g)
  {
    assert Holds(REGISTERED, 0, (ALICE, 1));
    AliceSettles(g);
  }

  lemma AliceWellFormed(g: Gen)
    ensures WellFormed(AliceRegistry(g).current)
  {}

  lemma AliceBoots(g: Gen)
    ensures BootInvariant(Published(g)) && Holds(Published(g), 0, (ALICE, 1))
  {}

  lemma AliceUnfenced(g: Gen, w: WorkerId, b: BootId)
    ensures Unfenced(AliceRegistry(g).current, w, b) <==> w == ALICE && b == 1
  {
    var t := AliceRegistry(g).current;
    assert t.switches[1].state != REVALIDATION_REQUIRED && (Owned(t.switches[1].origin, w, b) <==> w == ALICE && b == 1);
  }

  lemma AliceSafe(g: Gen)
    ensures Safe(Unfenced, Published(g))
  {
    AliceBoots(g);
    forall w, b | Unfenced(Published(g).reg.current, w, b) ensures exists c :: Holds(Published(g), c, (w, b)) {
      AliceUnfenced(g, w, b);
    }
  }

  // ----- the runs -----

  /** What a run's hypotheses come to, one after the other. */
  predicate AllFit(g: Registrar, fit: State -> bool, s: Coord, es: seq<Action>)
    decreases |es|
  {
    fit(s.reg) && (es != [] ==> AllFit(g, fit, Do(g, s, es[0]), es[1..]))
  }

  predicate AllOnce(g: Registrar, s: Coord, es: seq<Action>)
    decreases |es|
  {
    es != [] ==> RegistersOnce(s, es[0]) && AllOnce(g, Do(g, s, es[0]), es[1..])
  }

  lemma {:induction false} RestrainedIff(g: Registrar, fit: State -> bool, s: Coord, es: seq<Action>)
    ensures Restrained(g, fit, s, es) <==> AllFit(g, fit, s, es) && AllOnce(g, s, es)
    decreases |es|
  {
    if es != [] { RestrainedIff(g, fit, Do(g, s, es[0]), es[1..]); }
  }

  /** Coordinator safety in terms of its two hypotheses. */
  lemma SafeUnderBoth(es: seq<Action>)
    requires AllFit(Evolve(Propose), Low, START, es) && AllOnce(Evolve(Propose), START, es)
    ensures var s := DoAll(Evolve(Propose), START, es); !s.restoring ==> Safe(Unfenced, s)
  {
    RestrainedIff(Evolve(Propose), Low, START, es);
    CoordinatorSafety(es);
  }

  lemma Unroll(g: Registrar, fit: State -> bool, s: Coord, e: Action, es: seq<Action>, n: Coord)
    requires n == Do(g, s, e)
    ensures DoAll(g, s, [e] + es) == DoAll(g, n, es)
    ensures AllFit(g, fit, s, [e] + es) <==> fit(s.reg) && AllFit(g, fit, n, es)
    ensures AllOnce(g, s, [e] + es) <==> RegistersOnce(s, e) && AllOnce(g, n, es)
  {
    assert ([e] + es)[1..] == es;
  }

  lemma TwoSteps(g: Registrar, fit: State -> bool, s: Coord, a: Action, b: Action, es: seq<Action>, s1: Coord, s2: Coord)
    requires s1 == Do(g, s, a) && s2 == Do(g, s1, b)
    ensures DoAll(g, s, [a, b] + es) == DoAll(g, s2, es)
    ensures AllFit(g, fit, s, [a, b] + es) <==> fit(s.reg) && fit(s1.reg) && AllFit(g, fit, s2, es)
    ensures AllOnce(g, s, [a, b] + es) <==> RegistersOnce(s, a) && RegistersOnce(s1, b) && AllOnce(g, s2, es)
  {
    Unroll(g, fit, s1, b, es, s2);
    Unroll(g, fit, s, a, [b] + es, s1);
    assert [a] + ([b] + es) == [a, b] + es;
  }

  lemma AtEnd(g: Registrar, fit: State -> bool, s: Coord, es: seq<Action>)
    requires es == []
    ensures DoAll(g, s, es) == s && AllOnce(g, s, es) && (AllFit(g, fit, s, es) <==> fit(s.reg))
  {}

  lemma LastTwo(g: Registrar, fit: State -> bool, s: Coord, a: Action, b: Action, es: seq<Action>, s1: Coord, s2: Coord)
    requires s1 == Do(g, s, a) && s2 == Do(g, s1, b) && es == [a, b] + []
    ensures DoAll(g, s, es) == s2
    ensures AllFit(g, fit, s, es) <==> fit(s.reg) && fit(s1.reg) && fit(s2.reg)
    ensures AllOnce(g, s, es) <==> RegistersOnce(s, a) && RegistersOnce(s1, b)
  {
    AtEnd(g, fit, s2, []);
    TwoSteps(g, fit, s, a, b, [], s1, s2);
  }

  /** Accept, register and publish, then one more step. */
  function AliceThen(e: Gen, last: Action): seq<Action> {
    [Accept(0), Register(0, 0, ALICE, 1)] + [Publish(0, 0, ALICE, 1, AliceEdit(e)), last]
  }

  lemma OnceSoFar(e: Gen)
    ensures RegistersOnce(START, Accept(0)) && RegistersOnce(CONNECTED, Register(0, 0, ALICE, 1))
    ensures RegistersOnce(REGISTERED, Publish(0, 0, ALICE, 1, AliceEdit(e)))
  {}

  lemma AliceRuns(g: Registrar, fit: State -> bool, e: Gen, last: Action, n: Coord)
    requires Do(g, REGISTERED, Publish(0, 0, ALICE, 1, AliceEdit(e))) == Published(e) && n == Do(g, Published(e), last)
    ensures DoAll(g, START, AliceThen(e, last)) == n
    ensures fit(INITIAL) && fit(AliceRegistry(e)) && fit(n.reg) ==> AllFit(g, fit, START, AliceThen(e, last))
    ensures RegistersOnce(Published(e), last) ==> AllOnce(g, START, AliceThen(e, last))
  {
    var p := Publish(0, 0, ALICE, 1, AliceEdit(e));
    AliceConnects(g);
    OnceSoFar(e);
    LastTwo(g, fit, REGISTERED, p, last, [p, last], Published(e), n);
    TwoSteps(g, fit, START, Accept(0), Register(0, 0, ALICE, 1), [p, last], CONNECTED, REGISTERED);
  }

  lemma AliceLow(g: Gen)
    ensures Low(INITIAL) && (Low(AliceRegistry(g)) <==> g < U64_MAX)
  {
    assert AliceRegistry(g).current.switches[1].gen == g;
  }

  /** Registering again leaves the registry alone and keeps safety from holding. */
  lemma SecondRegistration(f: Mutators, g: Gen)
    ensures var n := Do(Evolve(f), Published(g), Register(0, 0, BOB, 1));
      n.reg == AliceRegistry(g) && !n.restoring && !Safe(Unfenced, n)
  {
    AliceSafe(g);
    AliceBoots(g);
    AliceUnfenced(g, ALICE, 1);
    ReRegistrationExact(Evolve(f), Unfenced, Published(g), Register(0, 0, BOB, 1), (ALICE, 1));
  }

  /**
   A connection registers, publishes, and registers again. No generation comes near the last
   one, yet at the end there is unfenced evidence nobody holds.
   */
  lemma ReRegistrationUnsafe(f: Mutators, g: Gen)
    requires Faithful(f) && g < U64_MAX
    ensures var es := AliceThen(g, Register(0, 0, BOB, 1)); var s := DoAll(Evolve(f), START, es);
      AllFit(Evolve(f), Low, START, es) && !s.restoring && !Safe(Unfenced, s)
  {
    AlicePublishes(f, g);
    AliceLow(g);
    SecondRegistration(f, g);
    AliceRuns(Evolve(f), Low, g, Register(0, 0, BOB, 1), Do(Evolve(f), Published(g), Register(0, 0, BOB, 1)));
  }

  lemma LastGenerationRefused(f: Mutators)
    requires Faithful(f)
    ensures Step(f, AliceRegistry(U64_MAX), InvalidateForWorker(ALICE, 1)) == AliceRegistry(U64_MAX)
  {
    var r := AliceRegistry(U64_MAX);
    AliceWellFormed(U64_MAX);
    assert Owned(r.current.switches[1].origin, ALICE, 1) && !Bumpable(r.current, ALICE, 1);
    InvalidateExact(r, ALICE, 1);
  }

  lemma RefusedAtClose(g: Registrar)
    requires g(AliceRegistry(U64_MAX), Mutate(InvalidateForWorker(ALICE, 1))) == AliceRegistry(U64_MAX)
    ensures var n := Do(g, Published(U64_MAX), Close(0)); !n.restoring && !Safe(Unfenced, n)
  {
    AliceSafe(U64_MAX);
    AliceBoots(U64_MAX);
    AliceUnfenced(U64_MAX, ALICE, 1);
    RefusedFencingExact(g, Unfenced, Published(U64_MAX), 0, (ALICE, 1));
  }

  /**
   A connection registers once, publishes a switch at the last generation, and closes. The
   fencing is refused, and at the end there is unfenced evidence nobody holds.
   */
  lemma LastGenerationUnsafe(f: Mutators)
    requires Faithful(f)
    ensures var es := AliceThen(U64_MAX, Close(0)); var s := DoAll(Evolve(f), START, es);
      AllOnce(Evolve(f), START, es) && !s.restoring && !Safe(Unfenced, s)
  {
    AlicePublishes(f, U64_MAX);
    LastGenerationRefused(f);
    RefusedAtClose(Evolve(f));
    AliceRuns(Evolve(f), Low, U64_MAX, Close(0), Do(Evolve(f), Published(U64_MAX), Close(0)));
  }

  /** Neither hypothesis of coordinator safety can be dropped: two runs of the coordinator from its start. */
  lemma BothHypothesesNeeded()
    ensures var es := AliceThen(1, Register(0, 0, BOB, 1)); var s := DoAll(Evolve(Propose), START, es);
      AllFit(Evolve(Propose), Low, START, es) && !s.restoring && !Safe(Unfenced, s)
    ensures var es := AliceThen(U64_MAX, Close(0)); var s := DoAll(Evolve(Propose), START, es);
      AllOnce(Evolve(Propose), START, es) && !s.restoring && !Safe(Unfenced, s)
  {
    RegistryFaithful();
    ReRegistrationUnsafe(Propose, 1);
    LastGenerationUnsafe(Propose);
  }
}
