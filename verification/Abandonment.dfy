/**
 Safety without hypotheses: in every run, evidence that is not waiting for
 revalidation is either held by a live connection or was abandoned in that run,
 by a second registration on a connection, a refused fencing or a refused expiry.
 */
module Abandonment {
  import opened Fabric
  import opened Registry
  import opened Protocol
  import opened Fencing

  predicate Refuses(g: Registrar, r: State, op: Op) {
    g(r, Mutate(op)) == r
  }

  /** The step gives up the incarnation: nothing will fence what it left. */
  ghost predicate Abandons(g: Registrar, u: Evidence, s: Coord, e: Action, inc: Incarnation) {
    match e
    case Register(c, epoch, w, b) => Holds(s, c, inc) && Admits(s, epoch, w, b)
    case Close(c) => Holds(s, c, inc) && Refuses(g, s.reg, InvalidateForWorker(inc.0, inc.1))
    case RestoreExpiry => u(s.reg.current, inc.0, inc.1) && Refuses(g, s.reg, ExpireDynamicEvidence)
    case _ => false
  }

  ghost predicate AbandonedIn(g: Registrar, u: Evidence, s: Coord, es: seq<Action>, inc: Incarnation)
    decreases |es|
  {
    es != [] && (Abandons(g, u, s, es[0], inc) || AbandonedIn(g, u, Do(g, s, es[0]), es[1..], inc))
  }

  ghost predicate Held(s: Coord, inc: Incarnation) {
    exists c :: Holds(s, c, inc)
  }

  /** Unfenced evidence is held, or was given up before. */
  ghost predicate Accounted(u: Evidence, s: Coord, past: Incarnation -> bool) {
    forall w, b :: u(s.reg.current, w, b) ==> Held(s, (w, b)) || past((w, b))
  }

  /** What holds of the registry in every state: a refused operation changes nothing, a committed one fences. */
  ghost predicate FencesOrRefuses(g: Registrar, u: Evidence) {
    && (forall r, w, b, v, k ::
          !Refuses(g, r, InvalidateForWorker(w, b)) && u(g(r, Mutate(InvalidateForWorker(w, b))).current, v, k)
          ==> u(r.current, v, k) && (v, k) != (w, b))
    && (forall r, e, w, b, v, k ::
          u(g(r, Mutate(ApplyBulk(Tagged(e, w, b)))).current, v, k) ==> u(r.current, v, k) || (v, k) == (w, b))
    && (forall r, v, k :: !Refuses(g, r, ExpireDynamicEvidence) ==> !u(g(r, Mutate(ExpireDynamicEvidence)).current, v, k))
    && (forall r, epoch :: g(r, SetEpoch(epoch)).current == r.current)
  }

  // ----- one step -----

  lemma StillHeld(g: Registrar, u: Evidence, s: Coord, e: Action, inc: Incarnation)
    requires Held(s, inc) && !Abandons(g, u, s, e, inc)
    requires e.Close? ==> !Holds(s, e.c, inc)
    ensures Held(Do(g, s, e), inc)
  {
    var n := Do(g, s, e);
    var c: ConnId :| Holds(s, c, inc);
    if e.Close? { assert c != e.c; }
    assert Holds(n, c, inc);
  }

  /** A step leaves unfenced only what was unfenced before, or what the publisher itself holds. */
  lemma NothingNew(g: Registrar, u: Evidence, s: Coord, e: Action, w: WorkerId, b: BootId)
    requires FencesOrRefuses(g, u) && !e.RestoreRecords? && u(Do(g, s, e).reg.current, w, b)
    ensures u(s.reg.current, w, b) || (e.Publish? && Holds(s, e.c, (w, b)))
    ensures e.Close? && Holds(s, e.c, (w, b)) ==> Refuses(g, s.reg, InvalidateForWorker(w, b))
    ensures e.RestoreExpiry? ==> Refuses(g, s.reg, ExpireDynamicEvidence)
  {}

  lemma StepAccounted(g: Registrar, u: Evidence, s: Coord, e: Action, past: Incarnation -> bool, w: WorkerId, b: BootId)
    requires FencesOrRefuses(g, u)
    requires !s.restoring ==> Accounted(u, s, past)
    requires !Do(g, s, e).restoring && u(Do(g, s, e).reg.current, w, b)
    ensures Held(Do(g, s, e), (w, b)) || past((w, b)) || Abandons(g, u, s, e, (w, b))
  {
    NothingNew(g, u, s, e, w, b);
    if !Abandons(g, u, s, e, (w, b)) {
      assert !e.RestoreExpiry?;
      if u(s.reg.current, w, b) && !Held(s, (w, b)) { return; }
      assert Held(s, (w, b));
      StillHeld(g, u, s, e, (w, b));
    }
  }

  // ----- every run -----

  lemma {:induction false} RunAccounted(g: Registrar, u: Evidence, s: Coord, es: seq<Action>, past: Incarnation -> bool)
    requires FencesOrRefuses(g, u)
    requires !s.restoring ==> Accounted(u, s, past)
    ensures var n := DoAll(g, s, es); !n.restoring ==>
      forall w, b :: u(n.reg.current, w, b) ==> Held(n, (w, b)) || past((w, b)) || AbandonedIn(g, u, s, es, (w, b))
    decreases |es|
  {
    if es != [] {
      var n := Do(g, s, es[0]);
      var later := (inc: Incarnation) => past(inc) || Abandons(g, u, s, es[0], inc);
      if !n.restoring {
        forall w: WorkerId, b: BootId | u(n.reg.current, w, b) ensures Held(n, (w, b)) || later((w, b)) {
          StepAccounted(g, u, s, es[0], past, w, b);
        }
      }
      RunAccounted(g, u, n, es[1..], later);
    }
  }

  // ----- the registry fences or refuses -----

  lemma SettledFenced(r: State, w: WorkerId, b: BootId, v: WorkerId, k: BootId)
    requires Settle(r, ProposeInvalidate(r.current, w, b)) != r
    requires Unfenced(Settle(r, ProposeInvalidate(r.current, w, b)).current, v, k)
    ensures Unfenced(r.current, v, k) && (v, k) != (w, b)
  {
    SettledUnfenced(r, ProposeInvalidate(r.current, w, b), v, k);
    FencedGone(r.current, w, b, v, k);
  }

  lemma SettledExpired(r: State, v: WorkerId, k: BootId)
    requires Settle(r, ProposeExpire(r.current)) != r
    ensures !Unfenced(Settle(r, ProposeExpire(r.current)).current, v, k)
  {
    ExpiredGone(r.current, v, k);
    if Unfenced(Settle(r, ProposeExpire(r.current)).current, v, k) {
      SettledUnfenced(r, ProposeExpire(r.current), v, k);
      assert false;
    }
  }

  lemma RegistryFencesOrRefuses(f: Mutators)
    requires Faithful(f)
    ensures FencesOrRefuses(Evolve(f), Unfenced)
  {
    var g := Evolve(f);
    forall r, w, b, v, k | !Refuses(g, r, InvalidateForWorker(w, b)) && Unfenced(g(r, Mutate(InvalidateForWorker(w, b))).current, v, k)
      ensures Unfenced(r.current, v, k) && (v, k) != (w, b)
    {
      SettledFenced(r, w, b, v, k);
    }
    forall r, e, w, b, v, k | Unfenced(g(r, Mutate(ApplyBulk(Tagged(e, w, b)))).current, v, k)
      ensures Unfenced(r.current, v, k) || (v, k) == (w, b)
    {
      PublicationFences(r, e, w, b, v, k);
    }
    forall r, v, k | !Refuses(g, r, ExpireDynamicEvidence) ensures !Unfenced(g(r, Mutate(ExpireDynamicEvidence)).current, v, k) {
      SettledExpired(r, v, k);
    }
  }

  /**
   In every run of the coordinator, outside a restore, every worker-tagged record that is not
   waiting for revalidation has a live connection holding its incarnation, or the incarnation
   was abandoned earlier in that run.
   */
  lemma HeldOrAbandoned(es: seq<Action>, w: WorkerId, b: BootId)
    requires var s := DoAll(Evolve(Propose), START, es); !s.restoring && Unfenced(s.reg.current, w, b)
    ensures Held(DoAll(Evolve(Propose), START, es), (w, b)) || AbandonedIn(Evolve(Propose), Unfenced, START, es, (w, b))
  {
    RegistryFaithful();
    RegistryFencesOrRefuses(Propose);
    StartSafe();
    RunAccounted(Evolve(Propose), Unfenced, START, es, (inc: Incarnation) => false);
  }
}
