/**
 Walks through the fabric, declaratively: a walk is the sequence of links it
 uses. The first link is a half that attaches the source to the switch entered
 there; each further link is rooted at the switch the walk has reached.
 */
module Walks {
  import opened Wire
  import opened Fabric

  type Walk = seq<LinkId>

  predicate Traversable(s: Byte) {
    s == UP || s == DEGRADED
  }

  /** A link can carry traffic when it and its port are UP or DEGRADED. */
  predicate Usable(t: Topology, l: LinkId) {
    && l in t.links
    && Traversable(t.links[l].state)
    && t.links[l].port in t.ports
    && Traversable(t.ports[t.links[l].port].state)
  }

  predicate ToDevice(t: Topology, l: LinkId, d: DeviceId) {
    l in t.links && t.links[l].otherEnd.kind == DEVICE_END && t.links[l].otherEnd.device == d
  }

  predicate ToSwitch(t: Topology, l: LinkId) {
    l in t.links && t.links[l].otherEnd.kind == SWITCH_END
  }

  predicate RootedAt(t: Topology, l: LinkId, s: SwitchId) {
    l in t.links && t.links[l].rootSwitch == s
  }

  /** The switch the walk is in after its link i. */
  function Enters(t: Topology, w: Walk, i: nat): SwitchId
    requires i < |w|
  {
    if w[i] !in t.links then 0
    else if i == 0 then t.links[w[0]].port.sw
    else t.links[w[i]].otherEnd.sw
  }

  function Switches(t: Topology, w: Walk): (s: seq<SwitchId>)
    ensures |s| == |w|
    ensures forall i :: 0 <= i < |w| ==> s[i] == Enters(t, w, i)
  {
    seq(|w|, i requires 0 <= i < |w| => Enters(t, w, i))
  }

  /** Link i of a partial walk is usable and continues from where link i-1 arrived. */
  predicate StepOk(t: Topology, src: DeviceId, w: Walk, i: nat)
    requires i < |w|
  {
    && Usable(t, w[i])
    && (i == 0 ==> ToDevice(t, w[0], src))
    && (i > 0 ==> ToSwitch(t, w[i]) && RootedAt(t, w[i], Enters(t, w, i - 1)))
  }

  /** A walk from the source that has not left the switches yet. */
  predicate IsPartial(t: Topology, src: DeviceId, w: Walk) {
    |w| > 0 && forall i :: 0 <= i < |w| ==> StepOk(t, src, w, i)
  }

  predicate Distinct<T(==)>(s: seq<T>) {
    forall i, j :: 0 <= i < j < |s| ==> s[i] != s[j]
  }

  predicate Simple(t: Topology, w: Walk) {
    Distinct(Switches(t, w))
  }

  predicate Exits(t: Topology, dst: DeviceId, w: Walk, l: LinkId)
    requires |w| > 0
  {
    Usable(t, l) && ToDevice(t, l, dst) && RootedAt(t, l, Enters(t, w, |w| - 1))
  }

  function Body(w: Walk): Walk
    requires |w| > 0
  {
    w[..|w| - 1]
  }

  function Last(w: Walk): LinkId
    requires |w| > 0
  {
    w[|w| - 1]
  }

  /** A usable walk from src to dst; it may revisit switches. */
  predicate IsWalk(t: Topology, src: DeviceId, dst: DeviceId, w: Walk) {
    |w| >= 2 && IsPartial(t, src, Body(w)) && Exits(t, dst, Body(w), Last(w))
  }

  /** The number of switches a complete walk passes through. */
  function Hops(w: Walk): int {
    |w| - 1
  }

  /** What a search through at most depth switches looks for. */
  predicate Target(t: Topology, src: DeviceId, dst: DeviceId, depth: nat, w: Walk) {
    IsWalk(t, src, dst, w) && Simple(t, Body(w)) && Hops(w) <= depth
  }

  // ----- loops can be cut out -----

  function Cut(w: Walk, i: nat, j: nat): (c: Walk)
    requires i < j < |w|
    ensures |c| == |w| - (j - i)
    ensures forall k :: 0 <= k < |c| ==> c[k] == w[if k <= i then k else k + j - i]
  {
    w[..i + 1] + w[j + 1..]
  }

  lemma CutStep(t: Topology, src: DeviceId, w: Walk, i: nat, j: nat, c: Walk, k: nat)
    requires IsPartial(t, src, w)
    requires i < j < |w| && Enters(t, w, i) == Enters(t, w, j)
    requires c == Cut(w, i, j) && k < |c|
    ensures Enters(t, c, k) == Enters(t, w, if k <= i then k else k + j - i)
    ensures StepOk(t, src, c, k)
  {
    var m := if k <= i then k else k + j - i;
    assert c[k] == w[m] && StepOk(t, src, w, m);
    if k > 0 {
      assert c[k - 1] == w[if k - 1 <= i then k - 1 else k - 1 + j - i];
    }
  }

  /** Cutting the stretch between two visits of one switch leaves a partial walk. */
  lemma CutPartial(t: Topology, src: DeviceId, w: Walk, i: nat, j: nat, c: Walk)
    requires IsPartial(t, src, w)
    requires i < j < |w| && Enters(t, w, i) == Enters(t, w, j)
    requires c == Cut(w, i, j)
    ensures IsPartial(t, src, c) && Enters(t, c, |c| - 1) == Enters(t, w, |w| - 1)
  {
    forall k | 0 <= k < |c| ensures StepOk(t, src, c, k) {
      CutStep(t, src, w, i, j, c, k);
    }
    CutStep(t, src, w, i, j, c, |c| - 1);
  }

  /** Every partial walk has a simple one, no longer, that reaches the same switch. */
  lemma {:induction false} Excise(t: Topology, src: DeviceId, w: Walk) returns (c: Walk)
    requires IsPartial(t, src, w)
    ensures IsPartial(t, src, c) && Simple(t, c) && |c| <= |w|
    ensures Enters(t, c, |c| - 1) == Enters(t, w, |w| - 1)
    decreases |w|
  {
    if Simple(t, w) {
      c := w;
    } else {
      var s := Switches(t, w);
      var i, j :| 0 <= i < j < |s| && s[i] == s[j];
      CutPartial(t, src, w, i, j, Cut(w, i, j));
      c := Excise(t, src, Cut(w, i, j));
    }
  }

  /** Within any depth, a usable walk exists exactly when a simple one does. */
  lemma SimpleWalkSuffices(t: Topology, src: DeviceId, dst: DeviceId, depth: nat)
    ensures (exists w :: IsWalk(t, src, dst, w) && Hops(w) <= depth) <==> (exists w :: Target(t, src, dst, depth, w))
  {
    if w :| IsWalk(t, src, dst, w) && Hops(w) <= depth {
      var b := Excise(t, src, Body(w));
      var c := b + [Last(w)];
      assert Body(c) == b && Last(c) == Last(w);
      assert Target(t, src, dst, depth, c);
    }
  }

  /** With integrity, every switch a walk passes through exists and is the root of its exits. */
  lemma WalkStaysInside(t: Topology, src: DeviceId, w: Walk, i: nat)
    requires Integrity(t) && IsPartial(t, src, w) && i < |w|
    ensures Enters(t, w, i) in t.switches
    ensures i + 1 < |w| ==> w[i + 1] in t.links && t.links[w[i + 1]].rootSwitch == t.links[w[i + 1]].port.sw == Enters(t, w, i)
  {
    assert StepOk(t, src, w, i);
    assert LinkSound(t, t.links[w[i]]);
    if i + 1 < |w| {
      assert StepOk(t, src, w, i + 1);
      assert LinkSound(t, t.links[w[i + 1]]);
    }
  }
}
