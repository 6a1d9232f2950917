/**
 The order in which the bounded search produces walks, level by level: level n
 holds the partial walks through n+1 switches. Every level, and the walks found
 from it, is shown to be exactly the declarative set, each member once.
 */
module Levels {
  import opened Wire
  import opened Fabric
  import opened Walks

  // ----- the per-query adjacency index -----

  datatype Edge = Edge(link: LinkId, port: PortId, other: LinkEnd, linkState: Byte, portState: Byte)

  function EdgeOf(t: Topology, l: LinkId): Edge
    requires l in t.links
  {
    var r := t.links[l];
    Edge(l, r.port, r.otherEnd, r.state, if r.port in t.ports then t.ports[r.port].state else DOWN)
  }

  predicate EdgeUsable(e: Edge) {
    Traversable(e.linkState) && Traversable(e.portState)
  }

  predicate PortLess(a: PortId, b: PortId) {
    a.sw < b.sw || (a.sw == b.sw && a.index < b.index)
  }

  predicate EdgeLess(a: Edge, b: Edge) {
    PortLess(a.port, b.port) || (a.port == b.port && a.link < b.link)
  }

  predicate EdgesSorted(v: seq<Edge>) {
    forall i, j :: 0 <= i < j < |v| ==> EdgeLess(v[i], v[j])
  }

  type Index = map<SwitchId, seq<Edge>>

  predicate Describes(t: Topology, s: SwitchId, e: Edge) {
    RootedAt(t, e.link, s) && e == EdgeOf(t, e.link)
  }

  /** Each switch's own links, in (port, link) order. */
  predicate ValidIndex(t: Topology, idx: Index) {
    && (forall s :: s in idx ==> EdgesSorted(idx[s]))
    && (forall s, e :: s in idx && e in idx[s] ==> Describes(t, s, e))
    && (forall l :: l in t.links ==> t.links[l].rootSwitch in idx && EdgeOf(t, l) in idx[t.links[l].rootSwitch])
  }

  function EdgesAt(idx: Index, s: SwitchId): seq<Edge> {
    if s in idx then idx[s] else []
  }

  /** The index of a topology is unique, so the order it imposes is deterministic. */
  lemma IndexUnique(t: Topology, a: Index, b: Index, s: SwitchId)
    requires ValidIndex(t, a) && ValidIndex(t, b)
    ensures EdgesAt(a, s) == EdgesAt(b, s)
  {
    var x, y := EdgesAt(a, s), EdgesAt(b, s);
    assert forall e :: e in x ==> e in y;
    assert forall e :: e in y ==> e in x;
    SortedUnique(x, y);
  }

  lemma {:induction false} SortedUnique(x: seq<Edge>, y: seq<Edge>)
    requires EdgesSorted(x) && EdgesSorted(y)
    requires forall e :: e in x <==> e in y
    ensures x == y
  {
    if |y| > 0 { assert y[0] in x; }
    if |x| > 0 {
      assert x[0] in y;
      assert y[0] in x;
      assert x[0] == y[0];
      forall e ensures e in x[1..] <==> e in y[1..] {
        assert e in x[1..] <==> e in x && e != x[0];
        assert e in y[1..] <==> e in y && e != y[0];
      }
      SortedUnique(x[1..], y[1..]);
    }
  }

  // ----- one expansion -----

  predicate Continues(seen: seq<SwitchId>, e: Edge) {
    EdgeUsable(e) && e.other.kind == SWITCH_END && e.other.sw !in seen
  }

  predicate Arrives(dst: DeviceId, e: Edge) {
    EdgeUsable(e) && e.other.kind == DEVICE_END && e.other.device == dst
  }

  /** The partial walks one edge list extends w to. */
  function Onward(seen: seq<SwitchId>, w: Walk, edges: seq<Edge>): seq<Walk> {
    if edges == [] then []
    else
      var e := edges[|edges| - 1];
      Onward(seen, w, edges[..|edges| - 1]) + (if Continues(seen, e) then [w + [e.link]] else [])
  }

  /** The complete walks one edge list finishes w to. */
  function Finish(dst: DeviceId, w: Walk, edges: seq<Edge>): seq<Walk> {
    if edges == [] then []
    else
      var e := edges[|edges| - 1];
      Finish(dst, w, edges[..|edges| - 1]) + (if Arrives(dst, e) then [w + [e.link]] else [])
  }

  function EdgesFrom(t: Topology, idx: Index, w: Walk): seq<Edge> {
    if w == [] then [] else EdgesAt(idx, Enters(t, w, |w| - 1))
  }

  function OnwardAll(t: Topology, idx: Index, ws: seq<Walk>): seq<Walk> {
    if ws == [] then []
    else
      var w := ws[|ws| - 1];
      OnwardAll(t, idx, ws[..|ws| - 1]) + Onward(Switches(t, w), w, EdgesFrom(t, idx, w))
  }

  function FinishAll(t: Topology, idx: Index, dst: DeviceId, ws: seq<Walk>): seq<Walk> {
    if ws == [] then []
    else
      var w := ws[|ws| - 1];
      FinishAll(t, idx, dst, ws[..|ws| - 1]) + Finish(dst, w, EdgesFrom(t, idx, w))
  }

  // ----- levels -----

  /** The source's usable attachments; the order among equal ports is free. */
  predicate ValidSeeds(t: Topology, src: DeviceId, seeds: seq<LinkId>) {
    && Distinct(seeds)
    && (forall l :: l in seeds <==> Usable(t, l) && ToDevice(t, l, src))
    && (forall i, j :: 0 <= i < j < |seeds| && seeds[i] in t.links && seeds[j] in t.links ==>
          !PortLess(t.links[seeds[j]].port, t.links[seeds[i]].port))
  }

  function Singles(seeds: seq<LinkId>): (ws: seq<Walk>)
    ensures |ws| == |seeds| && forall i :: 0 <= i < |seeds| ==> ws[i] == [seeds[i]]
  {
    if seeds == [] then [] else Singles(seeds[..|seeds| - 1]) + [[seeds[|seeds| - 1]]]
  }

  function Level(t: Topology, idx: Index, seeds: seq<LinkId>, n: nat): seq<Walk>
    decreases n
  {
    if n == 0 then Singles(seeds)
    else OnwardAll(t, idx, Level(t, idx, seeds, n - 1))
  }

  /** The walks found from all levels below n, in order. */
  function Found(t: Topology, idx: Index, dst: DeviceId, seeds: seq<LinkId>, n: nat): seq<Walk> {
    if n == 0 then []
    else Found(t, idx, dst, seeds, n - 1) + FinishAll(t, idx, dst, Level(t, idx, seeds, n - 1))
  }

  // ----- membership -----

  lemma {:induction false} OnwardExact(seen: seq<SwitchId>, w: Walk, edges: seq<Edge>, x: Walk)
    ensures x in Onward(seen, w, edges) <==> exists e :: e in edges && Continues(seen, e) && x == w + [e.link]
  {
    if edges != [] {
      var rest, last := edges[..|edges| - 1], edges[|edges| - 1];
      OnwardExact(seen, w, rest, x);
      assert forall e :: e in edges <==> e in rest || e == last;
    }
  }

  lemma {:induction false} FinishExact(dst: DeviceId, w: Walk, edges: seq<Edge>, x: Walk)
    ensures x in Finish(dst, w, edges) <==> exists e :: e in edges && Arrives(dst, e) && x == w + [e.link]
  {
    if edges != [] {
      var rest, last := edges[..|edges| - 1], edges[|edges| - 1];
      FinishExact(dst, w, rest, x);
      assert forall e :: e in edges <==> e in rest || e == last;
    }
  }

  lemma {:induction false} OnwardAllExact(t: Topology, idx: Index, ws: seq<Walk>, x: Walk)
    ensures x in OnwardAll(t, idx, ws) <==>
      exists w :: w in ws && x in Onward(Switches(t, w), w, EdgesFrom(t, idx, w))
  {
    if ws != [] {
      var rest, last := ws[..|ws| - 1], ws[|ws| - 1];
      OnwardAllExact(t, idx, rest, x);
      assert forall w :: w in ws <==> w in rest || w == last;
    }
  }

  lemma {:induction false} FinishAllExact(t: Topology, idx: Index, dst: DeviceId, ws: seq<Walk>, x: Walk)
    ensures x in FinishAll(t, idx, dst, ws) <==>
      exists w :: w in ws && x in Finish(dst, w, EdgesFrom(t, idx, w))
  {
    if ws != [] {
      var rest, last := ws[..|ws| - 1], ws[|ws| - 1];
      FinishAllExact(t, idx, dst, rest, x);
      assert forall w :: w in ws <==> w in rest || w == last;
    }
  }

  /** Extending a partial walk: by one edge of the switch it has reached. */
  lemma ExtendPartial(t: Topology, src: DeviceId, x: Walk)
    requires |x| >= 2
    ensures IsPartial(t, src, x) <==>
      && IsPartial(t, src, Body(x))
      && Usable(t, Last(x)) && ToSwitch(t, Last(x)) && RootedAt(t, Last(x), Enters(t, Body(x), |x| - 2))
    ensures Last(x) in t.links ==> (Simple(t, x) <==> Simple(t, Body(x)) && t.links[Last(x)].otherEnd.sw !in Switches(t, Body(x)))
  {
    var b, n := Body(x), |x| - 1;
    assert forall i :: 0 <= i < n ==> Enters(t, b, i) == Enters(t, x, i);
    assert forall i :: 0 <= i < n ==> (StepOk(t, src, b, i) <==> StepOk(t, src, x, i));
    assert StepOk(t, src, x, n) <==>
      Usable(t, Last(x)) && ToSwitch(t, Last(x)) && RootedAt(t, Last(x), Enters(t, b, n - 1));
    if IsPartial(t, src, x) { assert StepOk(t, src, x, n); }
    assert Switches(t, x) == Switches(t, b) + [Enters(t, x, n)];
  }

  lemma EdgeMeaning(t: Topology, idx: Index, s: SwitchId, e: Edge)
    requires ValidIndex(t, idx)
    ensures e in EdgesAt(idx, s) <==> Describes(t, s, e)
    ensures e in EdgesAt(idx, s) ==> (EdgeUsable(e) <==> Usable(t, e.link))
    ensures e in EdgesAt(idx, s) ==> e.other == t.links[e.link].otherEnd
  {}

  predicate SimplePartial(t: Topology, src: DeviceId, n: nat, x: Walk) {
    |x| == n && IsPartial(t, src, x) && Simple(t, x)
  }

  lemma OnwardSound(t: Topology, idx: Index, src: DeviceId, n: nat, w: Walk, x: Walk)
    requires ValidIndex(t, idx)
    requires n > 0 && SimplePartial(t, src, n, w)
    requires x in Onward(Switches(t, w), w, EdgesFrom(t, idx, w))
    ensures SimplePartial(t, src, n + 1, x)
  {
    var s := Enters(t, w, |w| - 1);
    OnwardExact(Switches(t, w), w, EdgesAt(idx, s), x);
    var e :| e in EdgesAt(idx, s) && Continues(Switches(t, w), e) && x == w + [e.link];
    EdgeMeaning(t, idx, s, e);
    assert Body(x) == w && Last(x) == e.link;
    ExtendPartial(t, src, x);
  }

  lemma OnwardComplete(t: Topology, idx: Index, src: DeviceId, n: nat, x: Walk)
    requires ValidIndex(t, idx)
    requires n > 0 && SimplePartial(t, src, n + 1, x)
    ensures SimplePartial(t, src, n, Body(x))
    ensures x in Onward(Switches(t, Body(x)), Body(x), EdgesFrom(t, idx, Body(x)))
  {
    var w := Body(x);
    ExtendPartial(t, src, x);
    var s, e := Enters(t, w, |w| - 1), EdgeOf(t, Last(x));
    EdgeMeaning(t, idx, s, e);
    assert x == w + [e.link];
    OnwardExact(Switches(t, w), w, EdgesAt(idx, s), x);
  }

  lemma FinishMeaning(t: Topology, idx: Index, dst: DeviceId, w: Walk, x: Walk)
    requires ValidIndex(t, idx) && |w| > 0
    ensures x in Finish(dst, w, EdgesFrom(t, idx, w)) <==>
      |x| == |w| + 1 && Body(x) == w && Exits(t, dst, w, Last(x))
  {
    var s := Enters(t, w, |w| - 1);
    FinishExact(dst, w, EdgesFrom(t, idx, w), x);
    if x in Finish(dst, w, EdgesFrom(t, idx, w)) {
      var e :| e in EdgesAt(idx, s) && Arrives(dst, e) && x == w + [e.link];
      EdgeMeaning(t, idx, s, e);
      assert Body(x) == w && Last(x) == e.link;
    }
    if |x| == |w| + 1 && Body(x) == w && Exits(t, dst, w, Last(x)) {
      var e := EdgeOf(t, Last(x));
      EdgeMeaning(t, idx, s, e);
      assert x == w + [e.link];
    }
  }

  lemma NextLevelExact(t: Topology, idx: Index, src: DeviceId, below: seq<Walk>, n: nat, x: Walk)
    requires ValidIndex(t, idx) && n > 0
    requires forall w :: w in below <==> SimplePartial(t, src, n, w)
    ensures x in OnwardAll(t, idx, below) <==> SimplePartial(t, src, n + 1, x)
  {
    OnwardAllExact(t, idx, below, x);
    if x in OnwardAll(t, idx, below) {
      var w :| w in below && x in Onward(Switches(t, w), w, EdgesFrom(t, idx, w));
      OnwardSound(t, idx, src, n, w, x);
    }
    if SimplePartial(t, src, n + 1, x) {
      OnwardComplete(t, idx, src, n, x);
      assert Body(x) in below;
    }
  }

  /** Level n is exactly the simple partial walks through n+1 switches. */
  lemma {:induction false} LevelExact(t: Topology, idx: Index, src: DeviceId, seeds: seq<LinkId>, n: nat, x: Walk)
    requires ValidIndex(t, idx) && ValidSeeds(t, src, seeds)
    ensures x in Level(t, idx, seeds, n) <==> SimplePartial(t, src, n + 1, x)
    decreases n
  {
    if n == 0 {
      SeedLevel(t, idx, src, seeds, x);
    } else {
      var below := Level(t, idx, seeds, n - 1);
      forall w ensures w in below <==> SimplePartial(t, src, n, w) {
        LevelExact(t, idx, src, seeds, n - 1, w);
      }
      NextLevelExact(t, idx, src, below, n, x);
    }
  }

  lemma SeedLevel(t: Topology, idx: Index, src: DeviceId, seeds: seq<LinkId>, x: Walk)
    requires ValidSeeds(t, src, seeds)
    ensures x in Level(t, idx, seeds, 0) <==> |x| == 1 && IsPartial(t, src, x) && Simple(t, x)
  {
    var ws := Level(t, idx, seeds, 0);
    if x in ws {
      var i :| 0 <= i < |ws| && ws[i] == x;
      assert seeds[i] in seeds;
      assert StepOk(t, src, x, 0);
    }
    if |x| == 1 && IsPartial(t, src, x) {
      assert StepOk(t, src, x, 0);
      var i :| 0 <= i < |seeds| && seeds[i] == x[0];
      assert ws[i] == x;
    }
  }

  /** A simple walk through exactly n switches. */
  predicate TargetOf(t: Topology, src: DeviceId, dst: DeviceId, n: nat, x: Walk) {
    IsWalk(t, src, dst, x) && Simple(t, Body(x)) && Hops(x) == n
  }

  lemma TargetSplit(t: Topology, src: DeviceId, dst: DeviceId, n: nat, x: Walk)
    requires n > 0
    ensures Target(t, src, dst, n, x) <==> Target(t, src, dst, n - 1, x) || TargetOf(t, src, dst, n, x)
  {}

  /** The walks found below level n are exactly the simple walks through at most n switches. */
  lemma FoundExact(t: Topology, idx: Index, src: DeviceId, dst: DeviceId, seeds: seq<LinkId>, n: nat, x: Walk)
    requires ValidIndex(t, idx) && ValidSeeds(t, src, seeds)
    ensures x in Found(t, idx, dst, seeds, n) <==> Target(t, src, dst, n, x)
  {
    FoundExactUpTo(t, idx, src, dst, seeds, 0, n, x);
  }

  lemma {:induction false} FoundExactUpTo(t: Topology, idx: Index, src: DeviceId, dst: DeviceId, seeds: seq<LinkId>, k: nat, n: nat, x: Walk)
    requires ValidIndex(t, idx) && ValidSeeds(t, src, seeds) && k <= n
    requires x in Found(t, idx, dst, seeds, k) <==> Target(t, src, dst, k, x)
    ensures x in Found(t, idx, dst, seeds, n) <==> Target(t, src, dst, n, x)
    decreases n - k
  {
    if k < n {
      FoundSplits(t, idx, src, dst, seeds, k, x);
      FoundExactUpTo(t, idx, src, dst, seeds, k + 1, n, x);
    }
  }

  lemma FoundSplits(t: Topology, idx: Index, src: DeviceId, dst: DeviceId, seeds: seq<LinkId>, n: nat, x: Walk)
    requires ValidIndex(t, idx) && ValidSeeds(t, src, seeds)
    requires x in Found(t, idx, dst, seeds, n) <==> Target(t, src, dst, n, x)
    ensures x in Found(t, idx, dst, seeds, n + 1) <==> Target(t, src, dst, n + 1, x)
  {
    FoundAtLevel(t, idx, src, dst, seeds, n, x);
    TargetSplit(t, src, dst, n + 1, x);
  }

  lemma FoundAtLevel(t: Topology, idx: Index, src: DeviceId, dst: DeviceId, seeds: seq<LinkId>, n: nat, x: Walk)
    requires ValidIndex(t, idx) && ValidSeeds(t, src, seeds)
    ensures x in FinishAll(t, idx, dst, Level(t, idx, seeds, n)) <==>
      TargetOf(t, src, dst, n + 1, x)
  {
    var ws := Level(t, idx, seeds, n);
    forall w ensures w in ws <==> SimplePartial(t, src, n + 1, w) {
      LevelExact(t, idx, src, seeds, n, w);
    }
    FinishedExact(t, idx, src, dst, ws, n + 1, x);
  }

  lemma FinishedExact(t: Topology, idx: Index, src: DeviceId, dst: DeviceId, ws: seq<Walk>, n: nat, x: Walk)
    requires ValidIndex(t, idx) && n > 0
    requires forall w :: w in ws <==> SimplePartial(t, src, n, w)
    ensures x in FinishAll(t, idx, dst, ws) <==> TargetOf(t, src, dst, n, x)
  {
    FinishAllExact(t, idx, dst, ws, x);
    if x in FinishAll(t, idx, dst, ws) {
      var w :| w in ws && x in Finish(dst, w, EdgesFrom(t, idx, w));
      FinishMeaning(t, idx, dst, w, x);
    }
    if TargetOf(t, src, dst, n, x) {
      assert Body(x) in ws;
      FinishMeaning(t, idx, dst, Body(x), x);
    }
  }

  // ----- nothing twice -----

  lemma DistinctConcat<T>(a: seq<T>, b: seq<T>)
    requires Distinct(a) && Distinct(b) && forall x :: x in a ==> x !in b
    ensures Distinct(a + b)
  {
    forall i, j | 0 <= i < j < |a + b| ensures (a + b)[i] != (a + b)[j] {
      if i < |a| <= j {
        assert a[i] in a && b[j - |a|] in b;
      }
    }
  }

  predicate LinksDistinct(edges: seq<Edge>) {
    forall i, j :: 0 <= i < j < |edges| ==> edges[i].link != edges[j].link
  }

  lemma {:induction false} OnwardDistinct(seen: seq<SwitchId>, w: Walk, edges: seq<Edge>)
    requires LinksDistinct(edges)
    ensures Distinct(Onward(seen, w, edges))
  {
    if edges != [] {
      var rest, e := edges[..|edges| - 1], edges[|edges| - 1];
      OnwardDistinct(seen, w, rest);
      forall x | x in Onward(seen, w, rest) ensures x != w + [e.link] {
        OnwardExact(seen, w, rest, x);
        var f :| f in rest && x == w + [f.link];
        assert x[|w|] == f.link;
      }
      DistinctConcat(Onward(seen, w, rest), if Continues(seen, e) then [w + [e.link]] else []);
    }
  }

  lemma {:induction false} FinishDistinct(dst: DeviceId, w: Walk, edges: seq<Edge>)
    requires LinksDistinct(edges)
    ensures Distinct(Finish(dst, w, edges))
  {
    if edges != [] {
      var rest, e := edges[..|edges| - 1], edges[|edges| - 1];
      FinishDistinct(dst, w, rest);
      forall x | x in Finish(dst, w, rest) ensures x != w + [e.link] {
        FinishExact(dst, w, rest, x);
        var f :| f in rest && x == w + [f.link];
        assert x[|w|] == f.link;
      }
      DistinctConcat(Finish(dst, w, rest), if Arrives(dst, e) then [w + [e.link]] else []);
    }
  }

  lemma IndexLinksDistinct(t: Topology, idx: Index, w: Walk)
    requires ValidIndex(t, idx)
    ensures LinksDistinct(EdgesFrom(t, idx, w))
  {
    var v := EdgesFrom(t, idx, w);
    forall i, j | 0 <= i < j < |v| ensures v[i].link != v[j].link {
      assert v[i] in v && v[j] in v && EdgeLess(v[i], v[j]);
    }
  }

  lemma OnwardExtends(seen: seq<SwitchId>, w: Walk, edges: seq<Edge>, x: Walk)
    requires x in Onward(seen, w, edges)
    ensures |x| > 0 && Body(x) == w
  {
    OnwardExact(seen, w, edges, x);
  }

  lemma FinishExtends(dst: DeviceId, w: Walk, edges: seq<Edge>, x: Walk)
    requires x in Finish(dst, w, edges)
    ensures |x| > 0 && Body(x) == w
  {
    FinishExact(dst, w, edges, x);
  }

  lemma {:induction false} OnwardAllDistinct(t: Topology, idx: Index, ws: seq<Walk>)
    requires ValidIndex(t, idx) && Distinct(ws)
    ensures Distinct(OnwardAll(t, idx, ws))
  {
    if ws != [] {
      var rest, w := ws[..|ws| - 1], ws[|ws| - 1];
      var edges := EdgesFrom(t, idx, w);
      OnwardAllDistinct(t, idx, rest);
      IndexLinksDistinct(t, idx, w);
      OnwardDistinct(Switches(t, w), w, edges);
      forall x | x in OnwardAll(t, idx, rest) ensures x !in Onward(Switches(t, w), w, edges) {
        OnwardAllExact(t, idx, rest, x);
        var v :| v in rest && x in Onward(Switches(t, v), v, EdgesFrom(t, idx, v));
        OnwardExtends(Switches(t, v), v, EdgesFrom(t, idx, v), x);
        if x in Onward(Switches(t, w), w, edges) { OnwardExtends(Switches(t, w), w, edges, x); }
      }
      DistinctConcat(OnwardAll(t, idx, rest), Onward(Switches(t, w), w, edges));
    }
  }

  lemma {:induction false} FinishAllDistinct(t: Topology, idx: Index, dst: DeviceId, ws: seq<Walk>)
    requires ValidIndex(t, idx) && Distinct(ws)
    ensures Distinct(FinishAll(t, idx, dst, ws))
  {
    if ws != [] {
      var rest, w := ws[..|ws| - 1], ws[|ws| - 1];
      var edges := EdgesFrom(t, idx, w);
      FinishAllDistinct(t, idx, dst, rest);
      IndexLinksDistinct(t, idx, w);
      FinishDistinct(dst, w, edges);
      forall x | x in FinishAll(t, idx, dst, rest) ensures x !in Finish(dst, w, edges) {
        FinishAllExact(t, idx, dst, rest, x);
        var v :| v in rest && x in Finish(dst, v, EdgesFrom(t, idx, v));
        FinishExtends(dst, v, EdgesFrom(t, idx, v), x);
        if x in Finish(dst, w, edges) { FinishExtends(dst, w, edges, x); }
      }
      DistinctConcat(FinishAll(t, idx, dst, rest), Finish(dst, w, edges));
    }
  }

  lemma {:induction false} LevelDistinct(t: Topology, idx: Index, src: DeviceId, seeds: seq<LinkId>, n: nat)
    requires ValidIndex(t, idx) && ValidSeeds(t, src, seeds)
    ensures Distinct(Level(t, idx, seeds, n))
    decreases n
  {
    if n == 0 {
      var ws := Level(t, idx, seeds, 0);
      forall i, j | 0 <= i < j < |ws| ensures ws[i] != ws[j] {
        assert ws[i][0] == seeds[i] && ws[j][0] == seeds[j];
      }
    } else {
      LevelDistinct(t, idx, src, seeds, n - 1);
      OnwardAllDistinct(t, idx, Level(t, idx, seeds, n - 1));
    }
  }

  predicate Nondecreasing(ws: seq<Walk>) {
    forall i, j :: 0 <= i < j < |ws| ==> |ws[i]| <= |ws[j]|
  }

  lemma AppendLonger(a: seq<Walk>, b: seq<Walk>, n: nat)
    requires Distinct(a) && Nondecreasing(a) && Distinct(b)
    requires forall x :: x in a ==> |x| <= n
    requires forall x :: x in b ==> |x| == n + 1
    ensures Distinct(a + b) && Nondecreasing(a + b)
  {
    DistinctConcat(a, b);
    var ab: seq<Walk> := a + b;
    forall i, j | 0 <= i < j < |ab| ensures |ab[i]| <= |ab[j]| {
      if i < |a| { assert a[i] in a; } else { assert b[i - |a|] in b; }
      if j >= |a| { assert b[j - |a|] in b; }
    }
  }

  predicate InOrder(ws: seq<Walk>) {
    Distinct(ws) && Nondecreasing(ws)
  }

  lemma LevelAppends(t: Topology, idx: Index, src: DeviceId, dst: DeviceId, seeds: seq<LinkId>, n: nat)
    requires ValidIndex(t, idx) && ValidSeeds(t, src, seeds)
    requires InOrder(Found(t, idx, dst, seeds, n))
    ensures InOrder(Found(t, idx, dst, seeds, n + 1))
  {
    var a, level := Found(t, idx, dst, seeds, n), Level(t, idx, seeds, n);
    var b := FinishAll(t, idx, dst, level);
    LevelDistinct(t, idx, src, seeds, n);
    FinishAllDistinct(t, idx, dst, level);
    forall x | x in a ensures |x| <= n + 1 {
      FoundExact(t, idx, src, dst, seeds, n, x);
    }
    forall x | x in b ensures |x| == n + 2 {
      FoundAtLevel(t, idx, src, dst, seeds, n, x);
    }
    AppendLonger(a, b, n + 1);
  }

  /** Every walk is found once, and shorter walks are found first. */
  lemma FoundInOrder(t: Topology, idx: Index, src: DeviceId, dst: DeviceId, seeds: seq<LinkId>, n: nat)
    requires ValidIndex(t, idx) && ValidSeeds(t, src, seeds)
    ensures InOrder(Found(t, idx, dst, seeds, n))
  {
    FoundInOrderUpTo(t, idx, src, dst, seeds, 0, n);
  }

  lemma {:induction false} FoundInOrderUpTo(t: Topology, idx: Index, src: DeviceId, dst: DeviceId, seeds: seq<LinkId>, k: nat, n: nat)
    requires ValidIndex(t, idx) && ValidSeeds(t, src, seeds) && k <= n
    requires InOrder(Found(t, idx, dst, seeds, k))
    ensures InOrder(Found(t, idx, dst, seeds, n))
    decreases n - k
  {
    if k < n {
      LevelAppends(t, idx, src, dst, seeds, k);
      FoundInOrderUpTo(t, idx, src, dst, seeds, k + 1, n);
    }
  }

  lemma FoundAll(t: Topology, idx: Index, src: DeviceId, dst: DeviceId, seeds: seq<LinkId>, n: nat)
    requires ValidIndex(t, idx) && ValidSeeds(t, src, seeds)
    ensures InOrder(Found(t, idx, dst, seeds, n))
    ensures forall w :: w in Found(t, idx, dst, seeds, n) <==> Target(t, src, dst, n, w)
  {
    FoundInOrder(t, idx, src, dst, seeds, n);
    forall w ensures w in Found(t, idx, dst, seeds, n) <==> Target(t, src, dst, n, w) {
      FoundExact(t, idx, src, dst, seeds, n, w);
    }
  }

  /** Once a level is empty, nothing more is found. */
  lemma {:induction false} NothingFurther(t: Topology, idx: Index, dst: DeviceId, seeds: seq<LinkId>, n: nat, m: nat)
    requires n <= m && Level(t, idx, seeds, n) == []
    ensures Found(t, idx, dst, seeds, m) == Found(t, idx, dst, seeds, n)
    decreases m - n
  {
    if n < m {
      EmptyLevel(t, idx, dst, seeds, n);
      NothingFurther(t, idx, dst, seeds, n + 1, m);
    }
  }

  lemma EmptyLevel(t: Topology, idx: Index, dst: DeviceId, seeds: seq<LinkId>, n: nat)
    requires Level(t, idx, seeds, n) == []
    ensures Level(t, idx, seeds, n + 1) == []
    ensures Found(t, idx, dst, seeds, n + 1) == Found(t, idx, dst, seeds, n)
  {
    assert FinishAll(t, idx, dst, Level(t, idx, seeds, n)) == [];
  }
}
