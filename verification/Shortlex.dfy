/**
 The level order is a shortlex order: shorter walks first, then link by link, the
 first link by its place among the seeds and every later one by (port, link).
 */
module Shortlex {
  import opened Fabric
  import opened Walks
  import opened Levels

  // ----- the order -----

  predicate SeedBefore(seeds: seq<LinkId>, k: LinkId, l: LinkId) {
    exists i, j :: 0 <= i < j < |seeds| && seeds[i] == k && seeds[j] == l
  }

  /** The order of a switch's own links: by port, then by link. */
  predicate LinkBefore(t: Topology, k: LinkId, l: LinkId) {
    k in t.links && l in t.links && EdgeLess(EdgeOf(t, k), EdgeOf(t, l))
  }

  /** The walks agree on k links and part at the next one. */
  predicate PartAt(x: Walk, y: Walk, k: nat) {
    k < |x| && k < |y| && x[..k] == y[..k] && x[k] != y[k]
  }

  predicate EarlierAt(t: Topology, seeds: seq<LinkId>, x: Walk, y: Walk, k: nat) {
    PartAt(x, y, k) && if k == 0 then SeedBefore(seeds, x[0], y[0]) else LinkBefore(t, x[k], y[k])
  }

  predicate Lex(t: Topology, seeds: seq<LinkId>, x: Walk, y: Walk) {
    exists k :: 0 <= k < |x| && EarlierAt(t, seeds, x, y, k)
  }

  predicate Before(t: Topology, seeds: seq<LinkId>, x: Walk, y: Walk) {
    |x| < |y| || (|x| == |y| && Lex(t, seeds, x, y))
  }

  predicate InLexOrder(t: Topology, seeds: seq<LinkId>, n: nat, ws: seq<Walk>) {
    && (forall w :: w in ws ==> |w| == n)
    && forall i, j :: 0 <= i < j < |ws| ==> Lex(t, seeds, ws[i], ws[j])
  }

  predicate InShortlexOrder(t: Topology, seeds: seq<LinkId>, ws: seq<Walk>) {
    forall i, j :: 0 <= i < j < |ws| ==> Before(t, seeds, ws[i], ws[j])
  }

  // ----- one level -----

  lemma SinglesInOrder(t: Topology, seeds: seq<LinkId>)
    requires Distinct(seeds)
    ensures InLexOrder(t, seeds, 1, Singles(seeds))
  {
    var ws := Singles(seeds);
    forall i, j | 0 <= i < j < |ws| ensures Lex(t, seeds, ws[i], ws[j]) {
      assert EarlierAt(t, seeds, ws[i], ws[j], 0);
    }
  }

  lemma AppendInOrder(t: Topology, seeds: seq<LinkId>, n: nat, a: seq<Walk>, b: seq<Walk>)
    requires InLexOrder(t, seeds, n, a) && InLexOrder(t, seeds, n, b)
    requires forall x, y :: x in a && y in b ==> Lex(t, seeds, x, y)
    ensures InLexOrder(t, seeds, n, a + b)
  {
    var r := a + b;
    forall i, j | 0 <= i < j < |r| ensures Lex(t, seeds, r[i], r[j]) {
      if i < |a| <= j { assert a[i] in a && b[j - |a|] in b; }
    }
  }

  lemma LexExtends(t: Topology, seeds: seq<LinkId>, x: Walk, y: Walk)
    requires |x| > 0 && |y| > 0 && Lex(t, seeds, Body(x), Body(y))
    ensures Lex(t, seeds, x, y)
  {
    var k :| 0 <= k < |Body(x)| && EarlierAt(t, seeds, Body(x), Body(y), k);
    assert x[..k] == Body(x)[..k] && y[..k] == Body(y)[..k];
    assert EarlierAt(t, seeds, x, y, k);
  }

  /** Two extensions of one walk are ordered as the edges they take. */
  lemma LexByEdge(t: Topology, seeds: seq<LinkId>, w: Walk, d: Edge, e: Edge)
    requires |w| > 0 && d.link in t.links && e.link in t.links && d == EdgeOf(t, d.link) && e == EdgeOf(t, e.link) && EdgeLess(d, e)
    ensures Lex(t, seeds, w + [d.link], w + [e.link])
  {
    var x, y := w + [d.link], w + [e.link];
    assert x[..|w|] == w == y[..|w|];
    assert EarlierAt(t, seeds, x, y, |w|);
  }

  predicate EdgesKnown(t: Topology, edges: seq<Edge>) {
    EdgesSorted(edges) && forall e :: e in edges ==> e.link in t.links && e == EdgeOf(t, e.link)
  }

  lemma IndexKnown(t: Topology, idx: Index, w: Walk)
    requires ValidIndex(t, idx)
    ensures EdgesKnown(t, EdgesFrom(t, idx, w))
  {}

  lemma {:induction false} OnwardInOrder(t: Topology, seeds: seq<LinkId>, seen: seq<SwitchId>, w: Walk, edges: seq<Edge>)
    requires |w| > 0 && EdgesKnown(t, edges)
    ensures InLexOrder(t, seeds, |w| + 1, Onward(seen, w, edges))
  {
    if edges != [] {
      var n, e := |edges| - 1, edges[|edges| - 1];
      var a := Onward(seen, w, edges[..n]);
      OnwardInOrder(t, seeds, seen, w, edges[..n]);
      forall x | x in a ensures Lex(t, seeds, x, w + [e.link]) {
        OnwardExact(seen, w, edges[..n], x);
        var d :| d in edges[..n] && x == w + [d.link];
        LexByEdge(t, seeds, w, d, e);
      }
      AppendInOrder(t, seeds, |w| + 1, a, if Continues(seen, e) then [w + [e.link]] else []);
    }
  }

  lemma {:induction false} FinishInOrder(t: Topology, seeds: seq<LinkId>, dst: DeviceId, w: Walk, edges: seq<Edge>)
    requires |w| > 0 && EdgesKnown(t, edges)
    ensures InLexOrder(t, seeds, |w| + 1, Finish(dst, w, edges))
  {
    if edges != [] {
      var n, e := |edges| - 1, edges[|edges| - 1];
      var a := Finish(dst, w, edges[..n]);
      FinishInOrder(t, seeds, dst, w, edges[..n]);
      forall x | x in a ensures Lex(t, seeds, x, w + [e.link]) {
        FinishExact(dst, w, edges[..n], x);
        var d :| d in edges[..n] && x == w + [d.link];
        LexByEdge(t, seeds, w, d, e);
      }
      AppendInOrder(t, seeds, |w| + 1, a, if Arrives(dst, e) then [w + [e.link]] else []);
    }
  }

  lemma {:induction false} OnwardAllInOrder(t: Topology, idx: Index, seeds: seq<LinkId>, n: nat, ws: seq<Walk>)
    requires ValidIndex(t, idx) && n > 0 && InLexOrder(t, seeds, n, ws)
    ensures InLexOrder(t, seeds, n + 1, OnwardAll(t, idx, ws))
  {
    if ws != [] {
      var m, w := |ws| - 1, ws[|ws| - 1];
      var a, b := OnwardAll(t, idx, ws[..m]), Onward(Switches(t, w), w, EdgesFrom(t, idx, w));
      assert w in ws;
      OnwardAllInOrder(t, idx, seeds, n, ws[..m]);
      IndexKnown(t, idx, w);
      OnwardInOrder(t, seeds, Switches(t, w), w, EdgesFrom(t, idx, w));
      forall x, y | x in a && y in b ensures Lex(t, seeds, x, y) {
        OnwardAllExact(t, idx, ws[..m], x);
        var v :| v in ws[..m] && x in Onward(Switches(t, v), v, EdgesFrom(t, idx, v));
        OnwardExtends(Switches(t, v), v, EdgesFrom(t, idx, v), x);
        OnwardExtends(Switches(t, w), w, EdgesFrom(t, idx, w), y);
        LexExtends(t, seeds, x, y);
      }
      AppendInOrder(t, seeds, n + 1, a, b);
    }
  }

  lemma {:induction false} FinishAllInOrder(t: Topology, idx: Index, seeds: seq<LinkId>, dst: DeviceId, n: nat, ws: seq<Walk>)
    requires ValidIndex(t, idx) && n > 0 && InLexOrder(t, seeds, n, ws)
    ensures InLexOrder(t, seeds, n + 1, FinishAll(t, idx, dst, ws))
  {
    if ws != [] {
      var m, w := |ws| - 1, ws[|ws| - 1];
      var a, b := FinishAll(t, idx, dst, ws[..m]), Finish(dst, w, EdgesFrom(t, idx, w));
      assert w in ws;
      FinishAllInOrder(t, idx, seeds, dst, n, ws[..m]);
      IndexKnown(t, idx, w);
      FinishInOrder(t, seeds, dst, w, EdgesFrom(t, idx, w));
      forall x, y | x in a && y in b ensures Lex(t, seeds, x, y) {
        FinishAllExact(t, idx, dst, ws[..m], x);
        var v :| v in ws[..m] && x in Finish(dst, v, EdgesFrom(t, idx, v));
        FinishExtends(dst, v, EdgesFrom(t, idx, v), x);
        FinishExtends(dst, w, EdgesFrom(t, idx, w), y);
        LexExtends(t, seeds, x, y);
      }
      AppendInOrder(t, seeds, n + 1, a, b);
    }
  }

  // ----- all levels -----

  lemma {:induction false} LevelInOrder(t: Topology, idx: Index, seeds: seq<LinkId>, n: nat)
    requires ValidIndex(t, idx) && Distinct(seeds)
    ensures InLexOrder(t, seeds, n + 1, Level(t, idx, seeds, n))
    decreases n
  {
    if n == 0 {
      SinglesInOrder(t, seeds);
    } else {
      LevelInOrder(t, idx, seeds, n - 1);
      OnwardAllInOrder(t, idx, seeds, n, Level(t, idx, seeds, n - 1));
    }
  }

  lemma AppendLevel(t: Topology, seeds: seq<LinkId>, n: nat, a: seq<Walk>, b: seq<Walk>)
    requires InShortlexOrder(t, seeds, a) && InLexOrder(t, seeds, n + 1, b) && forall x :: x in a ==> |x| <= n
    ensures InShortlexOrder(t, seeds, a + b)
  {
    var r := a + b;
    forall i, j | 0 <= i < j < |r| ensures Before(t, seeds, r[i], r[j]) {
      if i < |a| { assert a[i] in a; } else { assert b[i - |a|] in b; }
      if j >= |a| { assert b[j - |a|] in b; }
    }
  }

  lemma {:induction false} FoundUpTo(t: Topology, idx: Index, src: DeviceId, dst: DeviceId, seeds: seq<LinkId>, k: nat, n: nat)
    requires ValidIndex(t, idx) && ValidSeeds(t, src, seeds) && k <= n
    requires InShortlexOrder(t, seeds, Found(t, idx, dst, seeds, k))
    ensures InShortlexOrder(t, seeds, Found(t, idx, dst, seeds, n))
    decreases n - k
  {
    if k < n {
      NextInOrder(t, idx, src, dst, seeds, k);
      FoundUpTo(t, idx, src, dst, seeds, k + 1, n);
    }
  }

  lemma NextInOrder(t: Topology, idx: Index, src: DeviceId, dst: DeviceId, seeds: seq<LinkId>, n: nat)
    requires ValidIndex(t, idx) && ValidSeeds(t, src, seeds)
    requires InShortlexOrder(t, seeds, Found(t, idx, dst, seeds, n))
    ensures InShortlexOrder(t, seeds, Found(t, idx, dst, seeds, n + 1))
  {
    LevelInOrder(t, idx, seeds, n);
    FinishAllInOrder(t, idx, seeds, dst, n + 1, Level(t, idx, seeds, n));
    forall x | x in Found(t, idx, dst, seeds, n) ensures |x| <= n + 1 { FoundExact(t, idx, src, dst, seeds, n, x); }
    AppendLevel(t, seeds, n + 1, Found(t, idx, dst, seeds, n), FinishAll(t, idx, dst, Level(t, idx, seeds, n)));
  }

  /** The search finds walks in shortlex order. */
  lemma FoundInShortlex(t: Topology, idx: Index, src: DeviceId, dst: DeviceId, seeds: seq<LinkId>, n: nat)
    requires ValidIndex(t, idx) && ValidSeeds(t, src, seeds)
    ensures InShortlexOrder(t, seeds, Found(t, idx, dst, seeds, n))
  {
    FoundUpTo(t, idx, src, dst, seeds, 0, n);
  }

  // ----- an order, strictly -----

  lemma PartOnce(x: Walk, y: Walk, j: nat, k: nat)
    requires PartAt(x, y, j) && PartAt(y, x, k)
    ensures j == k
  {}

  lemma SeedBeforeOnce(seeds: seq<LinkId>, k: LinkId, l: LinkId)
    requires Distinct(seeds) && SeedBefore(seeds, k, l)
    ensures !SeedBefore(seeds, l, k)
  {}

  lemma BeforeOnce(t: Topology, seeds: seq<LinkId>, x: Walk, y: Walk)
    requires Distinct(seeds) && Before(t, seeds, x, y)
    ensures !Before(t, seeds, y, x) && x != y
  {
    if |x| == |y| {
      var k :| 0 <= k < |x| && EarlierAt(t, seeds, x, y, k);
      forall j | 0 <= j < |y| ensures !EarlierAt(t, seeds, y, x, j) {
        if PartAt(y, x, j) {
          PartOnce(x, y, k, j);
          if k == 0 { SeedBeforeOnce(seeds, x[0], y[0]); }
        }
      }
    }
  }

  /** In a list in shortlex order, earlier places and smaller walks are the same. */
  lemma PlacesAreOrder(t: Topology, seeds: seq<LinkId>, ws: seq<Walk>, i: nat, j: nat)
    requires Distinct(seeds) && InShortlexOrder(t, seeds, ws) && i < |ws| && j < |ws|
    ensures i < j <==> Before(t, seeds, ws[i], ws[j])
  {
    if j < i { BeforeOnce(t, seeds, ws[j], ws[i]); }
    if i == j && Before(t, seeds, ws[i], ws[j]) { BeforeOnce(t, seeds, ws[i], ws[j]); }
  }

  /** A smaller port is a smaller seed. */
  lemma PortDecides(t: Topology, src: DeviceId, seeds: seq<LinkId>, k: LinkId, l: LinkId)
    requires ValidSeeds(t, src, seeds) && k in seeds && l in seeds
    requires PortLess(t.links[k].port, t.links[l].port)
    ensures SeedBefore(seeds, k, l)
  {
    var i :| 0 <= i < |seeds| && seeds[i] == k;
    var j :| 0 <= j < |seeds| && seeds[j] == l;
  }

  // ----- sources with one link at each port -----

  /** No two usable links attach the source to one port. */
  predicate SinglyAttached(t: Topology, src: DeviceId) {
    forall k, l :: Usable(t, k) && ToDevice(t, k, src) && Usable(t, l) && ToDevice(t, l, src) && t.links[k].port == t.links[l].port ==> k == l
  }

  /** The same order without the seeds: shorter first, then by (port, link), link by link. */
  predicate Ahead(t: Topology, x: Walk, y: Walk) {
    |x| < |y| || (|x| == |y| && exists k :: 0 <= k < |x| && PartAt(x, y, k) && LinkBefore(t, x[k], y[k]))
  }

  lemma SeedIsLinkOrder(t: Topology, src: DeviceId, seeds: seq<LinkId>, k: LinkId, l: LinkId)
    requires SinglyAttached(t, src) && ValidSeeds(t, src, seeds) && k in seeds && l in seeds && k != l
    ensures SeedBefore(seeds, k, l) <==> LinkBefore(t, k, l)
  {
    if LinkBefore(t, k, l) { PortDecides(t, src, seeds, k, l); }
    if SeedBefore(seeds, k, l) && !LinkBefore(t, k, l) {
      SeedBeforeOnce(seeds, k, l);
      PortDecides(t, src, seeds, l, k);
      assert false;
    }
  }

  lemma StartsAtSeed(t: Topology, src: DeviceId, dst: DeviceId, seeds: seq<LinkId>, w: Walk)
    requires ValidSeeds(t, src, seeds) && IsWalk(t, src, dst, w)
    ensures w[0] in seeds
  {
    assert StepOk(t, src, Body(w), 0);
  }

  lemma BeforeIsAhead(t: Topology, src: DeviceId, dst: DeviceId, seeds: seq<LinkId>, x: Walk, y: Walk)
    requires SinglyAttached(t, src) && ValidSeeds(t, src, seeds) && IsWalk(t, src, dst, x) && IsWalk(t, src, dst, y)
    ensures Before(t, seeds, x, y) <==> Ahead(t, x, y)
  {
    StartsAtSeed(t, src, dst, seeds, x);
    StartsAtSeed(t, src, dst, seeds, y);
    if x[0] != y[0] { SeedIsLinkOrder(t, src, seeds, x[0], y[0]); }
    forall k | 0 <= k < |x| && PartAt(x, y, k) ensures EarlierAt(t, seeds, x, y, k) <==> LinkBefore(t, x[k], y[k]) {}
  }

  /** Walks with one first link are ordered whatever the seeds. */
  lemma BeforeSameStart(t: Topology, seeds: seq<LinkId>, x: Walk, y: Walk)
    requires |x| > 0 && |y| > 0 && x[0] == y[0]
    ensures Before(t, seeds, x, y) <==> Ahead(t, x, y)
  {
    forall k | 0 <= k < |x| && PartAt(x, y, k) ensures EarlierAt(t, seeds, x, y, k) <==> LinkBefore(t, x[k], y[k]) {}
  }

  // ----- the freedom that is left -----

  /** The link comes before every other one of its port. */
  predicate Leads(t: Topology, seeds: seq<LinkId>, l: LinkId) {
    l in t.links && forall k :: k in seeds && k in t.links && k != l && t.links[k].port == t.links[l].port ==> SeedBefore(seeds, l, k)
  }

  lemma {:induction false} FirstOfPort(t: Topology, seeds: seq<LinkId>, l: LinkId) returns (i: nat)
    requires l in seeds && forall k :: k in seeds ==> k in t.links
    ensures i < |seeds| && t.links[seeds[i]].port == t.links[l].port
    ensures forall j :: 0 <= j < i ==> t.links[seeds[j]].port != t.links[l].port
  {
    assert seeds[0] in seeds;
    if t.links[seeds[0]].port == t.links[l].port {
      i := 0;
    } else {
      assert seeds == [seeds[0]] + seeds[1..];
      i := FirstOfPort(t, seeds[1..], l);
      i := i + 1;
    }
  }

  lemma SwapMembers<T>(s: seq<T>, i: nat, j: nat, r: seq<T>)
    requires i < |s| && j < |s| && r == s[i := s[j]][j := s[i]] && Distinct(s)
    ensures Distinct(r) && forall x :: x in r <==> x in s
  {
    forall x | x in s ensures x in r {
      var k :| 0 <= k < |s| && s[k] == x;
      assert r[if k == i then j else if k == j then i else k] == x;
    }
  }

  /** Any attachment may come first at its port. */
  lemma Promoted(t: Topology, src: DeviceId, seeds: seq<LinkId>, l: LinkId) returns (r: seq<LinkId>)
    requires ValidSeeds(t, src, seeds) && l in seeds
    ensures ValidSeeds(t, src, r) && Leads(t, r, l)
  {
    var i := FirstOfPort(t, seeds, l);
    var j :| 0 <= j < |seeds| && seeds[j] == l;
    r := seeds[i := l][j := seeds[i]];
    SwapMembers(seeds, i, j, r);
    assert forall k :: 0 <= k < |seeds| ==> seeds[k] in seeds && t.links[r[k]].port == t.links[seeds[k]].port;
    forall k | k in r && k != l && t.links[k].port == t.links[l].port ensures SeedBefore(r, l, k) {
      var n :| 0 <= n < |r| && r[n] == k;
      assert r[i] == l;
    }
  }
}
