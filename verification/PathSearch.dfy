/** The imperative search: build the index, seed the frontier, drain it in FIFO order. */
module PathSearch {
  import opened Fabric
  import opened Walks
  import opened Levels
  import opened Sorting
  import opened Search

  // ----- the index -----

  predicate EdgeLeq(a: Edge, b: Edge) {
    !EdgeLess(b, a)
  }

  predicate DeviceEdgeLeq(a: Edge, b: Edge) {
    a.other.device < b.other.device || (a.other.device == b.other.device && !PortLess(b.port, a.port))
  }

  lemma OrdersAreTotal()
    ensures TotalPreorder(EdgeLeq) && TotalPreorder(DeviceEdgeLeq)
  {}

  method SortEdges(t: Topology, s: SwitchId, v: seq<Edge>) returns (r: seq<Edge>)
    requires Distinct(v) && forall e :: e in v ==> Describes(t, s, e)
    ensures EdgesSorted(r) && forall e :: e in r <==> e in v
  {
    OrdersAreTotal();
    r := Sort(EdgeLeq, v);
    SameElements(v, r);
    DistinctPermutes(v, r);
    forall i, j | 0 <= i < j < |r| ensures EdgeLess(r[i], r[j]) {
      assert r[i] in v && r[j] in v && r[i] != r[j] && EdgeLeq(r[i], r[j]);
      assert r[i].link != r[j].link;
    }
  }

  /** Every link, filed under the switch it is rooted at. */
  method FileEdges(t: Topology) returns (raw: Index)
    ensures forall s :: s in raw ==> Distinct(raw[s]) && forall e :: e in raw[s] ==> Describes(t, s, e)
    ensures forall l :: l in t.links ==> t.links[l].rootSwitch in raw && EdgeOf(t, l) in raw[t.links[l].rootSwitch]
  {
    raw := map[];
    var todo := t.links.Keys;
    while todo != {}
      invariant todo <= t.links.Keys
      invariant forall s :: s in raw ==> Distinct(raw[s])
      invariant forall s, e :: s in raw && e in raw[s] ==> Describes(t, s, e) && e.link !in todo
      invariant forall l :: l in t.links && l !in todo ==>
        t.links[l].rootSwitch in raw && EdgeOf(t, l) in raw[t.links[l].rootSwitch]
    {
      var l :| l in todo;
      var s, e := t.links[l].rootSwitch, EdgeOf(t, l);
      ghost var before := raw;
      raw := raw[s := EdgesAt(raw, s) + [e]];
      todo := todo - {l};
      assert forall k :: k in before && k != s ==> raw[k] == before[k];
      assert forall x :: x in raw[s] <==> x in EdgesAt(before, s) || x == e;
      DistinctConcat(EdgesAt(before, s), [e]);
    }
  }

  method BuildIndex(t: Topology) returns (idx: Index)
    ensures ValidIndex(t, idx)
  {
    var raw := FileEdges(t);
    idx := map[];
    var todo := raw.Keys;
    while todo != {}
      invariant todo <= raw.Keys && idx.Keys == raw.Keys - todo
      invariant forall s :: s in idx ==> EdgesSorted(idx[s]) && forall e :: e in idx[s] <==> e in raw[s]
    {
      var s :| s in todo;
      var v := SortEdges(t, s, raw[s]);
      idx := idx[s := v];
      todo := todo - {s};
    }
  }

  // ----- the seeds -----

  function DeviceEnds(v: seq<Edge>): (r: seq<Edge>)
    ensures forall e :: e in r <==> e in v && e.other.kind == DEVICE_END
    ensures Distinct(v) ==> Distinct(r)
  {
    if v == [] then []
    else
      var rest, last := v[..|v| - 1], v[|v| - 1];
      assert v == rest + [last];
      DeviceEnds(rest) + (if last.other.kind == DEVICE_END then [last] else [])
  }

  predicate IsDeviceEdge(t: Topology, e: Edge) {
    e.link in t.links && e == EdgeOf(t, e.link) && e.other.kind == DEVICE_END
  }

  method DeviceEdges(t: Topology, idx: Index) returns (v: seq<Edge>)
    requires ValidIndex(t, idx)
    ensures Distinct(v) && SortedBy(DeviceEdgeLeq, v)
    ensures forall e :: e in v <==> IsDeviceEdge(t, e)
  {
    var raw: seq<Edge> := [];
    var todo := idx.Keys;
    while todo != {}
      invariant todo <= idx.Keys
      invariant Distinct(raw)
      invariant forall e :: e in raw <==> IsDeviceEdge(t, e) && t.links[e.link].rootSwitch !in todo
    {
      var s :| s in todo;
      var more := DeviceEnds(idx[s]);
      IndexHolds(t, idx, s);
      DistinctConcat(raw, more);
      raw := raw + more;
      todo := todo - {s};
    }
    OrdersAreTotal();
    v := Sort(DeviceEdgeLeq, raw);
    SameElements(raw, v);
    DistinctPermutes(raw, v);
  }

  lemma IndexHolds(t: Topology, idx: Index, s: SwitchId)
    requires ValidIndex(t, idx) && s in idx
    ensures Distinct(idx[s])
    ensures forall e :: e in idx[s] <==> Describes(t, s, e)
  {
    forall i, j | 0 <= i < j < |idx[s]| ensures idx[s][i] != idx[s][j] {
      assert EdgeLess(idx[s][i], idx[s][j]);
    }
    forall e ensures e in idx[s] <==> Describes(t, s, e) {
      EdgeMeaning(t, idx, s, e);
    }
  }

  predicate IsSeed(src: DeviceId, e: Edge) {
    e.other.device == src && EdgeUsable(e)
  }

  function SeedLinks(src: DeviceId, v: seq<Edge>): seq<LinkId> {
    if v == [] then []
    else
      var last := v[|v| - 1];
      SeedLinks(src, v[..|v| - 1]) + (if IsSeed(src, last) then [last.link] else [])
  }

  lemma {:induction false} SeedLinksExact(src: DeviceId, v: seq<Edge>, l: LinkId)
    ensures l in SeedLinks(src, v) <==> exists e :: e in v && IsSeed(src, e) && e.link == l
  {
    if v != [] {
      var rest, last := v[..|v| - 1], v[|v| - 1];
      SeedLinksExact(src, rest, l);
      assert forall e :: e in v <==> e in rest || e == last;
    }
  }

  lemma {:induction false} SeedLinksOrdered(t: Topology, src: DeviceId, v: seq<Edge>)
    requires Distinct(v) && SortedBy(DeviceEdgeLeq, v)
    requires forall e :: e in v ==> IsDeviceEdge(t, e)
    ensures Distinct(SeedLinks(src, v)) && PortsAscend(t, SeedLinks(src, v))
  {
    if v != [] {
      var rest, e := v[..|v| - 1], v[|v| - 1];
      SeedLinksOrdered(t, src, rest);
      var ls := SeedLinks(src, rest);
      assert e in v;
      if IsSeed(src, e) {
        forall l | l in ls ensures l != e.link && l in t.links && !PortLess(e.port, t.links[l].port) {
          SeedLinksExact(src, rest, l);
          var x :| x in rest && IsSeed(src, x) && x.link == l;
          var i :| 0 <= i < |rest| && rest[i] == x;
          assert v[i] == x && v[|v| - 1] == e && x in v && e in v;
        }
        AppendSeed(t, ls, e.link);
      }
    }
  }

  lemma AppendSeed(t: Topology, ls: seq<LinkId>, l: LinkId)
    requires Distinct(ls) && PortsAscend(t, ls) && l in t.links
    requires forall k :: k in ls ==> k != l && k in t.links && !PortLess(t.links[l].port, t.links[k].port)
    ensures Distinct(ls + [l]) && PortsAscend(t, ls + [l])
  {
    var r := ls + [l];
    forall i, j | 0 <= i < j < |r|
      ensures r[i] != r[j] && (r[i] in t.links && r[j] in t.links ==> !PortLess(t.links[r[j]].port, t.links[r[i]].port))
    {
      assert ls[i] in ls;
    }
  }

  predicate PortsAscend(t: Topology, seeds: seq<LinkId>) {
    forall i, j :: 0 <= i < j < |seeds| && seeds[i] in t.links && seeds[j] in t.links ==>
      !PortLess(t.links[seeds[j]].port, t.links[seeds[i]].port)
  }

  lemma SeedLinksValid(t: Topology, src: DeviceId, v: seq<Edge>)
    requires Distinct(v) && SortedBy(DeviceEdgeLeq, v)
    requires forall e :: e in v <==> IsDeviceEdge(t, e)
    ensures ValidSeeds(t, src, SeedLinks(src, v))
  {
    SeedLinksOrdered(t, src, v);
    forall l ensures l in SeedLinks(src, v) <==> Usable(t, l) && ToDevice(t, l, src) {
      SeedLinksExact(src, v, l);
      if l in t.links { assert EdgeOf(t, l) in v <==> IsDeviceEdge(t, EdgeOf(t, l)); }
    }
  }

  lemma SeedLinksStep(src: DeviceId, v: seq<Edge>, i: nat)
    requires i < |v|
    ensures SeedLinks(src, v[..i + 1]) == SeedLinks(src, v[..i]) + (if IsSeed(src, v[i]) then [v[i].link] else [])
  {
    assert v[..i + 1][..i] == v[..i];
  }

  lemma SinglesStep(ls: seq<LinkId>, l: LinkId)
    ensures Singles(ls + [l]) == Singles(ls) + [[l]]
  {
    assert (ls + [l])[..|ls|] == ls;
  }

  lemma TracksSnoc(t: Topology, idx: Index, ws: seq<Walk>, frontier: seq<Partial>, w: Walk, p: Partial)
    requires Tracks(t, idx, ws, frontier) && |w| > 0 && Linked(t, w) && p == Trace(t, idx, w)
    ensures Tracks(t, idx, ws + [w], frontier + [p])
  {}

  lemma SeedStep(t: Topology, idx: Index, src: DeviceId, v: seq<Edge>, i: nat, frontier: seq<Partial>)
    requires i < |v| && IsDeviceEdge(t, v[i])
    requires Tracks(t, idx, Singles(SeedLinks(src, v[..i])), frontier)
    ensures Tracks(t, idx, Singles(SeedLinks(src, v[..i + 1])), if IsSeed(src, v[i]) then frontier + [Seed(v[i])] else frontier)
  {
    var ls, e := SeedLinks(src, v[..i]), v[i];
    SeedLinksStep(src, v, i);
    if IsSeed(src, e) {
      SinglesStep(ls, e.link);
      TracksSnoc(t, idx, Singles(ls), frontier, [e.link], Seed(e));
    } else {
      assert ls + [] == ls;
    }
  }

  /** The frontier the search starts from: one partial per usable attachment of the source. */
  method SeedFrontier(t: Topology, idx: Index, src: DeviceId) returns (frontier: seq<Partial>, ghost seeds: seq<LinkId>)
    requires ValidIndex(t, idx)
    ensures ValidSeeds(t, src, seeds)
    ensures Tracks(t, idx, Singles(seeds), frontier)
  {
    var v := DeviceEdges(t, idx);
    frontier := [];
    assert v[..0] == [];
    for i := 0 to |v|
      invariant Tracks(t, idx, Singles(SeedLinks(src, v[..i])), frontier)
    {
      assert v[i] in v;
      SeedStep(t, idx, src, v, i, frontier);
      if v[i].other.device == src && EdgeUsable(v[i]) {
        frontier := frontier + [Seed(v[i])];
      }
    }
    assert v[..|v|] == v;
    seeds := SeedLinks(src, v);
    SeedLinksValid(t, src, v);
  }

  /** The frontier holds exactly the traces of these walks, in order. */
  predicate Tracks(t: Topology, idx: Index, ws: seq<Walk>, frontier: seq<Partial>) {
    && |frontier| == |ws|
    && forall i :: 0 <= i < |ws| ==> |ws[i]| > 0 && Linked(t, ws[i]) && frontier[i] == Trace(t, idx, ws[i])
  }

  // ----- prefixes -----

  lemma TakePrefix<T>(a: seq<T>, b: seq<T>, n: nat)
    requires a <= b && n <= |a|
    ensures Take(a, n) == Take(b, n)
  {}

  lemma Regroup<T>(a: seq<T>, b: seq<T>, c: seq<T>)
    ensures a + b + c == a + (b + c)
    ensures a + b <= a + (b + c)
  {}

  lemma PrefixTransitive<T>(a: seq<T>, b: seq<T>, c: seq<T>)
    requires a <= b && b <= c
    ensures a <= c
  {}

  lemma PrefixAppends<T>(a: seq<T>, b: seq<T>, c: seq<T>)
    requires b <= c
    ensures a + b <= a + c
  {}

  lemma {:induction false} FinishGrows(dst: DeviceId, w: Walk, edges: seq<Edge>, i: nat)
    requires i <= |edges|
    ensures Finish(dst, w, edges[..i]) <= Finish(dst, w, edges)
  {
    if i < |edges| {
      FinishGrows(dst, w, edges[..|edges| - 1], i);
      assert edges[..|edges| - 1][..i] == edges[..i];
    } else {
      assert edges[..i] == edges;
    }
  }

  lemma {:induction false} FinishAllGrows(t: Topology, idx: Index, dst: DeviceId, ws: seq<Walk>, i: nat)
    requires i <= |ws|
    ensures FinishAll(t, idx, dst, ws[..i]) <= FinishAll(t, idx, dst, ws)
  {
    if i < |ws| {
      FinishAllGrows(t, idx, dst, ws[..|ws| - 1], i);
      assert ws[..|ws| - 1][..i] == ws[..i];
    } else {
      assert ws[..i] == ws;
    }
  }

  lemma FoundStep(t: Topology, idx: Index, dst: DeviceId, seeds: seq<LinkId>, n: nat)
    ensures Found(t, idx, dst, seeds, n) <= Found(t, idx, dst, seeds, n + 1)
  {}

  lemma {:induction false} FoundGrows(t: Topology, idx: Index, dst: DeviceId, seeds: seq<LinkId>, n: nat, m: nat)
    requires n <= m
    ensures Found(t, idx, dst, seeds, n) <= Found(t, idx, dst, seeds, m)
    decreases m - n
  {
    if n < m {
      FoundStep(t, idx, dst, seeds, n);
      FoundGrows(t, idx, dst, seeds, n + 1, m);
    }
  }

  // ----- one turn of the search -----

  lemma ListsSnoc(t: Topology, idx: Index, src: DeviceId, dst: DeviceId, ws: seq<Walk>, ps: seq<FabricPath>, w: Walk, p: FabricPath)
    requires Lists(t, idx, src, dst, ws, ps) && |w| >= 2 && Linked(t, w) && p == PathOf(t, idx, src, dst, w)
    ensures Lists(t, idx, src, dst, ws + [w], ps + [p])
  {}

  lemma Extended(t: Topology, idx: Index, w: Walk, e: Edge)
    requires |w| > 0 && Linked(t, w) && e.link in t.links && e == EdgeOf(t, e.link)
    ensures var x := w + [e.link];
      Linked(t, x) && Body(x) == w && Last(x) == e.link && Trace(t, idx, x) == Advance(idx, Trace(t, idx, w), e)
  {
    assert Body(w + [e.link]) == w;
  }

  function FinishOne(dst: DeviceId, w: Walk, e: Edge): seq<Walk> {
    if Arrives(dst, e) then [w + [e.link]] else []
  }

  function OnwardOne(t: Topology, cfg: Config, w: Walk, e: Edge): seq<Walk> {
    if |w| < Depth(cfg) && Continues(Switches(t, w), e) then [w + [e.link]] else []
  }

  /** Follows one edge if it is usable: to the destination, or on to an unvisited switch. */
  method Follow(t: Topology, idx: Index, src: DeviceId, dst: DeviceId, cfg: Config, p: Partial, e: Edge,
                result0: seq<FabricPath>, frontier0: seq<Partial>,
                ghost w: Walk, ghost found: seq<Walk>, ghost queued: seq<Walk>)
    returns (result: seq<FabricPath>, frontier: seq<Partial>)
    requires |w| > 0 && Linked(t, w) && p == Trace(t, idx, w)
    requires e.link in t.links && e == EdgeOf(t, e.link)
    requires Lists(t, idx, src, dst, found, result0)
    requires Tracks(t, idx, queued, frontier0)
    ensures Lists(t, idx, src, dst, found + FinishOne(dst, w, e), result)
    ensures Tracks(t, idx, queued + OnwardOne(t, cfg, w, e), frontier)
  {
    result, frontier := result0, frontier0;
    TraceSwitches(t, idx, w);
    Extended(t, idx, w, e);
    assert found + [] == found && queued + [] == queued;
    if !EdgeUsable(e) { return; }
    if e.other.kind == DEVICE_END {
      if e.other.device == dst {
        ListsSnoc(t, idx, src, dst, found, result, w + [e.link], Complete(t, src, dst, p, e));
        result := result + [Complete(t, src, dst, p, e)];
      }
    } else if e.other.kind == SWITCH_END && cfg.allowSwitchSwitching
           && e.other.sw !in p.visited && |p.switches| < cfg.maxDepth {
      TracksSnoc(t, idx, queued, frontier, w + [e.link], Advance(idx, p, e));
      frontier := frontier + [Advance(idx, p, e)];
    }
  }

  function OnwardWithin(t: Topology, cfg: Config, w: Walk, edges: seq<Edge>): seq<Walk> {
    if |w| < Depth(cfg) then Onward(Switches(t, w), w, edges) else []
  }

  lemma OneMoreEdge(t: Topology, dst: DeviceId, cfg: Config, w: Walk, edges: seq<Edge>, i: nat)
    requires i < |edges|
    ensures Finish(dst, w, edges[..i + 1]) == Finish(dst, w, edges[..i]) + FinishOne(dst, w, edges[i])
    ensures OnwardWithin(t, cfg, w, edges[..i + 1]) == OnwardWithin(t, cfg, w, edges[..i]) + OnwardOne(t, cfg, w, edges[i])
  {
    assert edges[..i + 1][..i] == edges[..i];
  }

  /** Where the expansion of w stands once i of its edges have been tried. */
  ghost predicate Expanding(t: Topology, idx: Index, src: DeviceId, dst: DeviceId, cfg: Config,
                            w: Walk, found: seq<Walk>, queued: seq<Walk>, edges: seq<Edge>, i: nat,
                            result: seq<FabricPath>, frontier: seq<Partial>)
  {
    && i <= |edges|
    && |found + Finish(dst, w, edges[..i])| <= cfg.maxPaths
    && Lists(t, idx, src, dst, found + Finish(dst, w, edges[..i]), result)
    && Tracks(t, idx, queued + OnwardWithin(t, cfg, w, edges[..i]), frontier)
  }

  lemma ExpandingFull(t: Topology, idx: Index, src: DeviceId, dst: DeviceId, cfg: Config,
                      w: Walk, found: seq<Walk>, queued: seq<Walk>, edges: seq<Edge>, i: nat,
                      result: seq<FabricPath>, frontier: seq<Partial>)
    requires Expanding(t, idx, src, dst, cfg, w, found, queued, edges, i, result, frontier)
    requires i == |edges| || |result| >= cfg.maxPaths
    ensures Lists(t, idx, src, dst, Take(found + Finish(dst, w, edges), cfg.maxPaths), result)
    ensures |result| < cfg.maxPaths ==> Tracks(t, idx, queued + OnwardWithin(t, cfg, w, edges), frontier)
  {
    if i == |edges| {
      assert edges[..i] == edges;
    } else {
      FinishGrows(dst, w, edges, i);
      PrefixAppends(found, Finish(dst, w, edges[..i]), Finish(dst, w, edges));
      TakePrefix(found + Finish(dst, w, edges[..i]), found + Finish(dst, w, edges), cfg.maxPaths);
    }
  }

  lemma ExpandingNext(t: Topology, idx: Index, src: DeviceId, dst: DeviceId, cfg: Config,
                      w: Walk, found: seq<Walk>, queued: seq<Walk>, edges: seq<Edge>, i: nat,
                      result: seq<FabricPath>, frontier: seq<Partial>)
    requires i < |edges| && |found + Finish(dst, w, edges[..i])| < cfg.maxPaths
    requires Lists(t, idx, src, dst, found + Finish(dst, w, edges[..i]) + FinishOne(dst, w, edges[i]), result)
    requires Tracks(t, idx, queued + OnwardWithin(t, cfg, w, edges[..i]) + OnwardOne(t, cfg, w, edges[i]), frontier)
    ensures Expanding(t, idx, src, dst, cfg, w, found, queued, edges, i + 1, result, frontier)
  {
    OneMoreEdge(t, dst, cfg, w, edges, i);
    Regroup(found, Finish(dst, w, edges[..i]), FinishOne(dst, w, edges[i]));
    Regroup(queued, OnwardWithin(t, cfg, w, edges[..i]), OnwardOne(t, cfg, w, edges[i]));
  }

  /** One edge of the expansion, while there is room for another path. */
  method TryEdge(t: Topology, idx: Index, src: DeviceId, dst: DeviceId, cfg: Config, p: Partial, edges: seq<Edge>, i: nat,
                 result0: seq<FabricPath>, frontier0: seq<Partial>,
                 ghost w: Walk, ghost found: seq<Walk>, ghost queued: seq<Walk>)
    returns (result: seq<FabricPath>, frontier: seq<Partial>)
    requires |w| > 0 && Linked(t, w) && p == Trace(t, idx, w)
    requires Expanding(t, idx, src, dst, cfg, w, found, queued, edges, i, result0, frontier0)
    requires i < |edges| && edges[i].link in t.links && edges[i] == EdgeOf(t, edges[i].link)
    requires |result0| < cfg.maxPaths
    ensures Expanding(t, idx, src, dst, cfg, w, found, queued, edges, i + 1, result, frontier)
  {
    result, frontier := Follow(t, idx, src, dst, cfg, p, edges[i], result0, frontier0, w,
                               found + Finish(dst, w, edges[..i]), queued + OnwardWithin(t, cfg, w, edges[..i]));
    ExpandingNext(t, idx, src, dst, cfg, w, found, queued, edges, i, result, frontier);
  }

  /** Tries every edge out of the switch a partial has reached. */
  method Expand(t: Topology, idx: Index, src: DeviceId, dst: DeviceId, cfg: Config, p: Partial,
                result0: seq<FabricPath>, frontier0: seq<Partial>,
                ghost w: Walk, ghost found: seq<Walk>, ghost queued: seq<Walk>)
    returns (result: seq<FabricPath>, frontier: seq<Partial>)
    requires ValidIndex(t, idx)
    requires |w| > 0 && Linked(t, w) && p == Trace(t, idx, w)
    requires Lists(t, idx, src, dst, found, result0) && |found| <= cfg.maxPaths
    requires Tracks(t, idx, queued, frontier0)
    ensures Lists(t, idx, src, dst, Take(found + Finish(dst, w, EdgesFrom(t, idx, w)), cfg.maxPaths), result)
    ensures |result| < cfg.maxPaths ==> Tracks(t, idx, queued + OnwardWithin(t, cfg, w, EdgesFrom(t, idx, w)), frontier)
  {
    TraceSwitches(t, idx, w);
    var edges := EdgesAt(idx, p.cur);
    result, frontier := result0, frontier0;
    assert edges[..0] == [] && found + [] == found && queued + [] == queued;
    var i := 0;
    while i < |edges| && |result| < cfg.maxPaths
      invariant Expanding(t, idx, src, dst, cfg, w, found, queued, edges, i, result, frontier)
      decreases |edges| - i
    {
      EdgeMeaning(t, idx, p.cur, edges[i]);
      result, frontier := TryEdge(t, idx, src, dst, cfg, p, edges, i, result, frontier, w, found, queued);
      i := i + 1;
    }
    ExpandingFull(t, idx, src, dst, cfg, w, found, queued, edges, i, result, frontier);
  }

  // ----- the whole search -----

  /** The walks found once i partials of level n have been expanded. */
  ghost function FoundBy(t: Topology, idx: Index, dst: DeviceId, seeds: seq<LinkId>, n: nat, i: nat): seq<Walk>
    requires i <= |Level(t, idx, seeds, n)|
  {
    Found(t, idx, dst, seeds, n) + FinishAll(t, idx, dst, Level(t, idx, seeds, n)[..i])
  }

  /** The partials still queued at that point: the rest of level n, then the start of level n+1. */
  ghost function Queue(t: Topology, idx: Index, depth: nat, seeds: seq<LinkId>, n: nat, i: nat): seq<Walk>
    requires i <= |Level(t, idx, seeds, n)|
  {
    Level(t, idx, seeds, n)[i..]
    + (if n + 1 < depth then OnwardAll(t, idx, Level(t, idx, seeds, n)[..i]) else [])
  }

  lemma Rotate<T>(a: seq<T>, i: nat, b: seq<T>, c: seq<T>)
    requires i < |a|
    ensures a[i..] + b == [a[i]] + (a[i + 1..] + b)
    ensures a[i + 1..] + (b + c) == (a[i + 1..] + b) + c
  {}

  lemma OneTurn(t: Topology, idx: Index, dst: DeviceId, cfg: Config, seeds: seq<LinkId>, n: nat, i: nat, w: Walk)
    requires i < |Level(t, idx, seeds, n)| && w == Level(t, idx, seeds, n)[i] && |w| == n + 1
    ensures var edges, q := EdgesFrom(t, idx, w), Queue(t, idx, Depth(cfg), seeds, n, i);
      && FoundBy(t, idx, dst, seeds, n, i + 1) == FoundBy(t, idx, dst, seeds, n, i) + Finish(dst, w, edges)
      && |q| > 0 && q[0] == w
      && Queue(t, idx, Depth(cfg), seeds, n, i + 1) == q[1..] + OnwardWithin(t, cfg, w, edges)
  {
    var level := Level(t, idx, seeds, n);
    var edges := EdgesFrom(t, idx, w);
    assert level[..i + 1][..i] == level[..i];
    Regroup(Found(t, idx, dst, seeds, n), FinishAll(t, idx, dst, level[..i]), Finish(dst, w, edges));
    var started := if n + 1 < Depth(cfg) then OnwardAll(t, idx, level[..i]) else [];
    Rotate(level, i, started, OnwardWithin(t, cfg, w, edges));
    assert (if n + 1 < Depth(cfg) then OnwardAll(t, idx, level[..i + 1]) else []) == started + OnwardWithin(t, cfg, w, edges);
  }

  lemma LevelFound(t: Topology, idx: Index, dst: DeviceId, seeds: seq<LinkId>, n: nat)
    ensures FoundBy(t, idx, dst, seeds, n, |Level(t, idx, seeds, n)|) == Found(t, idx, dst, seeds, n + 1)
  {
    var level := Level(t, idx, seeds, n);
    assert level[..|level|] == level;
  }

  lemma LevelStart(t: Topology, idx: Index, dst: DeviceId, depth: nat, seeds: seq<LinkId>, n: nat)
    ensures FoundBy(t, idx, dst, seeds, n, 0) == Found(t, idx, dst, seeds, n)
    ensures Queue(t, idx, depth, seeds, n, 0) == Level(t, idx, seeds, n)
  {
    var level := Level(t, idx, seeds, n);
    assert level[..0] == [] && level[0..] == level;
    assert FinishAll(t, idx, dst, []) == [] && OnwardAll(t, idx, []) == [];
  }

  lemma LevelQueued(t: Topology, idx: Index, depth: nat, seeds: seq<LinkId>, n: nat)
    ensures Queue(t, idx, depth, seeds, n, |Level(t, idx, seeds, n)|) == if n + 1 < depth then Level(t, idx, seeds, n + 1) else []
  {
    var level := Level(t, idx, seeds, n);
    assert level[..|level|] == level && level[|level|..] == [];
  }

  lemma FoundByNext(t: Topology, idx: Index, dst: DeviceId, seeds: seq<LinkId>, n: nat, i: nat)
    requires i <= |Level(t, idx, seeds, n)|
    ensures FoundBy(t, idx, dst, seeds, n, i) <= Found(t, idx, dst, seeds, n + 1)
  {
    var level := Level(t, idx, seeds, n);
    FinishAllGrows(t, idx, dst, level, i);
    PrefixAppends(Found(t, idx, dst, seeds, n), FinishAll(t, idx, dst, level[..i]), FinishAll(t, idx, dst, level));
  }

  lemma FoundByGrows(t: Topology, idx: Index, dst: DeviceId, seeds: seq<LinkId>, n: nat, i: nat, depth: nat)
    requires n < depth && i <= |Level(t, idx, seeds, n)|
    ensures FoundBy(t, idx, dst, seeds, n, i) <= Found(t, idx, dst, seeds, depth)
  {
    FoundByNext(t, idx, dst, seeds, n, i);
    FoundGrows(t, idx, dst, seeds, n + 1, depth);
    PrefixTransitive(FoundBy(t, idx, dst, seeds, n, i), Found(t, idx, dst, seeds, n + 1), Found(t, idx, dst, seeds, depth));
  }

  lemma LevelDrained(t: Topology, idx: Index, depth: nat, seeds: seq<LinkId>, n: nat, i: nat)
    requires i <= |Level(t, idx, seeds, n)|
    requires Queue(t, idx, depth, seeds, n, i) == []
    ensures i == |Level(t, idx, seeds, n)|
    ensures n + 1 < depth ==> Level(t, idx, seeds, n + 1) == []
  {
    var level := Level(t, idx, seeds, n);
    assert level[i..] == [];
    assert level[..i] == level;
  }

  /** An empty queue means everything within the depth has been found. */
  lemma QueueEmpty(t: Topology, idx: Index, dst: DeviceId, depth: nat, seeds: seq<LinkId>, n: nat, i: nat)
    requires n < depth && i <= |Level(t, idx, seeds, n)|
    requires Queue(t, idx, depth, seeds, n, i) == []
    ensures FoundBy(t, idx, dst, seeds, n, i) == Found(t, idx, dst, seeds, depth)
  {
    LevelDrained(t, idx, depth, seeds, n, i);
    LevelFound(t, idx, dst, seeds, n);
    NothingAbove(t, idx, dst, seeds, n + 1, depth);
  }

  lemma NothingAbove(t: Topology, idx: Index, dst: DeviceId, seeds: seq<LinkId>, n: nat, depth: nat)
    requires n <= depth && (n < depth ==> Level(t, idx, seeds, n) == [])
    ensures Found(t, idx, dst, seeds, n) == Found(t, idx, dst, seeds, depth)
  {
    if n < depth { NothingFurther(t, idx, dst, seeds, n, depth); }
  }

  /** The result lists what has been found, up to the bound; the frontier tracks the queue unless the bound is met. */
  ghost predicate Standing(t: Topology, idx: Index, src: DeviceId, dst: DeviceId, cfg: Config,
                           found: seq<Walk>, queue: seq<Walk>, result: seq<FabricPath>, frontier: seq<Partial>)
  {
    && Lists(t, idx, src, dst, Take(found, cfg.maxPaths), result)
    && (|result| < cfg.maxPaths ==> Tracks(t, idx, queue, frontier))
  }

  /** A position in the search: i partials of level n expanded, and nothing queued past the last level. */
  ghost predicate At(t: Topology, idx: Index, depth: nat, seeds: seq<LinkId>, n: nat, i: nat) {
    && n < depth && i <= |Level(t, idx, seeds, n)|
    && (i == |Level(t, idx, seeds, n)| ==> Queue(t, idx, depth, seeds, n, i) == [])
  }

  ghost predicate Progress(t: Topology, idx: Index, src: DeviceId, dst: DeviceId, cfg: Config, seeds: seq<LinkId>,
                           n: nat, i: nat, result: seq<FabricPath>, frontier: seq<Partial>)
  {
    && At(t, idx, Depth(cfg), seeds, n, i)
    && Standing(t, idx, src, dst, cfg, FoundBy(t, idx, dst, seeds, n, i), Queue(t, idx, Depth(cfg), seeds, n, i), result, frontier)
  }

  lemma NextLevel(t: Topology, idx: Index, dst: DeviceId, depth: nat, seeds: seq<LinkId>, n: nat)
    requires n + 1 < depth
    ensures var size := |Level(t, idx, seeds, n)|;
      && FoundBy(t, idx, dst, seeds, n, size) == FoundBy(t, idx, dst, seeds, n + 1, 0)
      && Queue(t, idx, depth, seeds, n, size) == Queue(t, idx, depth, seeds, n + 1, 0)
  {
    LevelFound(t, idx, dst, seeds, n);
    LevelQueued(t, idx, depth, seeds, n);
    LevelStart(t, idx, dst, depth, seeds, n + 1);
  }

  lemma LevelOpens(t: Topology, idx: Index, dst: DeviceId, depth: nat, seeds: seq<LinkId>, n: nat)
    requires n < depth
    ensures At(t, idx, depth, seeds, n, 0)
  {
    LevelStart(t, idx, dst, depth, seeds, n);
  }

  lemma LastLevel(t: Topology, idx: Index, depth: nat, seeds: seq<LinkId>, n: nat)
    requires n + 1 == depth
    ensures At(t, idx, depth, seeds, n, |Level(t, idx, seeds, n)|)
  {
    LevelQueued(t, idx, depth, seeds, n);
  }

  lemma NextPosition(t: Topology, idx: Index, dst: DeviceId, depth: nat, seeds: seq<LinkId>, n: nat, i: nat) returns (n': nat, i': nat)
    requires n < depth && i < |Level(t, idx, seeds, n)|
    ensures At(t, idx, depth, seeds, n', i')
    ensures FoundBy(t, idx, dst, seeds, n', i') == FoundBy(t, idx, dst, seeds, n, i + 1)
    ensures Queue(t, idx, depth, seeds, n', i') == Queue(t, idx, depth, seeds, n, i + 1)
    ensures n' == n + 1 || (n' == n && i' == i + 1)
  {
    if i + 1 == |Level(t, idx, seeds, n)| && n + 1 < depth {
      NextLevel(t, idx, dst, depth, seeds, n);
      LevelOpens(t, idx, dst, depth, seeds, n + 1);
      return n + 1, 0;
    }
    if i + 1 == |Level(t, idx, seeds, n)| { LastLevel(t, idx, depth, seeds, n); }
    return n, i + 1;
  }

  /** Pops the front partial and expands it. */
  method Turn(t: Topology, idx: Index, src: DeviceId, dst: DeviceId, cfg: Config, ghost seeds: seq<LinkId>,
              result0: seq<FabricPath>, frontier0: seq<Partial>, ghost n: nat, ghost i: nat)
    returns (result: seq<FabricPath>, frontier: seq<Partial>, ghost n': nat, ghost i': nat)
    requires ValidIndex(t, idx) && ValidSeeds(t, src, seeds)
    requires Progress(t, idx, src, dst, cfg, seeds, n, i, result0, frontier0)
    requires frontier0 != [] && |result0| < cfg.maxPaths
    ensures Progress(t, idx, src, dst, cfg, seeds, n', i', result, frontier)
    ensures i < |Level(t, idx, seeds, n)|
    ensures n' == n + 1 || (n' == n && i' == i + 1)
  {
    ghost var w := Level(t, idx, seeds, n)[i];
    LevelExact(t, idx, src, seeds, n, w);
    OneTurn(t, idx, dst, cfg, seeds, n, i, w);
    ghost var found, queue := FoundBy(t, idx, dst, seeds, n, i), Queue(t, idx, Depth(cfg), seeds, n, i);
    result, frontier := Expand(t, idx, src, dst, cfg, frontier0[0], result0, frontier0[1..], w, found, queue[1..]);
    n', i' := NextPosition(t, idx, dst, Depth(cfg), seeds, n, i);
  }

  /** The search loop proper, from a seeded frontier. */
  method DrainFrontier(t: Topology, idx: Index, src: DeviceId, dst: DeviceId, cfg: Config, start: seq<Partial>, ghost seeds: seq<LinkId>)
    returns (result: seq<FabricPath>)
    requires Searchable(t, src, dst, cfg)
    requires ValidIndex(t, idx) && ValidSeeds(t, src, seeds)
    requires Tracks(t, idx, Singles(seeds), start)
    ensures Lists(t, idx, src, dst, Take(Found(t, idx, dst, seeds, Depth(cfg)), cfg.maxPaths), result)
  {
    var frontier := start;
    result := [];
    ghost var n, i: nat := 0, 0;
    LevelStart(t, idx, dst, Depth(cfg), seeds, 0);
    while frontier != [] && |result| < cfg.maxPaths
      invariant Progress(t, idx, src, dst, cfg, seeds, n, i, result, frontier)
      decreases Depth(cfg) - n, |Level(t, idx, seeds, n)| - i
    {
      result, frontier, n, i := Turn(t, idx, src, dst, cfg, seeds, result, frontier, n, i);
    }
    SearchDone(t, idx, src, dst, cfg, seeds, n, i, result, frontier);
  }

  lemma SearchDone(t: Topology, idx: Index, src: DeviceId, dst: DeviceId, cfg: Config, seeds: seq<LinkId>,
                   n: nat, i: nat, result: seq<FabricPath>, frontier: seq<Partial>)
    requires Progress(t, idx, src, dst, cfg, seeds, n, i, result, frontier)
    requires frontier == [] || |result| >= cfg.maxPaths
    ensures Lists(t, idx, src, dst, Take(Found(t, idx, dst, seeds, Depth(cfg)), cfg.maxPaths), result)
  {
    if |result| >= cfg.maxPaths {
      FoundByGrows(t, idx, dst, seeds, n, i, Depth(cfg));
      TakePrefix(FoundBy(t, idx, dst, seeds, n, i), Found(t, idx, dst, seeds, Depth(cfg)), cfg.maxPaths);
    } else {
      QueueEmpty(t, idx, dst, Depth(cfg), seeds, n, i);
    }
  }

  /** enumeratePaths: the level-order enumeration up to the path bound, and so an answer to the search. */
  method EnumeratePaths(t: Topology, src: DeviceId, dst: DeviceId, cfg: Config) returns (result: seq<FabricPath>)
    ensures IsEnumeration(t, src, dst, cfg, result)
    ensures Searched(t, src, dst, cfg, result)
  {
    if !Searchable(t, src, dst, cfg) { return []; }
    var idx := BuildIndex(t);
    var frontier, seeds := SeedFrontier(t, idx, src);
    result := DrainFrontier(t, idx, src, dst, cfg, frontier, seeds);
    assert Enumerates(t, idx, src, dst, seeds, cfg, result);
    EnumerationExact(t, src, dst, cfg, result);
  }
}
