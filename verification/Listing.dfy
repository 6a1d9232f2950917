/** Walking a table in some order, and what staging the walked records rebuilds. */
module Listing {
  import opened Fabric
  import opened Registry

  /** The records of a table, and their keys, in some order, each once. */
  predicate InOrder<K(==), V(==)>(rs: seq<V>, ks: seq<K>, m: map<K, V>) {
    && |ks| == |rs|
    && (forall i :: 0 <= i < |ks| ==> ks[i] in m && rs[i] == m[ks[i]])
    && (forall i, j :: 0 <= i < j < |ks| ==> ks[i] != ks[j])
    && (forall k :: k in m ==> k in ks)
  }

  ghost predicate ListsTable<K(!new), V>(rs: seq<V>, m: map<K, V>) {
    exists ks: seq<K> :: InOrder(rs, ks, m)
  }

  /** An edit that holds every record of a topology once. */
  ghost predicate Lists(e: BulkEdit, t: Topology) {
    && ListsTable(e.devices, t.devices) && ListsTable(e.switches, t.switches) && ListsTable(e.ports, t.ports)
    && ListsTable(e.links, t.links) && ListsTable(e.partitions, t.partitions)
  }

  function TagAll<V>(rs: seq<V>, tag: V -> V): (r: seq<V>)
    ensures |r| == |rs| && forall i :: 0 <= i < |rs| ==> r[i] == tag(rs[i])
  {
    seq(|rs|, i requires 0 <= i < |rs| => tag(rs[i]))
  }

  /** Walks a table, changing each record; `plain` is the same walk without the changes. */
  method ListTagged<K(==, !new), V>(m: map<K, V>, tag: V -> V) returns (rs: seq<V>, ghost plain: seq<V>)
    ensures ListsTable(plain, m) && rs == TagAll(plain, tag)
  {
    rs, plain := [], [];
    ghost var ks: seq<K> := [];
    var todo := m.Keys;
    while todo != {}
      invariant todo <= m.Keys
      invariant |ks| == |plain| && rs == TagAll(plain, tag)
      invariant forall i :: 0 <= i < |ks| ==> ks[i] in m && ks[i] !in todo && plain[i] == m[ks[i]]
      invariant forall i, j :: 0 <= i < j < |ks| ==> ks[i] != ks[j]
      invariant forall k :: k in m && k !in todo ==> k in ks
    {
      var k :| k in todo;
      rs, plain, ks := rs + [tag(m[k])], plain + [m[k]], ks + [k];
      todo := todo - {k};
    }
    assert InOrder(plain, ks, m);
  }

  lemma {:induction false} AnyOrder<K(!new), V>(m: map<K, V>) returns (rs: seq<V>, ks: seq<K>)
    ensures InOrder(rs, ks, m)
  {
    if m == map[] {
      rs, ks := [], [];
    } else {
      var k :| k in m;
      rs, ks := AnyOrder(m - {k});
      rs, ks := rs + [m[k]], ks + [k];
      assert forall j :: j in m ==> j == k || j in m - {k};
    }
  }

  lemma AnyListing(t: Topology) returns (e: BulkEdit)
    ensures Lists(e, t)
  {
    var d, ds := AnyOrder(t.devices);
    var s, ss := AnyOrder(t.switches);
    var p, ps := AnyOrder(t.ports);
    var l, ls := AnyOrder(t.links);
    var q, qs := AnyOrder(t.partitions);
    e := BulkEdit(d, s, p, l, q);
  }

  // ----- the order does not matter -----

  lemma {:induction false} StagedWalk<K, V>(m: map<K, V>, n: map<K, V>, rs: seq<V>, ks: seq<K>, key: V -> K)
    requires |ks| == |rs| && forall i :: 0 <= i < |ks| ==> ks[i] in n && rs[i] == n[ks[i]] && key(rs[i]) == ks[i]
    ensures forall k :: k in Stage(m, rs, key) <==> k in m || k in ks
    ensures forall k :: k in ks ==> Stage(m, rs, key)[k] == n[k]
    ensures forall k :: k in m && k !in ks ==> Stage(m, rs, key)[k] == m[k]
    decreases |rs|
  {
    if rs != [] {
      var last := |rs| - 1;
      StagedWalk(m, n, rs[..last], ks[..last], key);
      assert ks == ks[..last] + [ks[last]];
    }
  }

  /** Staging the records of a table, in any order, overlays the table. */
  lemma StagedTable<K(!new), V>(m: map<K, V>, n: map<K, V>, rs: seq<V>, key: V -> K)
    requires ListsTable(rs, n) && forall k :: k in n ==> key(n[k]) == k
    ensures Stage(m, rs, key) == m + n
  {
    var ks :| InOrder(rs, ks, n);
    StagedWalk(m, n, rs, ks, key);
  }

  lemma NothingUnder<K, V>(n: map<K, V>)
    ensures map[] + n == n
  {}

  /** From nothing, it rebuilds the table. */
  lemma StagedAlone<K(!new), V>(n: map<K, V>, rs: seq<V>, key: V -> K)
    requires ListsTable(rs, n) && forall k :: k in n ==> key(n[k]) == k
    ensures Stage(map[], rs, key) == n
  {
    StagedTable(map[], n, rs, key);
    NothingUnder(n);
  }

  lemma StagedTagged<K(!new), V>(m: map<K, V>, n: map<K, V>, rs: seq<V>, tag: V -> V, key: V -> K)
    requires ListsTable(rs, n) && forall k :: k in n ==> key(tag(n[k])) == k
    ensures Stage(m, TagAll(rs, tag), key) == m + MapValues(n, tag)
  {
    var ks :| InOrder(rs, ks, n);
    assert InOrder(TagAll(rs, tag), ks, MapValues(n, tag));
    StagedTable(m, MapValues(n, tag), TagAll(rs, tag), key);
  }
}
