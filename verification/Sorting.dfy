/**
 What the code relies on sorting for: std::sort gives a sorted permutation, and
 std::stable_sort one that keeps ties in their order. The executable body is
 insertion sort; callers only see the contracts.
 */
module Sorting {
  import opened Walks

  ghost predicate TotalPreorder<T(!new)>(leq: (T, T) -> bool) {
    && (forall a, b :: leq(a, b) || leq(b, a))
    && (forall a, b, c :: leq(a, b) && leq(b, c) ==> leq(a, c))
  }

  predicate SortedBy<T(!new)>(leq: (T, T) -> bool, v: seq<T>) {
    forall i, j :: 0 <= i < j < |v| ==> leq(v[i], v[j])
  }

  // ----- ties -----

  predicate Tie<T(!new)>(leq: (T, T) -> bool, x: T, y: T) {
    leq(x, y) && leq(y, x)
  }

  /** The elements tied with x, in their order. */
  function Ties<T(!new)>(leq: (T, T) -> bool, x: T, v: seq<T>): seq<T> {
    if v == [] then []
    else
      var last := v[|v| - 1];
      Ties(leq, x, v[..|v| - 1]) + (if Tie(leq, x, last) then [last] else [])
  }

  /** Stability: tied elements keep their order. */
  ghost predicate KeepsTies<T(!new)>(leq: (T, T) -> bool, v: seq<T>, r: seq<T>) {
    forall x :: Ties(leq, x, r) == Ties(leq, x, v)
  }

  lemma {:induction false} TiesConcat<T(!new)>(leq: (T, T) -> bool, x: T, a: seq<T>, b: seq<T>)
    ensures Ties(leq, x, a + b) == Ties(leq, x, a) + Ties(leq, x, b)
    decreases |b|
  {
    if b == [] {
      assert a + b == a;
    } else {
      var n := |b| - 1;
      assert (a + b)[..|a + b| - 1] == a + b[..n];
      TiesConcat(leq, x, a, b[..n]);
    }
  }

  lemma {:induction false} NoTies<T(!new)>(leq: (T, T) -> bool, x: T, v: seq<T>)
    requires forall y :: y in v ==> !Tie(leq, x, y)
    ensures Ties(leq, x, v) == []
  {
    if v != [] { NoTies(leq, x, v[..|v| - 1]); }
  }

  lemma {:induction false} TiesFrom<T(!new)>(leq: (T, T) -> bool, x: T, v: seq<T>, y: T)
    ensures y in Ties(leq, x, v) <==> y in v && Tie(leq, x, y)
  {
    if v != [] {
      TiesFrom(leq, x, v[..|v| - 1], y);
      assert v == v[..|v| - 1] + [v[|v| - 1]];
    }
  }

  lemma TiesSplit<T(!new)>(leq: (T, T) -> bool, x: T, a: seq<T>, e: T, b: seq<T>)
    ensures Ties(leq, x, a + [e] + b) == Ties(leq, x, a) + Ties(leq, x, [e]) + Ties(leq, x, b)
  {
    TiesConcat(leq, x, a + [e], b);
    TiesConcat(leq, x, a, [e]);
  }

  /** Inserting in front of nothing but what is greater keeps the ties. */
  lemma TiesMove<T(!new)>(leq: (T, T) -> bool, x: T, a: seq<T>, e: T, b: seq<T>)
    requires TotalPreorder(leq) && forall y :: y in b ==> !leq(y, e)
    ensures Ties(leq, x, a + [e] + b) == Ties(leq, x, a + b + [e])
  {
    TiesSplit(leq, x, a, e, b);
    TiesConcat(leq, x, a + b, [e]);
    TiesConcat(leq, x, a, b);
    if Tie(leq, x, e) { NoTies(leq, x, b); } else { NoTies(leq, x, [e]); }
    SwapEmpty(Ties(leq, x, a), Ties(leq, x, [e]), Ties(leq, x, b));
  }

  lemma SwapEmpty<T>(a: seq<T>, b: seq<T>, c: seq<T>)
    requires b == [] || c == []
    ensures a + b + c == a + c + b
  {}

  lemma InsertSorts<T(!new)>(leq: (T, T) -> bool, v: seq<T>, e: T, i: nat, r: seq<T>)
    requires TotalPreorder(leq) && SortedBy(leq, v) && i <= |v| && r == v[..i] + [e] + v[i..]
    requires (forall j :: 0 <= j < i ==> leq(v[j], e)) && forall j :: i <= j < |v| ==> !leq(v[j], e)
    ensures SortedBy(leq, r) && multiset(r) == multiset(v) + multiset{e} && KeepsTies(leq, v + [e], r)
  {
    assert v == v[..i] + v[i..];
    forall x ensures Ties(leq, x, r) == Ties(leq, x, v + [e]) { TiesMove(leq, x, v[..i], e, v[i..]); }
  }

  method Insert<T(!new)>(leq: (T, T) -> bool, v: seq<T>, e: T) returns (r: seq<T>)
    requires TotalPreorder(leq) && SortedBy(leq, v)
    ensures SortedBy(leq, r)
    ensures multiset(r) == multiset(v) + multiset{e}
    ensures KeepsTies(leq, v + [e], r)
  {
    var i := 0;
    while i < |v| && leq(v[i], e)
      invariant 0 <= i <= |v|
      invariant forall j :: 0 <= j < i ==> leq(v[j], e)
    {
      i := i + 1;
    }
    r := v[..i] + [e] + v[i..];
    forall j | i <= j < |v| ensures !leq(v[j], e) {
      assert j == i || leq(v[i], v[j]);
    }
    InsertSorts(leq, v, e, i, r);
  }

  lemma TiesOneMore<T(!new)>(leq: (T, T) -> bool, v: seq<T>, r: seq<T>, e: T)
    requires KeepsTies(leq, v, r)
    ensures KeepsTies(leq, v + [e], r + [e])
  {
    forall x ensures Ties(leq, x, r + [e]) == Ties(leq, x, v + [e]) {
      TiesConcat(leq, x, r, [e]);
      TiesConcat(leq, x, v, [e]);
    }
  }

  method StableSort<T(!new)>(leq: (T, T) -> bool, v: seq<T>) returns (r: seq<T>)
    requires TotalPreorder(leq)
    ensures SortedBy(leq, r)
    ensures multiset(r) == multiset(v)
    ensures KeepsTies(leq, v, r)
  {
    r := [];
    for i := 0 to |v|
      invariant SortedBy(leq, r)
      invariant multiset(r) == multiset(v[..i])
      invariant KeepsTies(leq, v[..i], r)
    {
      TiesOneMore(leq, v[..i], r, v[i]);
      r := Insert(leq, r, v[i]);
      assert v[..i + 1] == v[..i] + [v[i]];
    }
    assert v[..|v|] == v;
  }

  /** std::sort promises no order among ties, so neither does this contract. */
  method Sort<T(!new)>(leq: (T, T) -> bool, v: seq<T>) returns (r: seq<T>)
    requires TotalPreorder(leq)
    ensures SortedBy(leq, r)
    ensures multiset(r) == multiset(v)
  {
    r := StableSort(leq, v);
  }

  // ----- a stable sort has one result -----

  lemma LastBounds<T(!new)>(leq: (T, T) -> bool, a: seq<T>, b: seq<T>)
    requires TotalPreorder(leq) && SortedBy(leq, b) && KeepsTies(leq, a, b) && a != []
    ensures b != [] && leq(a[|a| - 1], b[|b| - 1])
  {
    var last := a[|a| - 1];
    assert leq(last, last);
    TiesFrom(leq, last, a, last);
    TiesFrom(leq, last, b, last);
    var j :| 0 <= j < |b| && b[j] == last;
  }

  lemma EqualSnoc<T>(p: seq<T>, x: T, q: seq<T>, y: T)
    requires p + [x] == q + [y]
    ensures p == q && x == y
  {
    assert (p + [x])[..|p|] == p && (q + [y])[..|q|] == q;
    assert (p + [x])[|p|] == x && (q + [y])[|q|] == y;
  }

  lemma SameLast<T(!new)>(leq: (T, T) -> bool, a: seq<T>, b: seq<T>)
    requires TotalPreorder(leq) && KeepsTies(leq, a, b) && a != [] && b != [] && Tie(leq, a[|a| - 1], b[|b| - 1])
    ensures a[|a| - 1] == b[|b| - 1]
  {
    var x, y := a[|a| - 1], b[|b| - 1];
    assert Tie(leq, x, x);
    assert Ties(leq, x, b) == Ties(leq, x, a);
    assert Ties(leq, x, a) == Ties(leq, x, a[..|a| - 1]) + [x];
    assert Ties(leq, x, b) == Ties(leq, x, b[..|b| - 1]) + [y];
    EqualSnoc(Ties(leq, x, a[..|a| - 1]), x, Ties(leq, x, b[..|b| - 1]), y);
  }

  lemma DropLast<T(!new)>(leq: (T, T) -> bool, x: T, a: seq<T>, b: seq<T>)
    requires Ties(leq, x, a) == Ties(leq, x, b) && a != [] && b != [] && a[|a| - 1] == b[|b| - 1]
    ensures Ties(leq, x, a[..|a| - 1]) == Ties(leq, x, b[..|b| - 1])
  {
    if Tie(leq, x, a[|a| - 1]) {
      EqualSnoc(Ties(leq, x, a[..|a| - 1]), a[|a| - 1], Ties(leq, x, b[..|b| - 1]), b[|b| - 1]);
    }
  }

  lemma {:induction false} StableUnique<T(!new)>(leq: (T, T) -> bool, a: seq<T>, b: seq<T>)
    requires TotalPreorder(leq) && SortedBy(leq, a) && SortedBy(leq, b) && KeepsTies(leq, a, b)
    ensures a == b
    decreases |a|
  {
    if a != [] { LastBounds(leq, a, b); }
    if b != [] { LastBounds(leq, b, a); }
    if a != [] {
      var m, n := |a| - 1, |b| - 1;
      SameLast(leq, a, b);
      forall x ensures Ties(leq, x, b[..n]) == Ties(leq, x, a[..m]) { DropLast(leq, x, a, b); }
      StableUnique(leq, a[..m], b[..n]);
    }
  }

  lemma {:induction false} InsertPoint<T(!new)>(leq: (T, T) -> bool, v: seq<T>, e: T) returns (i: nat)
    requires TotalPreorder(leq) && SortedBy(leq, v)
    ensures i <= |v| && (forall j :: 0 <= j < i ==> leq(v[j], e)) && forall j :: i <= j < |v| ==> !leq(v[j], e)
  {
    if v == [] {
      i := 0;
    } else if leq(v[|v| - 1], e) {
      i := |v|;
    } else {
      i := InsertPoint(leq, v[..|v| - 1], e);
    }
  }

  /** A stable sort always has a result. */
  lemma {:induction false} StableExists<T(!new)>(leq: (T, T) -> bool, v: seq<T>) returns (r: seq<T>)
    requires TotalPreorder(leq)
    ensures SortedBy(leq, r) && multiset(r) == multiset(v) && KeepsTies(leq, v, r)
  {
    if v == [] {
      r := [];
    } else {
      var rest, e := v[..|v| - 1], v[|v| - 1];
      var q := StableExists(leq, rest);
      var i := InsertPoint(leq, q, e);
      r := q[..i] + [e] + q[i..];
      assert v == rest + [e];
      TiesOneMore(leq, rest, q, e);
      InsertSorts(leq, q, e, i, r);
    }
  }

  lemma SameElements<T>(v: seq<T>, r: seq<T>)
    requires multiset(r) == multiset(v)
    ensures |r| == |v|
    ensures forall x :: x in r <==> x in v
  {
    assert |multiset(r)| == |r| && |multiset(v)| == |v|;
    forall x ensures x in r <==> x in v {
      assert x in r <==> x in multiset(r);
      assert x in v <==> x in multiset(v);
    }
  }

  lemma {:induction false} DistinctCounts<T>(v: seq<T>, x: T)
    requires Distinct(v)
    ensures multiset(v)[x] <= 1
  {
    if v != [] {
      var rest, last := v[..|v| - 1], v[|v| - 1];
      DistinctCounts(rest, x);
      assert v == rest + [last];
      if x == last {
        assert x !in rest;
        assert x !in multiset(rest);
      }
    }
  }

  lemma TwiceCounts<T>(r: seq<T>, i: nat, j: nat)
    requires i < j < |r| && r[i] == r[j]
    ensures multiset(r)[r[i]] >= 2
  {
    assert r == r[..i] + [r[i]] + r[i + 1..j] + [r[j]] + r[j + 1..];
  }

  /** A permutation of distinct elements has distinct elements. */
  lemma DistinctPermutes<T>(v: seq<T>, r: seq<T>)
    requires Distinct(v) && multiset(r) == multiset(v)
    ensures Distinct(r)
  {
    forall i, j | 0 <= i < j < |r| ensures r[i] != r[j] {
      DistinctCounts(v, r[i]);
      if r[i] == r[j] { TwiceCounts(r, i, j); }
    }
  }
}
