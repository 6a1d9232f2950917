/**
 The canonical path key and the byte-wise string order that breaks ties.
 */
module Keys {
  import opened Fabric
  import opened Search

  // ----- decimal numbers -----

  function Digit(d: nat): char
    requires d < 10
  {
    ('0' as int + d) as char
  }

  predicate IsDigit(c: char) {
    '0' <= c <= '9'
  }

  function Decimal(n: nat): (s: string)
    ensures |s| > 0 && forall i :: 0 <= i < |s| ==> IsDigit(s[i])
  {
    if n < 10 then [Digit(n)] else Decimal(n / 10) + [Digit(n % 10)]
  }

  function Value(s: string): int {
    if s == [] then 0 else 10 * Value(s[..|s| - 1]) + (s[|s| - 1] as int - '0' as int)
  }

  lemma {:induction false} DecimalValue(n: nat)
    ensures Value(Decimal(n)) == n
  {
    if n < 10 {
      assert [Digit(n)][..0] == [];
    } else {
      DecimalValue(n / 10);
      assert (Decimal(n / 10) + [Digit(n % 10)])[..|Decimal(n / 10)|] == Decimal(n / 10);
    }
  }

  predicate Delimited(s: string) {
    |s| > 0 && !IsDigit(s[0])
  }

  lemma PrefixEqual<T>(a: seq<T>, b: seq<T>, s: seq<T>, t: seq<T>)
    requires a + s == b + t && |a| == |b|
    ensures a == b && s == t
  {
    assert (a + s)[..|a|] == a && (b + t)[..|b|] == b;
    assert (a + s)[|a|..] == s && (b + t)[|b|..] == t;
  }

  lemma SameRun(a: string, b: string, s: string, t: string)
    requires a + s == b + t
    requires forall i :: 0 <= i < |b| ==> IsDigit(b[i])
    requires Delimited(s)
    ensures |a| >= |b|
  {
    assert (a + s)[|a|] == s[0];
  }

  /** A delimited decimal number determines the number and the rest of the text. */
  lemma DecimalParses(a: nat, b: nat, s: string, t: string)
    requires Decimal(a) + s == Decimal(b) + t && Delimited(s) && Delimited(t)
    ensures a == b && s == t
  {
    SameRun(Decimal(a), Decimal(b), s, t);
    SameRun(Decimal(b), Decimal(a), t, s);
    PrefixEqual(Decimal(a), Decimal(b), s, t);
    DecimalValue(a);
    DecimalValue(b);
  }

  // ----- the key -----

  function PortText(p: PortId): string {
    if p == UNKNOWN_PORT then "-1" else Decimal(p.index)
  }

  function ExitText(h: PathHop): string {
    if h.exitToDevice then "dev" else if h.exitToSwitch then "sw" else ""
  }

  function HopText(h: PathHop): string {
    "(" + (Decimal(h.sw) + (";in=" + (PortText(h.inPort) + (";out=" + (PortText(h.outPort) + (";" + (ExitText(h) + ")")))))))
  }

  function HopsText(hops: seq<PathHop>): string {
    if hops == [] then "]}"
    else HopText(hops[0]) + ((if |hops| > 1 then "," else "") + HopsText(hops[1..]))
  }

  function CanonicalKey(p: FabricPath): string {
    "path[src=" + (Decimal(p.source) + (",dst=" + (Decimal(p.destination) + ("]{sw=[" + HopsText(p.hops)))))
  }

  function Separator(i: nat): string {
    if i > 0 then "," else ""
  }

  /** The part of the key that follows the first i hops. */
  ghost function KeyTail(hops: seq<PathHop>, i: nat): string
    requires i <= |hops|
  {
    (if i < |hops| then Separator(i) else "") + HopsText(hops[i..])
  }

  lemma HopsTextCons(x: seq<PathHop>)
    requires x != []
    ensures HopsText(x) == HopText(x[0]) + ((if |x| > 1 then "," else "") + HopsText(x[1..]))
  {}

  lemma KeyTailStep(hops: seq<PathHop>, i: nat)
    requires i < |hops|
    ensures KeyTail(hops, i) == (Separator(i) + HopText(hops[i])) + KeyTail(hops, i + 1)
  {
    HopsTextCons(hops[i..]);
    assert hops[i..][1..] == hops[i + 1..];
    Associate(Separator(i), HopText(hops[i]), KeyTail(hops, i + 1));
  }

  lemma KeyTailEnds(hops: seq<PathHop>)
    ensures KeyTail(hops, 0) == HopsText(hops)
    ensures KeyTail(hops, |hops|) == "]}"
  {
    assert hops[0..] == hops && hops[|hops|..] == [];
  }

  lemma Associate<T>(a: seq<T>, b: seq<T>, c: seq<T>)
    ensures (a + b) + c == a + (b + c)
  {}

  method AppendHops(head: string, hops: seq<PathHop>) returns (key: string)
    ensures key == head + HopsText(hops)
  {
    key := head;
    ghost var goal, tail := head + HopsText(hops), HopsText(hops);
    KeyTailEnds(hops);
    for i := 0 to |hops|
      invariant key + tail == goal && tail == KeyTail(hops, i)
    {
      var text := Separator(i) + HopText(hops[i]);
      KeyTailStep(hops, i);
      Associate(key, text, KeyTail(hops, i + 1));
      tail := KeyTail(hops, i + 1);
      key := key + text;
    }
    key := key + "]}";
  }

  /** Builds the key left to right, as the stream does. */
  method BuildKey(p: FabricPath) returns (key: string)
    ensures key == CanonicalKey(p)
  {
    KeyGroups(p);
    key := AppendHops("path[src=" + (Decimal(p.source) + (",dst=" + (Decimal(p.destination) + "]{sw=["))), p.hops);
  }

  lemma KeyGroups(p: FabricPath)
    ensures CanonicalKey(p) ==
      "path[src=" + (Decimal(p.source) + (",dst=" + (Decimal(p.destination) + "]{sw=["))) + HopsText(p.hops)
  {}

  /** A hop as the search records it: local ports and one kind of exit. */
  predicate Recorded(h: PathHop) {
    && (h.inPort == UNKNOWN_PORT || h.inPort.sw == h.sw)
    && (h.outPort == UNKNOWN_PORT || h.outPort.sw == h.sw)
    && !(h.exitToDevice && h.exitToSwitch)
  }

  lemma Strip(c: string, s: string, t: string)
    requires c + s == c + t
    ensures s == t
  {
    PrefixEqual(c, c, s, t);
  }

  lemma PortTextParses(p: PortId, q: PortId, s: string, t: string)
    requires PortText(p) + s == PortText(q) + t && Delimited(s) && Delimited(t)
    ensures s == t && (p == UNKNOWN_PORT <==> q == UNKNOWN_PORT)
    ensures p != UNKNOWN_PORT ==> p.index == q.index
  {
    assert (PortText(p) + s)[0] == PortText(p)[0] && (PortText(q) + t)[0] == PortText(q)[0];
    if p == UNKNOWN_PORT && q == UNKNOWN_PORT {
      Strip("-1", s, t);
    } else if p != UNKNOWN_PORT && q != UNKNOWN_PORT {
      DecimalParses(p.index, q.index, s, t);
    }
  }

  lemma ExitTextParses(g: PathHop, h: PathHop, s: string, t: string)
    requires ExitText(g) + (")" + s) == ExitText(h) + (")" + t)
    ensures ExitText(g) == ExitText(h) && s == t
  {
    var x, y := ExitText(g) + (")" + s), ExitText(h) + (")" + t);
    assert x[0] == (if ExitText(g) == "" then ')' else ExitText(g)[0]);
    assert y[0] == (if ExitText(h) == "" then ')' else ExitText(h)[0]);
    assert ExitText(g) == ExitText(h);
    Strip(ExitText(g), ")" + s, ")" + t);
    Strip(")", s, t);
  }

  lemma HopTextGroups(h: PathHop, s: string)
    ensures HopText(h) + s ==
      "(" + (Decimal(h.sw) + (";in=" + (PortText(h.inPort) + (";out=" + (PortText(h.outPort) + (";" + (ExitText(h) + (")" + s))))))))
  {}

  /** A hop's text determines the hop and what follows it. */
  lemma HopTextParses(g: PathHop, h: PathHop, s: string, t: string)
    requires Recorded(g) && Recorded(h) && HopText(g) + s == HopText(h) + t
    ensures g == h && s == t
  {
    HopTextGroups(g, s);
    HopTextGroups(h, t);
    var g4, h4 := ExitText(g) + (")" + s), ExitText(h) + (")" + t);
    var g3, h3 := ";out=" + (PortText(g.outPort) + (";" + g4)), ";out=" + (PortText(h.outPort) + (";" + h4));
    var g2, h2 := ";in=" + (PortText(g.inPort) + g3), ";in=" + (PortText(h.inPort) + h3);
    Strip("(", Decimal(g.sw) + g2, Decimal(h.sw) + h2);
    DecimalParses(g.sw, h.sw, g2, h2);
    Strip(";in=", PortText(g.inPort) + g3, PortText(h.inPort) + h3);
    PortTextParses(g.inPort, h.inPort, g3, h3);
    Strip(";out=", PortText(g.outPort) + (";" + g4), PortText(h.outPort) + (";" + h4));
    PortTextParses(g.outPort, h.outPort, ";" + g4, ";" + h4);
    Strip(";", g4, h4);
    ExitTextParses(g, h, s, t);
  }

  lemma HopsTextStart(x: seq<PathHop>)
    ensures |HopsText(x)| > 0 && HopsText(x)[0] == if x == [] then ']' else '('
  {}

  lemma FirstHopParses(x: seq<PathHop>, y: seq<PathHop>)
    requires x != [] && y != [] && Recorded(x[0]) && Recorded(y[0])
    requires HopsText(x) == HopsText(y)
    ensures x[0] == y[0] && HopsText(x[1..]) == HopsText(y[1..])
  {
    var s, t := Separator(|x| - 1) + HopsText(x[1..]), Separator(|y| - 1) + HopsText(y[1..]);
    HopTextParses(x[0], y[0], s, t);
    HopsTextStart(x[1..]);
    HopsTextStart(y[1..]);
    assert s[0] == (if |x| > 1 then ',' else ']') && t[0] == (if |y| > 1 then ',' else ']');
    Strip(Separator(|x| - 1), HopsText(x[1..]), HopsText(y[1..]));
  }

  lemma {:induction false} HopsTextParses(x: seq<PathHop>, y: seq<PathHop>)
    requires forall h :: h in x + y ==> Recorded(h)
    requires HopsText(x) == HopsText(y)
    ensures x == y
    decreases |x|
  {
    HopsTextStart(x);
    HopsTextStart(y);
    if x != [] {
      assert x[0] in x + y && y[0] in x + y;
      FirstHopParses(x, y);
      assert forall h :: h in x[1..] + y[1..] ==> h in x + y;
      HopsTextParses(x[1..], y[1..]);
      assert x == [x[0]] + x[1..] && y == [y[0]] + y[1..];
    }
  }

  /** Equal keys mean equal endpoints and hops, and the other way round. */
  lemma KeyIdentifiesPath(p: FabricPath, q: FabricPath)
    requires forall h :: h in p.hops + q.hops ==> Recorded(h)
    ensures CanonicalKey(p) == CanonicalKey(q) <==>
      p.source == q.source && p.destination == q.destination && p.hops == q.hops
  {
    if CanonicalKey(p) == CanonicalKey(q) {
      var p2, q2 := "]{sw=[" + HopsText(p.hops), "]{sw=[" + HopsText(q.hops);
      var p1, q1 := ",dst=" + (Decimal(p.destination) + p2), ",dst=" + (Decimal(q.destination) + q2);
      Strip("path[src=", Decimal(p.source) + p1, Decimal(q.source) + q1);
      DecimalParses(p.source, q.source, p1, q1);
      Strip(",dst=", Decimal(p.destination) + p2, Decimal(q.destination) + q2);
      DecimalParses(p.destination, q.destination, p2, q2);
      Strip("]{sw=[", HopsText(p.hops), HopsText(q.hops));
      HopsTextParses(p.hops, q.hops);
    }
  }

  lemma ExampleHop(h: PathHop)
    requires h == PathHop(7, PortId(7, 0), PortId(7, 12), false, true)
    ensures HopText(h) == "(7;in=0;out=12;sw)"
  {
    assert Decimal(12) == "12";
  }

  lemma ExampleLastHop(h: PathHop)
    requires h == PathHop(8, UNKNOWN_PORT, PortId(8, 3), true, false)
    ensures HopText(h) == "(8;in=-1;out=3;dev)"
  {}

  lemma ExampleHops(hops: seq<PathHop>)
    requires hops == [PathHop(7, PortId(7, 0), PortId(7, 12), false, true), PathHop(8, UNKNOWN_PORT, PortId(8, 3), true, false)]
    ensures HopsText(hops) == "(7;in=0;out=12;sw)" + ("," + ("(8;in=-1;out=3;dev)" + "]}"))
  {
    ExampleHop(hops[0]);
    ExampleLastHop(hops[1]);
    HopsTextCons(hops);
    HopsTextCons(hops[1..]);
  }

  /** A key in full: each hop with its switch, its ports and how it is left. */
  lemma KeyExample(p: FabricPath)
    requires p.source == 1 && p.destination == 20
    requires p.hops == [PathHop(7, PortId(7, 0), PortId(7, 12), false, true), PathHop(8, UNKNOWN_PORT, PortId(8, 3), true, false)]
    ensures CanonicalKey(p) == "path[src=1,dst=20]{sw=[" + ("(7;in=0;out=12;sw)" + ("," + ("(8;in=-1;out=3;dev)" + "]}")))
  {
    ExampleHops(p.hops);
    assert Decimal(20) == "20" && Decimal(1) == "1";
    KeyGroups(p);
    assert "path[src=" + ("1" + (",dst=" + ("20" + "]{sw=["))) == "path[src=1,dst=20]{sw=[";
  }

  // ----- the order on strings -----

  predicate StrLess<T(==)>(less: (T, T) -> bool, a: seq<T>, b: seq<T>) {
    if a == [] then b != []
    else if b == [] then false
    else if a[0] == b[0] then StrLess(less, a[1..], b[1..])
    else less(a[0], b[0])
  }

  /** At the first place where the two part, the first one has ended or has the lesser element. */
  ghost predicate ComesBefore<T(!new)>(less: (T, T) -> bool, a: seq<T>, b: seq<T>) {
    exists i: nat :: PartsAt(less, a, b, i)
  }

  predicate PartsAt<T(==)>(less: (T, T) -> bool, a: seq<T>, b: seq<T>, i: nat) {
    i <= |a| && i < |b| && a[..i] == b[..i] && (i == |a| || less(a[i], b[i]))
  }

  lemma PartsFirst<T(!new)>(less: (T, T) -> bool, a: seq<T>, b: seq<T>, i: nat)
    requires PartsAt(less, a, b, i)
    ensures i > 0 ==> a != [] && b != [] && a[0] == b[0]
  {
    assert i > 0 ==> a[..i][0] == a[0] && b[..i][0] == b[0];
  }

  /** The order on strings, place by place. */
  lemma {:induction false} StrLessMeans<T(!new)>(less: (T, T) -> bool, a: seq<T>, b: seq<T>)
    requires forall x :: !less(x, x)
    ensures StrLess(less, a, b) <==> ComesBefore(less, a, b)
    decreases |a|
  {
    if a == [] || b == [] {
      assert b != [] ==> PartsAt(less, a, b, 0) || a != [];
    } else if a[0] != b[0] {
      assert PartsAt(less, a, b, 0) <==> less(a[0], b[0]);
      forall i: nat | PartsAt(less, a, b, i) ensures i == 0 { PartsFirst(less, a, b, i); }
    } else {
      StrLessMeans(less, a[1..], b[1..]);
      if i: nat :| PartsAt(less, a[1..], b[1..], i) {
        assert a[..i + 1] == [a[0]] + a[1..][..i] && b[..i + 1] == [b[0]] + b[1..][..i];
        assert PartsAt(less, a, b, i + 1);
      }
      if i: nat :| PartsAt(less, a, b, i) {
        assert i > 0;
        assert a[1..][..i - 1] == a[..i][1..] && b[1..][..i - 1] == b[..i][1..];
        assert PartsAt(less, a[1..], b[1..], i - 1);
      }
    }
  }

  ghost predicate StrictTotal<T(!new)>(less: (T, T) -> bool) {
    && (forall a, b :: !(less(a, b) && less(b, a)))
    && (forall a, b :: less(a, b) || less(b, a) || a == b)
    && (forall a, b, c :: less(a, b) && less(b, c) ==> less(a, c))
  }

  lemma {:induction false} StrLessTotal<T(!new)>(less: (T, T) -> bool, a: seq<T>, b: seq<T>)
    requires StrictTotal(less)
    ensures !(StrLess(less, a, b) && StrLess(less, b, a))
    ensures StrLess(less, a, b) || StrLess(less, b, a) || a == b
    decreases |a|
  {
    if a != [] && b != [] && a[0] == b[0] {
      StrLessTotal(less, a[1..], b[1..]);
      assert a == [a[0]] + a[1..] && b == [b[0]] + b[1..];
    }
  }

  lemma {:induction false} StrLessTransitive<T(!new)>(less: (T, T) -> bool, a: seq<T>, b: seq<T>, c: seq<T>)
    requires StrictTotal(less) && StrLess(less, a, b) && StrLess(less, b, c)
    ensures StrLess(less, a, c)
    decreases |a|
  {
    if a != [] && a[0] == b[0] == c[0] {
      StrLessTransitive(less, a[1..], b[1..], c[1..]);
    }
  }
}
