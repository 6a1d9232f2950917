/**
 Records as rows of typed fields. Each record kind is written and read field by
 field in a fixed order; a table is a count and that many records.
 */
module Codec {
  import opened Wire
  import opened Registry
  import opened Listing

  datatype Kind = U8 | U32 | U64 | Text | Words(limit: nat)
  datatype Field = Num(v: nat) | Txt(s: Str) | List(ws: seq<U64>)

  function Width(k: Kind): nat {
    match k
    case U8 => 1
    case U32 => 4
    case _ => 8
  }

  /** A field its kind can carry without loss. */
  predicate Fits(k: Kind, f: Field) {
    match k
    case U8 => f.Num? && f.v < 0x100
    case U32 => f.Num? && f.v < 0x1_0000_0000
    case U64 => f.Num? && f.v < 0x1_0000_0000_0000_0000
    case Text => f.Txt? && |f.s| <= MAX_STRING
    case Words(limit) => f.List? && |f.ws| <= limit && limit < 0x1_0000_0000
  }

  predicate AllFit(ks: seq<Kind>, fs: seq<Field>) {
    |ks| == |fs| && forall i :: 0 <= i < |ks| ==> Fits(ks[i], fs[i])
  }

  // ----- one field -----

  function EncodeWords(ws: seq<U64>): seq<Byte> {
    if ws == [] then [] else LittleEndian(ws[0], 8) + EncodeWords(ws[1..])
  }

  function EncodeField(k: Kind, f: Field): seq<Byte> {
    match f
    case Num(v) => LittleEndian(v, Width(k))
    case Txt(s) => EncodeStr(s)
    case List(ws) => LittleEndian(|ws| % 0x1_0000_0000, 4) + EncodeWords(ws)
  }

  function U64From(s: seq<Byte>): U64
    requires |s| == 8
  {
    Widths();
    FromLittleEndian(s)
  }

  function ParseWords(n: nat, s: seq<Byte>): Option<(seq<U64>, seq<Byte>)> {
    if n == 0 then Some(([], s))
    else if |s| < 8 then None
    else
      var rest := ParseWords(n - 1, s[8..]);
      if rest.None? then None else Some(([U64From(s[..8])] + rest.value.0, rest.value.1))
  }

  function ParseNum(width: nat, s: seq<Byte>): Option<(Field, seq<Byte>)> {
    if |s| < width then None else Some((Num(FromLittleEndian(s[..width])), s[width..]))
  }

  function ParseField(k: Kind, s: seq<Byte>): Option<(Field, seq<Byte>)> {
    match k
    case Text =>
      var r := ParseStr(s);
      if r.None? then None else Some((Txt(r.value.0), r.value.1))
    case Words(limit) =>
      if |s| < 4 then None
      else
        var n := FromLittleEndian(s[..4]);
        if n > limit then None
        else
          var r := ParseWords(n, s[4..]);
          if r.None? then None else Some((List(r.value.0), r.value.1))
    case _ => ParseNum(Width(k), s)
  }

  lemma {:induction false} WordsRoundTrip(ws: seq<U64>, rest: seq<Byte>)
    ensures ParseWords(|ws|, EncodeWords(ws) + rest) == Some((ws, rest))
  {
    if ws != [] {
      var head, tail := LittleEndian(ws[0], 8), EncodeWords(ws[1..]) + rest;
      var s := EncodeWords(ws) + rest;
      assert s == head + tail && s[..8] == head && s[8..] == tail;
      Widths();
      IntegerRoundTrip(ws[0], 8);
      WordsRoundTrip(ws[1..], rest);
      assert ws == [ws[0]] + ws[1..];
    } else {
      assert EncodeWords(ws) + rest == rest;
    }
  }

  lemma NumRoundTrip(v: nat, width: nat, rest: seq<Byte>)
    requires v < Pow256(width)
    ensures ParseNum(width, LittleEndian(v, width) + rest) == Some((Num(v), rest))
  {
    var s := LittleEndian(v, width) + rest;
    assert s[..width] == LittleEndian(v, width) && s[width..] == rest;
    IntegerRoundTrip(v, width);
  }

  lemma CountedWords(limit: nat, count: seq<Byte>, tail: seq<Byte>)
    requires |count| == 4 && FromLittleEndian(count) <= limit && ParseWords(FromLittleEndian(count), tail).Some?
    ensures var r := ParseWords(FromLittleEndian(count), tail).value;
      ParseField(Words(limit), count + tail) == Some((List(r.0), r.1))
  {
    assert (count + tail)[..4] == count && (count + tail)[4..] == tail;
  }

  lemma ListRoundTrip(limit: nat, ws: seq<U64>, rest: seq<Byte>)
    requires |ws| <= limit < 0x1_0000_0000
    ensures ParseField(Words(limit), EncodeField(Words(limit), List(ws)) + rest) == Some((List(ws), rest))
  {
    var count := LittleEndian(|ws|, 4);
    assert |ws| % 0x1_0000_0000 == |ws|;
    assert EncodeField(Words(limit), List(ws)) + rest == count + (EncodeWords(ws) + rest);
    U32RoundTrip(|ws|);
    WordsRoundTrip(ws, rest);
    CountedWords(limit, count, EncodeWords(ws) + rest);
  }

  lemma FieldRoundTrip(k: Kind, f: Field, rest: seq<Byte>)
    requires Fits(k, f)
    ensures ParseField(k, EncodeField(k, f) + rest) == Some((f, rest))
  {
    match k
    case Text => StringRoundTrip(f.s, rest);
    case Words(limit) => ListRoundTrip(limit, f.ws, rest);
    case _ =>
      Widths();
      NumRoundTrip(f.v, Width(k), rest);
  }

  // ----- one record -----

  function EncodeFields(ks: seq<Kind>, fs: seq<Field>): seq<Byte> {
    if ks == [] || fs == [] then [] else EncodeField(ks[0], fs[0]) + EncodeFields(ks[1..], fs[1..])
  }

  function ParseFields(ks: seq<Kind>, s: seq<Byte>): (r: Option<(seq<Field>, seq<Byte>)>)
    ensures r.Some? ==> |r.value.0| == |ks|
  {
    if ks == [] then Some(([], s))
    else
      var first := ParseField(ks[0], s);
      if first.None? then None
      else
        var rest := ParseFields(ks[1..], first.value.1);
        if rest.None? then None else Some(([first.value.0] + rest.value.0, rest.value.1))
  }

  lemma {:induction false} FieldsRoundTrip(ks: seq<Kind>, fs: seq<Field>, rest: seq<Byte>)
    requires AllFit(ks, fs)
    ensures ParseFields(ks, EncodeFields(ks, fs) + rest) == Some((fs, rest))
  {
    if ks == [] {
      assert EncodeFields(ks, fs) + rest == rest;
    } else {
      var tail := EncodeFields(ks[1..], fs[1..]) + rest;
      JoinBytes(EncodeField(ks[0], fs[0]), EncodeFields(ks[1..], fs[1..]), rest);
      FieldRoundTrip(ks[0], fs[0], tail);
      FieldsRoundTrip(ks[1..], fs[1..], rest);
      assert fs == [fs[0]] + fs[1..];
    }
  }

  // ----- tables -----

  type Writer<!V> = V -> seq<Byte>
  type Reader<!V> = seq<Byte> -> Option<(V, seq<Byte>)>

  /** How one kind of record is laid out and rebuilt. */
  datatype Layout<!V> = Layout(kinds: seq<Kind>, fields: V -> seq<Field>, make: seq<Field> -> V)

  function WriteWith<V>(l: Layout<V>): Writer<V> {
    (v: V) => EncodeFields(l.kinds, l.fields(v))
  }

  function ReadWith<V>(l: Layout<V>): Reader<V> {
    (s: seq<Byte>) =>
      var r := ParseFields(l.kinds, s);
      if r.None? then None else Some((l.make(r.value.0), r.value.1))
  }

  /** The record survives being written and read, whatever follows it. */
  ghost predicate Storable<V>(write: Writer<V>, read: Reader<V>, v: V) {
    forall rest :: read(write(v) + rest) == Some((v, rest))
  }

  lemma LayoutStores<V>(l: Layout<V>, v: V)
    requires AllFit(l.kinds, l.fields(v)) && l.make(l.fields(v)) == v
    ensures Storable(WriteWith(l), ReadWith(l), v)
  {
    forall rest ensures ReadWith(l)(WriteWith(l)(v) + rest) == Some((v, rest)) {
      FieldsRoundTrip(l.kinds, l.fields(v), rest);
    }
  }

  function EncodeRecords<V>(write: Writer<V>, rs: seq<V>): seq<Byte> {
    if rs == [] then [] else write(rs[0]) + EncodeRecords(write, rs[1..])
  }

  function EncodeTable<V>(write: Writer<V>, rs: seq<V>): seq<Byte> {
    LittleEndian(|rs| % 0x1_0000_0000, 4) + EncodeRecords(write, rs)
  }

  /** Reads n records into a table, refusing a key that is already there. */
  function ParseRecords<V, K>(read: Reader<V>, key: V -> K, n: nat, s: seq<Byte>, m: map<K, V>): Option<(map<K, V>, seq<Byte>)> {
    if n == 0 then Some((m, s))
    else
      var r := read(s);
      if r.None? || key(r.value.0) in m then None
      else ParseRecords(read, key, n - 1, r.value.1, m[key(r.value.0) := r.value.0])
  }

  function ParseTable<V, K>(read: Reader<V>, key: V -> K, limit: nat, s: seq<Byte>): Option<(map<K, V>, seq<Byte>)> {
    if |s| < 4 then None
    else
      var n := FromLittleEndian(s[..4]);
      if n > limit then None else ParseRecords(read, key, n, s[4..], map[])
  }

  lemma {:induction false} ParsedRecords<V, K>(read: Reader<V>, key: V -> K, n: nat, s: seq<Byte>, m: map<K, V>)
    requires ParseRecords(read, key, n, s, m).Some? && forall k :: k in m ==> key(m[k]) == k
    ensures var t := ParseRecords(read, key, n, s, m).value.0; |t| == |m| + n && forall k :: k in t ==> key(t[k]) == k
    decreases n
  {
    if n > 0 {
      var r := read(s).value;
      ParsedRecords(read, key, n - 1, r.1, m[key(r.0) := r.0]);
    }
  }

  /** A parsed table is keyed by its records and no larger than its limit. */
  lemma ParsedTable<V, K>(read: Reader<V>, key: V -> K, limit: nat, s: seq<Byte>)
    requires ParseTable(read, key, limit, s).Some?
    ensures var t := ParseTable(read, key, limit, s).value.0; |t| <= limit && forall k :: k in t ==> key(t[k]) == k
  {
    ParsedRecords(read, key, FromLittleEndian(s[..4]), s[4..], map[]);
  }

  lemma StageFirst<V, K>(m: map<K, V>, rs: seq<V>, key: V -> K)
    requires rs != []
    ensures Stage(m, rs, key) == Stage(m[key(rs[0]) := rs[0]], rs[1..], key)
    decreases |rs|
  {
    var last := |rs| - 1;
    if last > 0 {
      StageFirst(m, rs[..last], key);
      assert rs[..last][1..] == rs[1..][..last - 1];
    }
  }

  predicate FreshKeys<V, K>(rs: seq<V>, key: V -> K, m: map<K, V>) {
    && (forall i :: 0 <= i < |rs| ==> key(rs[i]) !in m)
    && (forall i, j :: 0 <= i < j < |rs| ==> key(rs[i]) != key(rs[j]))
  }

  lemma {:induction false} RecordsRoundTrip<V, K>(write: Writer<V>, read: Reader<V>, key: V -> K, rs: seq<V>, rest: seq<Byte>, m: map<K, V>)
    requires (forall i :: 0 <= i < |rs| ==> Storable(write, read, rs[i])) && FreshKeys(rs, key, m)
    ensures ParseRecords(read, key, |rs|, EncodeRecords(write, rs) + rest, m) == Some((Stage(m, rs, key), rest))
    decreases |rs|
  {
    if rs == [] {
      assert EncodeRecords(write, rs) + rest == rest;
    } else {
      var v, tail := rs[0], EncodeRecords(write, rs[1..]) + rest;
      assert EncodeRecords(write, rs) + rest == write(v) + tail;
      assert Storable(write, read, v);
      RecordsRoundTrip(write, read, key, rs[1..], rest, m[key(v) := v]);
      StageFirst(m, rs, key);
    }
  }

  lemma {:induction false} WalkSize<V, K>(rs: seq<V>, ks: seq<K>, n: map<K, V>)
    requires InOrder(rs, ks, n)
    ensures |rs| == |n|
    decreases |rs|
  {
    if rs == [] {
      assert n == map[];
    } else {
      var last := |rs| - 1;
      var k := ks[last];
      var less := n - {k};
      assert ks == ks[..last] + [k];
      assert InOrder(rs[..last], ks[..last], less);
      WalkSize(rs[..last], ks[..last], less);
      assert n == less[k := n[k]];
    }
  }

  /** A listing has one record for each key. */
  lemma ListingFacts<V(!new), K(!new)>(rs: seq<V>, n: map<K, V>, key: V -> K)
    requires ListsTable(rs, n) && forall k :: k in n ==> key(n[k]) == k
    ensures |rs| == |n| && FreshKeys(rs, key, map[])
    ensures forall i :: 0 <= i < |rs| ==> key(rs[i]) in n && n[key(rs[i])] == rs[i]
  {
    var ks :| InOrder(rs, ks, n);
    WalkSize(rs, ks, n);
    forall i | 0 <= i < |rs| ensures key(rs[i]) == ks[i] {}
  }

  lemma CountThen<V, K>(read: Reader<V>, key: V -> K, count: seq<Byte>, tail: seq<Byte>, limit: nat)
    requires |count| == 4 && FromLittleEndian(count) <= limit
    ensures ParseTable(read, key, limit, count + tail) == ParseRecords(read, key, FromLittleEndian(count), tail, map[])
  {
    assert (count + tail)[..4] == count && (count + tail)[4..] == tail;
  }

  lemma ListedRoundTrip<V(!new), K(!new)>(write: Writer<V>, read: Reader<V>, key: V -> K, n: map<K, V>, rs: seq<V>, rest: seq<Byte>)
    requires ListsTable(rs, n)
    requires forall k :: k in n ==> key(n[k]) == k && Storable(write, read, n[k])
    ensures |rs| == |n| && ParseRecords(read, key, |rs|, EncodeRecords(write, rs) + rest, map[]) == Some((n, rest))
  {
    ListingFacts(rs, n, key);
    RecordsRoundTrip(write, read, key, rs, rest, map[]);
    StagedAlone(n, rs, key);
  }

  lemma CountBytes(n: nat)
    requires n < 0x1_0000_0000
    ensures FromLittleEndian(LittleEndian(n % 0x1_0000_0000, 4)) == n
  {
    var v: U32 := n;
    assert n % 0x1_0000_0000 == v;
    U32RoundTrip(v);
  }

  lemma JoinBytes(a: seq<Byte>, b: seq<Byte>, c: seq<Byte>)
    ensures a + b + c == a + (b + c)
  {}

  /** A table written in any order reads back as the table. */
  lemma TableRoundTrip<V(!new), K(!new)>(write: Writer<V>, read: Reader<V>, key: V -> K, n: map<K, V>, rs: seq<V>, limit: nat, rest: seq<Byte>)
    requires ListsTable(rs, n) && |n| <= limit < 0x1_0000_0000
    requires forall k :: k in n ==> key(n[k]) == k && Storable(write, read, n[k])
    ensures ParseTable(read, key, limit, EncodeTable(write, rs) + rest) == Some((n, rest))
  {
    ListedRoundTrip(write, read, key, n, rs, rest);
    CountBytes(|rs|);
    var count := LittleEndian(|rs| % 0x1_0000_0000, 4);
    CountThen(read, key, count, EncodeRecords(write, rs) + rest, limit);
    JoinBytes(count, EncodeRecords(write, rs), rest);
  }
}
