/** The encoders append to a writer and the decoders advance a reader, field by field and record by record. */
module Store {
  import opened Wire
  import opened Crc
  import opened Framing
  import opened Fabric
  import opened Registry
  import opened FabricRegistries
  import opened Listing
  import opened Codec
  import opened Persistence
  import opened Payload
  import opened Envelope

  // ----- writing -----

  method WriteWords(w: ByteWriter, ws: seq<Wire.U64>)
    modifies w
    ensures w.data == old(w.data) + EncodeWords(ws)
  {
    for i := 0 to |ws|
      invariant w.data + EncodeWords(ws[i..]) == old(w.data) + EncodeWords(ws)
    {
      ghost var before := w.data;
      assert ws[i..][1..] == ws[i + 1..];
      w.WriteUnsigned(ws[i], 8);
      assert before + EncodeWords(ws[i..]) == w.data + EncodeWords(ws[i + 1..]);
    }
  }

  lemma Associate(a: seq<Byte>, b: seq<Byte>, c: seq<Byte>)
    ensures a + b + c == a + (b + c)
  {}

  method WriteList(w: ByteWriter, ws: seq<Wire.U64>)
    modifies w
    ensures w.data == old(w.data) + (LittleEndian(|ws| % 0x1_0000_0000, 4) + EncodeWords(ws))
  {
    ghost var start := w.data;
    var n := |ws| % 0x1_0000_0000;
    w.WriteUnsigned(n, 4);
    WriteWords(w, ws);
    Associate(start, LittleEndian(n, 4), EncodeWords(ws));
  }

  method WriteField(w: ByteWriter, k: Kind, f: Field)
    modifies w
    ensures w.data == old(w.data) + EncodeField(k, f)
  {
    match f
    case Num(v) => w.WriteUnsigned(v, Width(k));
    case Txt(s) => w.WriteStr(s);
    case List(ws) => WriteList(w, ws);
  }

  lemma {:induction false} FieldsAppend(ks: seq<Kind>, fs: seq<Field>, k: Kind, f: Field)
    requires |ks| == |fs|
    ensures EncodeFields(ks + [k], fs + [f]) == EncodeFields(ks, fs) + EncodeField(k, f)
  {
    if ks == [] {
      assert EncodeFields([k], [f]) == EncodeField(k, f) + EncodeFields([], []);
    } else {
      FieldsAppend(ks[1..], fs[1..], k, f);
      assert (ks + [k])[1..] == ks[1..] + [k] && (fs + [f])[1..] == fs[1..] + [f];
      Associate(EncodeField(ks[0], fs[0]), EncodeFields(ks[1..], fs[1..]), EncodeField(k, f));
    }
  }

  lemma FieldsNext(ks: seq<Kind>, fs: seq<Field>, i: nat)
    requires |ks| == |fs| && i < |ks|
    ensures EncodeFields(ks[..i + 1], fs[..i + 1]) == EncodeFields(ks[..i], fs[..i]) + EncodeField(ks[i], fs[i])
  {
    assert ks[..i + 1] == ks[..i] + [ks[i]] && fs[..i + 1] == fs[..i] + [fs[i]];
    FieldsAppend(ks[..i], fs[..i], ks[i], fs[i]);
  }

  method WriteFields(w: ByteWriter, ks: seq<Kind>, fs: seq<Field>)
    requires |ks| == |fs|
    modifies w
    ensures w.data == old(w.data) + EncodeFields(ks, fs)
  {
    ghost var start := w.data;
    for i := 0 to |ks|
      invariant w.data == start + EncodeFields(ks[..i], fs[..i])
    {
      WriteField(w, ks[i], fs[i]);
      Associate(start, EncodeFields(ks[..i], fs[..i]), EncodeField(ks[i], fs[i]));
      FieldsNext(ks, fs, i);
    }
    assert ks[..|ks|] == ks && fs[..|fs|] == fs;
  }

  lemma {:induction false} RecordsAppend<V>(write: Writer<V>, rs: seq<V>, v: V)
    ensures EncodeRecords(write, rs + [v]) == EncodeRecords(write, rs) + write(v)
  {
    if rs != [] {
      RecordsAppend(write, rs[1..], v);
      assert (rs + [v])[1..] == rs[1..] + [v];
    }
  }

  /** A layout writes as many fields as it declares. */
  ghost predicate Shaped<V(!new)>(l: Layout<V>) {
    forall v :: |l.fields(v)| == |l.kinds|
  }

  lemma LayoutsShaped()
    ensures Shaped(DEVICE_LAYOUT) && Shaped(SWITCH_LAYOUT) && Shaped(PORT_LAYOUT) && Shaped(LINK_LAYOUT) && Shaped(PARTITION_LAYOUT)
  {}

  method WriteRecord<V>(w: ByteWriter, l: Layout<V>, v: V)
    requires |l.fields(v)| == |l.kinds|
    modifies w
    ensures w.data == old(w.data) + WriteWith(l)(v)
  {
    WriteFields(w, l.kinds, l.fields(v));
  }

  /** The keys walked so far: all but those still to do. */
  predicate Walked<K(==), V(==)>(rs: seq<V>, ks: seq<K>, m: map<K, V>, todo: set<K>) {
    InOrder(rs, ks, m - todo) && todo <= m.Keys
  }

  lemma WalkOn<K, V>(rs: seq<V>, ks: seq<K>, m: map<K, V>, todo: set<K>, k: K)
    requires Walked(rs, ks, m, todo) && k in todo
    ensures Walked(rs + [m[k]], ks + [k], m, todo - {k})
  {
    var n := m - (todo - {k});
    assert forall j :: j in n <==> j == k || j in m - todo;
  }

  lemma WalkStart<K, V>(m: map<K, V>)
    ensures Walked<K, V>([], [], m, m.Keys)
  {
    assert m - m.Keys == map[];
  }

  method PickFrom<K(==), V>(m: map<K, V>, ghost rs: seq<V>, ghost ks: seq<K>, todo: set<K>) returns (k: K)
    requires Walked(rs, ks, m, todo) && todo != {}
    ensures k in todo && k in m && Walked(rs + [m[k]], ks + [k], m, todo - {k})
  {
    k :| k in todo;
    WalkOn(rs, ks, m, todo, k);
  }

  lemma WalkDone<K(!new), V>(rs: seq<V>, ks: seq<K>, m: map<K, V>)
    requires Walked(rs, ks, m, {})
    ensures ListsTable(rs, m) && |rs| == |m|
  {
    assert m - {} == m;
    WalkSize(rs, ks, m);
  }

  method WriteRecords<K(==, !new), V(!new)>(w: ByteWriter, l: Layout<V>, m: map<K, V>) returns (ghost rs: seq<V>)
    requires Shaped(l)
    modifies w
    ensures ListsTable(rs, m) && |rs| == |m| && w.data == old(w.data) + EncodeRecords(WriteWith(l), rs)
  {
    rs := [];
    ghost var ks: seq<K> := [];
    ghost var start, write := w.data, WriteWith(l);
    var todo := m.Keys;
    WalkStart(m);
    while todo != {}
      invariant Walked(rs, ks, m, todo)
      invariant w.data == start + EncodeRecords(write, rs)
    {
      var k := PickFrom(m, rs, ks, todo);
      WriteRecord(w, l, m[k]);
      RecordsAppend(write, rs, m[k]);
      Associate(start, EncodeRecords(write, rs), write(m[k]));
      rs, ks := rs + [m[k]], ks + [k];
      todo := todo - {k};
    }
    WalkDone(rs, ks, m);
  }

  /** A count, then every record of the table in some order. */
  method WriteTable<K(==, !new), V(!new)>(w: ByteWriter, l: Layout<V>, m: map<K, V>) returns (ghost rs: seq<V>)
    requires Shaped(l)
    modifies w
    ensures ListsTable(rs, m) && w.data == old(w.data) + EncodeTable(WriteWith(l), rs)
  {
    ghost var start := w.data;
    var n := |m| % 0x1_0000_0000;
    w.WriteUnsigned(n, 4);
    rs := WriteRecords(w, l, m);
    Associate(start, LittleEndian(n, 4), EncodeRecords(WriteWith(l), rs));
  }

  lemma JoinTables(start: seq<Byte>, d: seq<Byte>, s: seq<Byte>, p: seq<Byte>, l: seq<Byte>, q: seq<Byte>)
    ensures start + d + s + p + l + q == start + (d + s + p + l + q)
  {}

  method WriteTables(w: ByteWriter, t: Topology) returns (ghost e: BulkEdit)
    modifies w
    ensures Lists(e, t) && w.data == old(w.data) + EncodeTables(e)
  {
    LayoutsShaped();
    ghost var d := WriteTable(w, DEVICE_LAYOUT, t.devices);
    ghost var s := WriteTable(w, SWITCH_LAYOUT, t.switches);
    ghost var p := WriteTable(w, PORT_LAYOUT, t.ports);
    ghost var l := WriteTable(w, LINK_LAYOUT, t.links);
    ghost var q := WriteTable(w, PARTITION_LAYOUT, t.partitions);
    e := BulkEdit(d, s, p, l, q);
    JoinTables(old(w.data), EncodeTable(WriteWith(DEVICE_LAYOUT), d), EncodeTable(WriteWith(SWITCH_LAYOUT), s),
               EncodeTable(WriteWith(PORT_LAYOUT), p), EncodeTable(WriteWith(LINK_LAYOUT), l),
               EncodeTable(WriteWith(PARTITION_LAYOUT), q));
  }

  /** encodeTopologyPayload: the header fields, then the tables. */
  method WritePayload(w: ByteWriter, t: Topology) returns (ghost e: BulkEdit)
    modifies w
    ensures Lists(e, t) && w.data == old(w.data) + EncodePayload(t, e)
  {
    WriteFields(w, HEADER_KINDS, HeaderFields(t));
    e := WriteTables(w, t);
    Associate(old(w.data), EncodeFields(HEADER_KINDS, HeaderFields(t)), EncodeTables(e));
  }

  /** Magic, version, header checksum, payload, payload checksum. */
  method SealPayload(payload: seq<Byte>) returns (s: seq<Byte>)
    ensures s == Seal(Crc32, payload)
  {
    var w := new ByteWriter();
    w.WriteRaw(MAGIC);
    w.WriteUnsigned(FORMAT_VERSION, 4);
    assert w.data == FileHead();
    var headCrc := ComputeCrc32(w.data);
    w.WriteUnsigned(headCrc, 4);
    w.WriteRaw(payload);
    var bodyCrc := ComputeCrc32(payload);
    w.WriteUnsigned(bodyCrc, 4);
    s := w.data;
  }

  lemma NothingBefore(x: seq<Byte>)
    ensures [] + x == x
  {}

  method EncodeTopology(t: Topology) returns (bytes: seq<Byte>, ghost e: BulkEdit)
    ensures Lists(e, t) && bytes == EncodePayload(t, e)
  {
    var w := new ByteWriter();
    e := WritePayload(w, t);
    bytes := w.data;
    NothingBefore(EncodePayload(t, e));
  }

  /** serialize. */
  method SerializeRegistry(reg: FabricRegistry) returns (bytes: seq<Byte>, ghost e: BulkEdit)
    ensures Lists(e, reg.current) && bytes == Serialize(Crc32, reg.State(), e)
  {
    var payload;
    payload, e := EncodeTopology(reg.current);
    bytes := SealPayload(payload);
  }

  // ----- reading -----

  method ReadWords(r: ByteReader, n: nat) returns (ok: bool, ws: seq<Wire.U64>)
    requires r.Valid()
    modifies r
    ensures r.Valid() && ok == ParseWords(n, old(r.Remaining())).Some?
    ensures ok ==> ParseWords(n, old(r.Remaining())) == Some((ws, r.Remaining()))
  {
    ws := [];
    ghost var start := r.Remaining();
    BeforeNothing(ParseWords(n, start));
    for i := 0 to n
      invariant r.Valid()
      invariant ParseWords(n, start) == Before(ws, ParseWords(n - i, r.Remaining()))
    {
      ghost var here := r.Remaining();
      var good, v := r.ReadUnsigned(8);
      if !good { return false, ws; }
      Widths();
      WordNext(ws, n - i, here, v);
      ws := ws + [v];
    }
    assert ws + [] == ws;
    ok := true;
  }

  function Before<T>(xs: seq<T>, r: Option<(seq<T>, seq<Byte>)>): Option<(seq<T>, seq<Byte>)> {
    if r.None? then None else Some((xs + r.value.0, r.value.1))
  }

  lemma BeforeNothing<T>(r: Option<(seq<T>, seq<Byte>)>)
    ensures Before([], r) == r
  {
    if r.Some? { assert [] + r.value.0 == r.value.0; }
  }

  lemma WordNext(ws: seq<Wire.U64>, n: nat, s: seq<Byte>, v: Wire.U64)
    requires n > 0 && |s| >= 8 && v == FromLittleEndian(s[..8])
    ensures Before(ws, ParseWords(n, s)) == Before(ws + [v], ParseWords(n - 1, s[8..]))
  {
    var rest := ParseWords(n - 1, s[8..]);
    if rest.Some? { assert ws + ([v] + rest.value.0) == ws + [v] + rest.value.0; }
  }

  method ReadNum(r: ByteReader, width: nat) returns (ok: bool, f: Field)
    requires r.Valid()
    modifies r
    ensures r.Valid() && ok == ParseNum(width, old(r.Remaining())).Some?
    ensures ok ==> ParseNum(width, old(r.Remaining())) == Some((f, r.Remaining()))
  {
    var v;
    ok, v := r.ReadUnsigned(width);
    f := Num(v);
  }

  method ReadList(r: ByteReader, limit: nat) returns (ok: bool, f: Field)
    requires r.Valid()
    modifies r
    ensures r.Valid() && ok == ParseField(Words(limit), old(r.Remaining())).Some?
    ensures ok ==> ParseField(Words(limit), old(r.Remaining())) == Some((f, r.Remaining()))
  {
    var n;
    f := List([]);
    ok, n := r.ReadUnsigned(4);
    if !ok { return; }
    if n > limit { return false, f; }
    var ws;
    ok, ws := ReadWords(r, n);
    f := List(ws);
  }

  method ReadText(r: ByteReader) returns (ok: bool, f: Field)
    requires r.Valid()
    modifies r
    ensures r.Valid() && ok == ParseField(Text, old(r.Remaining())).Some?
    ensures ok ==> ParseField(Text, old(r.Remaining())) == Some((f, r.Remaining()))
  {
    var s;
    ok, s := r.ReadStr();
    f := Txt(s);
  }

  method ReadField(r: ByteReader, k: Kind) returns (ok: bool, f: Field)
    requires r.Valid()
    modifies r
    ensures r.Valid() && ok == ParseField(k, old(r.Remaining())).Some?
    ensures ok ==> ParseField(k, old(r.Remaining())) == Some((f, r.Remaining()))
  {
    match k
    case Text => ok, f := ReadText(r);
    case Words(limit) => ok, f := ReadList(r, limit);
    case _ => ok, f := ReadNum(r, Width(k));
  }

  lemma FieldNext(fs: seq<Field>, ks: seq<Kind>, s: seq<Byte>, f: Field, rest: seq<Byte>)
    requires ks != [] && ParseField(ks[0], s) == Some((f, rest))
    ensures Before(fs, ParseFields(ks, s)) == Before(fs + [f], ParseFields(ks[1..], rest))
  {
    var more := ParseFields(ks[1..], rest);
    if more.Some? { assert fs + ([f] + more.value.0) == fs + [f] + more.value.0; }
  }

  method ReadFields(r: ByteReader, ks: seq<Kind>) returns (ok: bool, fs: seq<Field>)
    requires r.Valid()
    modifies r
    ensures r.Valid() && ok == ParseFields(ks, old(r.Remaining())).Some?
    ensures ok ==> ParseFields(ks, old(r.Remaining())) == Some((fs, r.Remaining()))
  {
    fs := [];
    ghost var start := r.Remaining();
    BeforeNothing(ParseFields(ks, start));
    assert ks[0..] == ks;
    for i := 0 to |ks|
      invariant r.Valid()
      invariant ParseFields(ks, start) == Before(fs, ParseFields(ks[i..], r.Remaining()))
    {
      ghost var here := r.Remaining();
      var good, f := ReadField(r, ks[i]);
      assert ks[i..][1..] == ks[i + 1..];
      if !good { return false, fs; }
      FieldNext(fs, ks[i..], here, f, r.Remaining());
      fs := fs + [f];
    }
    assert fs + [] == fs;
    ok := true;
  }

  method ReadRecord<V>(r: ByteReader, l: Layout<V>) returns (ok: bool, v: V)
    requires r.Valid()
    modifies r
    ensures r.Valid() && ok == ReadWith(l)(old(r.Remaining())).Some?
    ensures ok ==> ReadWith(l)(old(r.Remaining())) == Some((v, r.Remaining()))
  {
    var fs;
    ok, fs := ReadFields(r, l.kinds);
    v := l.make(fs);
  }

  /** A counted loop that refuses a key it has already read. */
  method ReadRecords<V, K(==)>(r: ByteReader, l: Layout<V>, key: V -> K, n: nat) returns (ok: bool, m: map<K, V>)
    requires r.Valid()
    modifies r
    ensures r.Valid() && ok == ParseRecords(ReadWith(l), key, n, old(r.Remaining()), map[]).Some?
    ensures ok ==> ParseRecords(ReadWith(l), key, n, old(r.Remaining()), map[]) == Some((m, r.Remaining()))
  {
    m := map[];
    ghost var start, read := r.Remaining(), ReadWith(l);
    for i := 0 to n
      invariant r.Valid()
      invariant ParseRecords(read, key, n, start, map[]) == ParseRecords(read, key, n - i, r.Remaining(), m)
    {
      var good, v := ReadRecord(r, l);
      if !good || key(v) in m { return false, m; }
      m := m[key(v) := v];
    }
    ok := true;
  }

  method ReadTable<V, K(==)>(r: ByteReader, l: Layout<V>, key: V -> K, limit: nat) returns (ok: bool, m: map<K, V>)
    requires r.Valid()
    modifies r
    ensures r.Valid() && ok == ParseTable(ReadWith(l), key, limit, old(r.Remaining())).Some?
    ensures ok ==> ParseTable(ReadWith(l), key, limit, old(r.Remaining())) == Some((m, r.Remaining()))
  {
    var n;
    m := map[];
    ok, n := r.ReadUnsigned(4);
    if !ok { return; }
    if n > limit { return false, m; }
    ok, m := ReadRecords(r, l, key, n);
  }

  method ReadTables(r: ByteReader) returns (ok: bool, b: Tables)
    requires r.Valid()
    modifies r
    ensures r.Valid() && ok == ParseTables(old(r.Remaining())).Some?
    ensures ok ==> ParseTables(old(r.Remaining())) == Some((b, r.Remaining()))
  {
    b := Tables(map[], map[], map[], map[], map[]);
    var d, s, p, l, q;
    ok, d := ReadTable(r, DEVICE_LAYOUT, DeviceKey, MAX_DEVICES);
    if !ok { return; }
    ok, s := ReadTable(r, SWITCH_LAYOUT, SwitchKey, MAX_SWITCHES);
    if !ok { return; }
    ok, p := ReadTable(r, PORT_LAYOUT, PortKey, MAX_PORTS);
    if !ok { return; }
    ok, l := ReadTable(r, LINK_LAYOUT, LinkKey, MAX_LINKS);
    if !ok { return; }
    ok, q := ReadTable(r, PARTITION_LAYOUT, PartitionKey, MAX_PARTITIONS);
    if !ok { return; }
    b := Tables(d, s, p, l, q);
  }

  method JudgeTables(h: seq<Field>, b: Tables, r: ByteReader) returns (t: Option<Topology>)
    requires r.Valid()
    ensures t == Judge(h, b, r.Remaining())
  {
    if r.pos != |r.data| { return None; }
    var topo := MakeTopology(h, b);
    var violations := CheckIntegrity(topo);
    if violations != [] { return None; }
    t := Some(topo);
  }

  method ReadBody(r: ByteReader) returns (ok: bool, h: seq<Field>, b: Tables)
    requires r.Valid()
    modifies r
    ensures r.Valid() && ok == ParseBody(old(r.Remaining())).Some?
    ensures ok ==> ParseBody(old(r.Remaining())) == Some(((h, b), r.Remaining()))
  {
    b := Tables(map[], map[], map[], map[], map[]);
    ok, h := ReadFields(r, HEADER_KINDS);
    if !ok { return; }
    ok, b := ReadTables(r);
  }

  /** decodeTopology: the header, the tables, nothing left over, integrity. */
  method DecodeTopology(bytes: seq<Byte>) returns (t: Option<Topology>)
    ensures t == ParseTopology(bytes)
  {
    var r := new ByteReader(bytes);
    var ok, h, b := ReadBody(r);
    if !ok { return None; }
    t := JudgeTables(h, b, r);
  }

  method CheckEnvelope(b: seq<Byte>) returns (o: Opened)
    requires |b| >= HEADER + 4
    ensures o == OpenBody(Crc32, b)
  {
    var n := |b| - HEADER - 4;
    var damage := CheckBody(b, n);
    if n == 0 || damage.Some? { return Rejected(INTEGRITY_FAILURE); }
    o := Contents(b[HEADER..HEADER + n]);
  }

  method OpenEnvelope(b: seq<Byte>) returns (o: Opened)
    ensures o == Open(Crc32, b)
  {
    if |b| < HEADER + 4 { return Rejected(INTEGRITY_FAILURE); }
    var bad := HeadError(b);
    if bad.Some? { return Rejected(bad.value); }
    o := CheckEnvelope(b);
  }

  /** deserialize. */
  method DeserializeRegistry(b: seq<Byte>) returns (res: Restored)
    ensures res == Deserialize(Crc32, b)
  {
    var o := OpenEnvelope(b);
    if o.Rejected? { return Failed(o.error); }
    var t := DecodeTopology(o.payload);
    if t.None? { return Failed(INTEGRITY_FAILURE); }
    res := Restored.Registry(Resume(t.value));
  }
}
