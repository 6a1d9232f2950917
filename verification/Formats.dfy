/**
 The bytes themselves: how frames, files and records are laid out, which bytes each reader accepts,
 and what it answers to any others.
 */
module Formats {
  import opened Wire
  import opened Crc
  import opened Framing
  import opened Fabric
  import opened Registry
  import opened Codec
  import opened Persistence
  import opened Payload
  import opened Envelope

  // ----- numbers -----

  /** The number four bytes spell, lowest byte first. */
  function Word(b: seq<Byte>, i: nat): nat
    requires i + 4 <= |b|
  {
    b[i] as int + 0x100 * (b[i + 1] as int) + 0x1_0000 * (b[i + 2] as int) + 0x100_0000 * (b[i + 3] as int)
  }

  lemma WordMeans(b: seq<Byte>, i: nat)
    requires i + 4 <= |b|
    ensures FromLittleEndian(b[i..i + 4]) == Word(b, i)
  {
    var s := b[i..i + 4];
    assert FromLittleEndian(s) == s[0] + 256 * FromLittleEndian(s[1..]);
    assert s[1..][1..] == s[2..] && s[2..][1..] == s[3..] && s[3..][1..] == [];
    assert FromLittleEndian(s[2..]) == s[2] + 256 * FromLittleEndian(s[3..]) && FromLittleEndian(s[3..]) == s[3];
  }

  lemma WordSpelled(v: Wire.U32, s: seq<Byte>)
    requires |s| == 4
    ensures s == LittleEndian(v, 4) <==> Word(s, 0) == v
  {
    assert s[0..4] == s;
    WordMeans(s, 0);
    U32RoundTrip(v);
    BytesRoundTrip(s);
  }

  /** The number eight bytes spell. */
  lemma LongMeans(s: seq<Byte>)
    requires |s| == 8
    ensures FromLittleEndian(s) == Word(s, 0) + 0x1_0000_0000 * Word(s, 4)
  {
    assert s[1..][1..] == s[2..] && s[2..][1..] == s[3..] && s[3..][1..] == s[4..] == s[4..8];
    WordMeans(s, 4);
    assert FromLittleEndian(s) == s[0] + 256 * FromLittleEndian(s[1..]);
    assert FromLittleEndian(s[2..]) == s[2] + 256 * FromLittleEndian(s[3..]) && FromLittleEndian(s[3..]) == s[3] + 256 * Word(s, 4);
  }

  // ----- the checksum -----

  lemma {:induction false} XorCommutes(a: nat, b: nat)
    ensures Xor(a, b) == Xor(b, a)
    decreases a + b
  {
    if a + b > 0 { XorCommutes(a / 2, b / 2); }
  }

  /** Exclusive or with a run of ones complements the low bits. */
  lemma {:induction false} XorRun(a: nat, q: nat, r: nat, n: nat)
    requires a == ShiftLeft(q, n) + r && r < Pow2(n)
    ensures Xor(a, Pow2(n) - 1) == ShiftLeft(q, n) + (Pow2(n) - 1 - r)
    decreases n
  {
    if n == 0 {
      XorZero(a);
    } else {
      Halves(a, r % 2, ShiftLeft(q, n - 1) + r / 2);
      Halves(Pow2(n) - 1, 1, Pow2(n - 1) - 1);
      XorRun(a / 2, q, r / 2, n - 1);
      XorUnfolds(a, Pow2(n) - 1);
      SameBits(Xor(a, Pow2(n) - 1), ShiftLeft(q, n) + (Pow2(n) - 1 - r));
    }
  }

  lemma Complement(a: Wire.U32)
    ensures Xor(a, ALL_ONES) == Xor(ALL_ONES, a) == ALL_ONES - a
  {
    WordWidth();
    NothingShifted(32);
    XorRun(a, 0, a, 32);
    XorCommutes(a, ALL_ONES);
  }

  lemma {:induction false} NothingShifted(n: nat)
    ensures ShiftLeft(0, n) == 0
    decreases n
  {
    if n > 0 { NothingShifted(n - 1); }
  }

  lemma FeedbackOnce()
    ensures BitStep(0x1FF_FFFF) == 0xED47_7CDF
  {
    assert Pow2(24) == 0x100_0000 && ShiftLeft(0xED, 24) == 0xED00_0000 by { assert Pow2(12) == 0x1000; assert ShiftLeft(0xED, 12) == 0xE_D000; }
    XorRun(POLYNOMIAL, 0xED, 0xB8_8320, 24);
  }

  /** Zero bits at the low end are only shifted out. */
  lemma {:induction false} ShiftsOut(x: Wire.U32, n: nat, m: nat, c: Wire.U32)
    requires c == ShiftLeft(x, n)
    ensures BitSteps(c, n + m) == BitSteps(x, m)
    decreases n
  {
    if n > 0 { ShiftsOut(x, n - 1, m, c / 2); }
  }

  lemma OneByteIn()
    ensures ByteStep(ALL_ONES, 0x7F) == 0xED47_7CDF
  {
    Complement(0x7F);
    FeedbackOnce();
    assert ShiftLeft(0x1FF_FFFF, 7) == 0xFFFF_FF80;
    ShiftsOut(0x1FF_FFFF, 7, 1, 0xFFFF_FF80);
    assert BitSteps(0x1FF_FFFF, 1) == BitStep(0x1FF_FFFF);
  }

  /** Check values that fix the polynomial, the initial register, the final complement and the bit order. */
  lemma CheckValues()
    ensures Crc32([]) == 0 && Crc32([0x7F]) == 0x12B8_8320
  {
    Complement(ALL_ONES);
    Complement(0xED47_7CDF);
    OneByteIn();
    assert Register(ALL_ONES, [0x7F]) == Register(0xED47_7CDF, []);
  }

  // ----- frames -----

  /** A frame's magic, "1FVN". */
  predicate StartsFrame(b: seq<Byte>) {
    |b| >= 16 && b[..4] == [0x31, 0x46, 0x56, 0x4E]
  }

  predicate KnownVersion(b: seq<Byte>) {
    StartsFrame(b) && b[4] == 1
  }

  predicate KnownType(b: seq<Byte>) {
    KnownVersion(b) && 1 <= b[5] <= 10
  }

  /** A header that announces a payload of at most 16 MiB. */
  predicate Announces(b: seq<Byte>) {
    KnownType(b) && Word(b, 8) <= 16777216
  }

  predicate HeaderChecks(crc: Checksum, b: seq<Byte>)
    requires |b| >= 16
  {
    Word(b, 12) == crc(b[..12])
  }

  predicate PayloadChecks(crc: Checksum, b: seq<Byte>, n: nat)
    requires |b| >= n + 20
  {
    Word(b, n + 16) == crc(b[16..n + 16])
  }

  /** The first n + 20 bytes are an undamaged frame; bytes 6 and 7 may be anything the header checksum covers. */
  predicate Framed(crc: Checksum, b: seq<Byte>, n: nat) {
    Announces(b) && Word(b, 8) == n && |b| >= n + 20 && HeaderChecks(crc, b) && PayloadChecks(crc, b, n)
  }

  lemma MagicMeans(b: seq<Byte>)
    requires |b| >= 16
    ensures FromLittleEndian(b[..4]) == FRAME_MAGIC <==> StartsFrame(b)
  {
    var s := b[..4];
    assert s == b[0..4];
    WordMeans(b, 0);
    if Word(b, 0) == FRAME_MAGIC { assert s[0] == 0x31 && s[1] == 0x46 && s[2] == 0x56 && s[3] == 0x4E; }
  }

  lemma HeaderMeans(crc: Checksum, b: seq<Byte>)
    requires |b| >= 16
    ensures FromLittleEndian(b[..4]) == FRAME_MAGIC <==> StartsFrame(b)
    ensures Length(b) == Word(b, 8)
    ensures HeaderIntact(crc, b) <==> HeaderChecks(crc, b)
    ensures forall n: nat :: |b| >= n + 20 ==> (PayloadIntact(crc, b, n) <==> PayloadChecks(crc, b, n))
  {
    MagicMeans(b);
    WordMeans(b, 8);
    WordMeans(b, 12);
    forall n: nat | |b| >= n + 20 ensures PayloadIntact(crc, b, n) <==> PayloadChecks(crc, b, n) { WordMeans(b, n + 16); }
  }

  /** Which bytes decodeFrame accepts, and as which frame. */
  lemma DecodeMeans(crc: Checksum, b: seq<Byte>, f: Frame)
    ensures DecodeFrame(crc, b) == Decoded.Ok(f) <==>
      Framed(crc, b, |f.payload|) && f.kind == b[5] && f.payload == b[16..|f.payload| + 16]
  {
    if |b| >= 16 { HeaderMeans(crc, b); }
  }

  /** What it answers to any others; a damaged header is found before a missing tail. */
  lemma DecodeRefuses(crc: Checksum, b: seq<Byte>, e: FrameError)
    ensures DecodeFrame(crc, b) == Decoded.Err(e) <==>
      match e
      case TooShort => |b| < 16
      case BadMagic => |b| >= 16 && !StartsFrame(b)
      case UnsupportedVersion => StartsFrame(b) && !KnownVersion(b)
      case InvalidType => KnownVersion(b) && !KnownType(b)
      case LengthAbsurd => KnownType(b) && Word(b, 8) > 16777216
      case HeaderChecksum => Announces(b) && !HeaderChecks(crc, b)
      case Truncated => Announces(b) && HeaderChecks(crc, b) && |b| < Word(b, 8) + 20
      case PayloadChecksum =>
        Announces(b) && HeaderChecks(crc, b) && |b| >= Word(b, 8) + 20 && !PayloadChecks(crc, b, Word(b, 8))
  {
    if |b| >= 16 { HeaderMeans(crc, b); }
  }

  /** The stream waits for the whole frame before it looks at either checksum. */
  lemma InspectMeans(crc: Checksum, b: seq<Byte>, e: FrameError)
    ensures Inspect(crc, b) == NeedMore <==> |b| < 16 || (Announces(b) && |b| < Word(b, 8) + 20)
    ensures Inspect(crc, b) == Bad(e) <==>
      match e
      case TooShort => false
      case BadMagic => |b| >= 16 && !StartsFrame(b)
      case UnsupportedVersion => StartsFrame(b) && !KnownVersion(b)
      case InvalidType => KnownVersion(b) && !KnownType(b)
      case LengthAbsurd => KnownType(b) && Word(b, 8) > 16777216
      case HeaderChecksum => Announces(b) && |b| >= Word(b, 8) + 20 && !HeaderChecks(crc, b)
      case Truncated => false
      case PayloadChecksum =>
        Announces(b) && |b| >= Word(b, 8) + 20 && HeaderChecks(crc, b) && !PayloadChecks(crc, b, Word(b, 8))
  {
    if |b| >= 16 { HeaderMeans(crc, b); }
  }

  lemma HeadSpelled(f: Frame, s: seq<Byte>)
    requires |s| == 12 && |f.payload| < 0x1_0000_0000
    ensures s == Head(f) <==> s[..8] == [0x31, 0x46, 0x56, 0x4E, 1, f.kind, 0, 0] && Word(s, 8) == |f.payload|
  {
    var head, magic, len := Head(f), LittleEndian(FRAME_MAGIC, 4), LittleEndian(|f.payload|, 4);
    WordSpelled(FRAME_MAGIC, [0x31, 0x46, 0x56, 0x4E]);
    assert head[..8] == [0x31, 0x46, 0x56, 0x4E, 1, f.kind, 0, 0] && head[8..] == len;
    assert s == s[..8] + s[8..] && head == head[..8] + head[8..];
    WordSpelled(|f.payload|, s[8..]);
  }

  /** The bytes written for a frame are the only ones with two zero bytes after the type that decode to it. */
  lemma EncodingMeans(crc: Checksum, f: Frame, b: seq<Byte>)
    requires Sendable(f) && |b| == |f.payload| + 20
    ensures b == EncodeFrame(crc, f) <==> DecodeFrame(crc, b) == Decoded.Ok(f) && b[6] == b[7] == 0
  {
    DecodeMeans(crc, b, f);
    HeadMeans(f, b);
    WordSpelled(crc(b[..12]), b[12..16]);
    assert Word(b[12..16], 0) == Word(b, 12);
    TailSpelled(crc, b, |f.payload|);
    SplitFrame(crc, f, b);
  }

  lemma HeadMeans(f: Frame, b: seq<Byte>)
    requires Sendable(f) && |b| == |f.payload| + 20
    ensures b[..12] == Head(f) <==> Announces(b) && Word(b, 8) == |f.payload| && b[5] == f.kind && b[6] == b[7] == 0
  {
    HeadSpelled(f, b[..12]);
    assert b[..12][..8] == b[..4] + [b[4], b[5], b[6], b[7]];
    if b[..12][..8] == [0x31, 0x46, 0x56, 0x4E, 1, f.kind, 0, 0] {
      assert b[..4] == b[..12][..8][..4];
      assert b[4] == b[..12][..8][4] && b[5] == b[..12][..8][5] && b[6] == b[..12][..8][6] && b[7] == b[..12][..8][7];
    }
  }

  lemma TailSpelled(crc: Checksum, b: seq<Byte>, n: nat)
    requires |b| == n + 20
    ensures b[n + 16..] == LittleEndian(crc(b[16..n + 16]), 4) <==> PayloadChecks(crc, b, n)
  {
    WordSpelled(crc(b[16..n + 16]), b[n + 16..]);
  }

  lemma SplitFrame(crc: Checksum, f: Frame, b: seq<Byte>)
    requires |b| == |f.payload| + 20
    ensures b == EncodeFrame(crc, f) <==>
      && b[..12] == Head(f) && b[12..16] == LittleEndian(crc(Head(f)), 4)
      && b[16..|f.payload| + 16] == f.payload && b[|f.payload| + 16..] == LittleEndian(crc(f.payload), 4)
  {
    Slices(Head(f), LittleEndian(crc(Head(f)), 4), f.payload, LittleEndian(crc(f.payload), 4), [], EncodeFrame(crc, f));
    assert b == b[..12] + b[12..16] + b[16..|f.payload| + 16] + b[|f.payload| + 16..];
  }

  // ----- files -----

  /** A file's magic, "NVSFFAB1". */
  predicate StartsFile(b: seq<Byte>) {
    |b| >= 20 && b[..8] == [0x4E, 0x56, 0x53, 0x46, 0x46, 0x41, 0x42, 0x31]
  }

  /** An undamaged file of the present version with a payload. */
  predicate Filed(crc: Checksum, b: seq<Byte>) {
    && StartsFile(b) && |b| > 20 && Word(b, 8) == 1
    && HeaderChecks(crc, b) && PayloadChecks(crc, b, |b| - 20)
  }

  lemma HeadErrorMeans(b: seq<Byte>)
    requires |b| >= 20
    ensures HeadError(b) ==
      if StartsFile(b) then if Word(b, 8) > 1 then Some(FUTURE_VERSION) else if Word(b, 8) == 0 then Some(INTEGRITY_FAILURE) else None
      else Some(INTEGRITY_FAILURE)
  {
    WordMeans(b, 8);
  }

  /** Which bytes the envelope opens to a payload, and its error for a version still to come. */
  lemma OpenMeans(crc: Checksum, b: seq<Byte>, p: seq<Byte>)
    ensures Open(crc, b) == Contents(p) <==> Filed(crc, b) && p == b[16..|b| - 4]
    ensures Open(crc, b) == Rejected(FUTURE_VERSION) <==> StartsFile(b) && Word(b, 8) > 1
  {
    if |b| >= 20 {
      HeadErrorMeans(b);
      HeaderMeans(crc, b);
    }
  }

  /** A file opens exactly to the payload it was sealed from. */
  lemma OpensExactly(crc: Checksum, b: seq<Byte>, p: seq<Byte>)
    ensures Open(crc, b) == Contents(p) <==> p != [] && b == Seal(crc, p)
  {
    OpenMeans(crc, b, p);
    if p != [] { OpensSealed(crc, p); }
    if Filed(crc, b) && p == b[16..|b| - 4] {
      var head := FileHead();
      assert b == b[..12] + b[12..16] + p + b[|b| - 4..];
      WordSpelled(1, b[8..12]);
      assert b[..12] == b[..8] + b[8..12] == head;
      WordSpelled(crc(head), b[12..16]);
      WordSpelled(crc(p), b[|b| - 4..]);
    }
  }

  /** What reading a file answers. */
  lemma DeserializeMeans(crc: Checksum, b: seq<Byte>, r: State)
    ensures Deserialize(crc, b) == Restored.Registry(r) <==>
      && Filed(crc, b) && ParseTopology(b[16..|b| - 4]) == Some(r.current)
      && r.nextSnapshotId == (if r.current.id == 0xFFFF_FFFF_FFFF_FFFF then 0 else r.current.id + 1)
      && r.epoch == r.current.epoch && r.version == 1
    ensures Deserialize(crc, b) == Failed(FUTURE_VERSION) <==> StartsFile(b) && Word(b, 8) > 1
  {
    OpenMeans(crc, b, if |b| > 20 then b[16..|b| - 4] else []);
  }

  // ----- fields -----

  lemma NumExact(width: nat, s: seq<Byte>, v: nat, rest: seq<Byte>)
    ensures ParseNum(width, s) == Some((Num(v), rest)) <==> v < Pow256(width) && s == LittleEndian(v, width) + rest
  {
    if |s| >= width { BytesRoundTrip(s[..width]); }
    if v < Pow256(width) && s == LittleEndian(v, width) + rest { NumRoundTrip(v, width, rest); }
  }

  lemma TextExact(s: seq<Byte>, x: Str, rest: seq<Byte>)
    ensures ParseStr(s) == Some((x, rest)) <==> |x| <= 67108864 && s == EncodeStr(x) + rest
  {
    if ParseStr(s) == Some((x, rest)) {
      BytesRoundTrip(s[..4]);
      assert s == s[..4] + x + rest;
    }
    if |x| <= MAX_STRING && s == EncodeStr(x) + rest { StringRoundTrip(x, rest); }
  }

  lemma {:induction false} WordsExact(n: nat, s: seq<Byte>)
    ensures ParseWords(n, s).Some? ==> var (ws, rest) := ParseWords(n, s).value; |ws| == n && s == EncodeWords(ws) + rest
    decreases n
  {
    if n > 0 && ParseWords(n, s).Some? {
      WordsExact(n - 1, s[8..]);
      var (ws, rest) := ParseWords(n, s).value;
      BytesRoundTrip(s[..8]);
      assert ws[1..] == ParseWords(n - 1, s[8..]).value.0;
      assert s == s[..8] + (EncodeWords(ws[1..]) + rest);
    }
  }

  lemma ListExact(limit: nat, s: seq<Byte>, ws: seq<Wire.U64>, rest: seq<Byte>)
    requires limit < 0x1_0000_0000
    ensures ParseField(Words(limit), s) == Some((List(ws), rest)) <==>
      |ws| <= limit && s == EncodeField(Words(limit), List(ws)) + rest
  {
    if ParseField(Words(limit), s) == Some((List(ws), rest)) { ListRead(limit, s, ws, rest); }
    if |ws| <= limit && s == EncodeField(Words(limit), List(ws)) + rest { ListRoundTrip(limit, ws, rest); }
  }

  lemma ListRead(limit: nat, s: seq<Byte>, ws: seq<Wire.U64>, rest: seq<Byte>)
    requires limit < 0x1_0000_0000 && ParseField(Words(limit), s) == Some((List(ws), rest))
    ensures |ws| <= limit && s == EncodeField(Words(limit), List(ws)) + rest
  {
    var count := s[..4];
    BytesRoundTrip(count);
    WordsExact(FromLittleEndian(count), s[4..]);
    assert |ws| % 0x1_0000_0000 == |ws|;
    assert s == count + s[4..];
    JoinBytes(count, EncodeWords(ws), rest);
  }

  /** Lists are never longer than a count can say. */
  predicate Countable(k: Kind) {
    k.Words? ==> k.limit < 0x1_0000_0000
  }

  /** A field is read exactly from the bytes written for it. */
  lemma FieldExact(k: Kind, s: seq<Byte>, f: Field, rest: seq<Byte>)
    requires Countable(k)
    ensures ParseField(k, s) == Some((f, rest)) <==> Fits(k, f) && s == EncodeField(k, f) + rest
  {
    Widths();
    match f
    case Num(v) => if !k.Text? && !k.Words? { NumExact(Width(k), s, v, rest); }
    case Txt(x) => if k.Text? { TextExact(s, x, rest); }
    case List(ws) => if k.Words? { ListExact(k.limit, s, ws, rest); }
  }

  /** A row of fields is read exactly from the bytes written for it. */
  lemma {:induction false} FieldsExact(ks: seq<Kind>, s: seq<Byte>, fs: seq<Field>, rest: seq<Byte>)
    requires forall i :: 0 <= i < |ks| ==> Countable(ks[i])
    ensures ParseFields(ks, s) == Some((fs, rest)) <==> AllFit(ks, fs) && s == EncodeFields(ks, fs) + rest
    decreases |ks|
  {
    if AllFit(ks, fs) && s == EncodeFields(ks, fs) + rest { FieldsRoundTrip(ks, fs, rest); }
    if ks != [] && ParseFields(ks, s) == Some((fs, rest)) {
      var first := ParseField(ks[0], s).value;
      FieldExact(ks[0], s, first.0, first.1);
      assert fs[1..] == ParseFields(ks[1..], first.1).value.0;
      FieldsExact(ks[1..], first.1, fs[1..], rest);
      assert AllFit(ks, fs) by {
        forall i | 0 <= i < |ks| ensures Fits(ks[i], fs[i]) { if i > 0 { assert Fits(ks[1..][i - 1], fs[1..][i - 1]); } }
      }
      assert s == EncodeField(ks[0], fs[0]) + (EncodeFields(ks[1..], fs[1..]) + rest);
    }
  }

  // ----- nothing is left unread -----

  /** Bytes after the ones a reader takes do not change what it reads. */
  ghost predicate ReadsAhead<V(!new)>(read: Reader<V>) {
    forall s, e :: read(s).Some? ==> read(s + e) == Some((read(s).value.0, read(s).value.1 + e))
  }

  lemma FieldsAhead(ks: seq<Kind>, s: seq<Byte>, e: seq<Byte>)
    requires (forall i :: 0 <= i < |ks| ==> Countable(ks[i])) && ParseFields(ks, s).Some?
    ensures ParseFields(ks, s + e) == Some((ParseFields(ks, s).value.0, ParseFields(ks, s).value.1 + e))
  {
    var (fs, rest) := ParseFields(ks, s).value;
    FieldsExact(ks, s, fs, rest);
    JoinBytes(EncodeFields(ks, fs), rest, e);
    FieldsRoundTrip(ks, fs, rest + e);
  }

  predicate Regular<V>(l: Layout<V>) {
    forall i :: 0 <= i < |l.kinds| ==> Countable(l.kinds[i])
  }

  lemma LayoutsRegular()
    ensures Regular(DEVICE_LAYOUT) && Regular(SWITCH_LAYOUT) && Regular(PORT_LAYOUT) && Regular(LINK_LAYOUT) && Regular(PARTITION_LAYOUT)
  {}

  lemma LayoutAhead<V(!new)>(l: Layout<V>)
    requires Regular(l)
    ensures ReadsAhead(ReadWith(l))
  {
    forall s, e | ReadWith(l)(s).Some? ensures ReadWith(l)(s + e) == Some((ReadWith(l)(s).value.0, ReadWith(l)(s).value.1 + e)) {
      FieldsAhead(l.kinds, s, e);
    }
  }

  lemma {:induction false} RecordsAhead<V(!new), K>(read: Reader<V>, key: V -> K, n: nat, s: seq<Byte>, m: map<K, V>, e: seq<Byte>)
    requires ReadsAhead(read) && ParseRecords(read, key, n, s, m).Some?
    ensures var r := ParseRecords(read, key, n, s, m).value; ParseRecords(read, key, n, s + e, m) == Some((r.0, r.1 + e))
    decreases n
  {
    if n > 0 {
      var r := read(s).value;
      RecordsAhead(read, key, n - 1, r.1, m[key(r.0) := r.0], e);
    }
  }

  lemma TableAhead<V(!new), K>(l: Layout<V>, key: V -> K, limit: nat, s: seq<Byte>, e: seq<Byte>)
    requires Regular(l) && ParseTable(ReadWith(l), key, limit, s).Some?
    ensures var r := ParseTable(ReadWith(l), key, limit, s).value; ParseTable(ReadWith(l), key, limit, s + e) == Some((r.0, r.1 + e))
  {
    LayoutAhead(l);
    assert (s + e)[..4] == s[..4] && (s + e)[4..] == s[4..] + e;
    RecordsAhead(ReadWith(l), key, FromLittleEndian(s[..4]), s[4..], map[], e);
  }

  lemma TablesAhead(s: seq<Byte>, e: seq<Byte>)
    requires ParseTables(s).Some?
    ensures ParseTables(s + e) == Some((ParseTables(s).value.0, ParseTables(s).value.1 + e))
  {
    LayoutsRegular();
    TableAhead(DEVICE_LAYOUT, DeviceKey, MAX_DEVICES, s, e);
    var d := ParseTable(ReadWith(DEVICE_LAYOUT), DeviceKey, MAX_DEVICES, s).value.1;
    TableAhead(SWITCH_LAYOUT, SwitchKey, MAX_SWITCHES, d, e);
    var w := ParseTable(ReadWith(SWITCH_LAYOUT), SwitchKey, MAX_SWITCHES, d).value.1;
    TableAhead(PORT_LAYOUT, PortKey, MAX_PORTS, w, e);
    var p := ParseTable(ReadWith(PORT_LAYOUT), PortKey, MAX_PORTS, w).value.1;
    TableAhead(LINK_LAYOUT, LinkKey, MAX_LINKS, p, e);
    var l := ParseTable(ReadWith(LINK_LAYOUT), LinkKey, MAX_LINKS, p).value.1;
    TableAhead(PARTITION_LAYOUT, PartitionKey, MAX_PARTITIONS, l, e);
  }

  /** Accepted bytes are read to the end: with anything after them they are not accepted. */
  lemma NothingAfter(s: seq<Byte>, e: seq<Byte>)
    requires ParseTopology(s).Some? && e != []
    ensures ParseTopology(s + e) == None
  {
    FieldsAhead(HEADER_KINDS, s, e);
    TablesAhead(ParseFields(HEADER_KINDS, s).value.1, e);
  }

  // ----- records -----

  lemma {:induction false} FieldsAre(ks: seq<Kind>, fs: seq<Field>, parts: seq<seq<Byte>>)
    requires |ks| == |fs| == |parts| && forall i :: 0 <= i < |ks| ==> EncodeField(ks[i], fs[i]) == parts[i]
    ensures EncodeFields(ks, fs) == Concat(parts)
    decreases |ks|
  {
    if ks != [] { FieldsAre(ks[1..], fs[1..], parts[1..]); }
  }

  function Long(v: Wire.U64): seq<Byte> { LittleEndian(v, 8) }
  function Four(v: Wire.U32): seq<Byte> { LittleEndian(v, 4) }
  function Prefixed(s: Str): seq<Byte> { LittleEndian(|s| % 0x1_0000_0000, 4) + s }
  function Listed(ws: seq<Wire.U64>): seq<Byte> { LittleEndian(|ws| % 0x1_0000_0000, 4) + EncodeWords(ws) }
  function Bit(b: bool): Byte { if b then 1 else 0 }

  predicate Spelled(ks: seq<Kind>, fs: seq<Field>, parts: seq<seq<Byte>>, lo: nat, hi: nat) {
    lo <= hi <= |ks| == |fs| == |parts| && forall i :: lo <= i < hi ==> EncodeField(ks[i], fs[i]) == parts[i]
  }

  lemma SpelledTogether(ks: seq<Kind>, fs: seq<Field>, parts: seq<seq<Byte>>, i: nat, j: nat)
    requires Spelled(ks, fs, parts, 0, i) && Spelled(ks, fs, parts, i, j) && Spelled(ks, fs, parts, j, |ks|)
    ensures EncodeFields(ks, fs) == Concat(parts)
  {
    FieldsAre(ks, fs, parts);
  }

  /** A record is read exactly from the bytes of a row of fields that fits. */
  lemma ReadExactly<V>(l: Layout<V>, s: seq<Byte>, r: V, rest: seq<Byte>)
    requires Regular(l)
    ensures ReadWith(l)(s) == Some((r, rest)) <==>
      exists fs :: AllFit(l.kinds, fs) && s == EncodeFields(l.kinds, fs) + rest && r == l.make(fs)
  {
    if ReadWith(l)(s) == Some((r, rest)) { FieldsExact(l.kinds, s, ParseFields(l.kinds, s).value.0, rest); }
    if fs :| AllFit(l.kinds, fs) && s == EncodeFields(l.kinds, fs) + rest && r == l.make(fs) { FieldsRoundTrip(l.kinds, fs, rest); }
  }

  /** The bytes of a record, field by field. */
  function DeviceBytes(r: DeviceRecord): seq<seq<Byte>> {
    [Long(r.id), Prefixed(r.generationName), [Bit(r.generationObserved)], [Bit(r.present)], Prefixed(r.backendId), Prefixed(r.vendor),
     Prefixed(r.product), [r.state], Prefixed(r.partition), Long(r.attachedSwitch), [Bit(r.attachedSwitchKnown)],
     Prefixed(r.origin.worker), [Bit(r.origin.workerKnown)], Long(r.origin.workerBoot), [r.origin.provenance], [r.origin.source],
     Long(r.origin.topologyGen)]
  }

  lemma DeviceFront(r: DeviceRecord)
    ensures Spelled(DEVICE_KINDS, DeviceFields(r), DeviceBytes(r), 0, 6)
  {}

  lemma DeviceMiddle(r: DeviceRecord)
    ensures Spelled(DEVICE_KINDS, DeviceFields(r), DeviceBytes(r), 6, 11)
  {}

  lemma DeviceBack(r: DeviceRecord)
    ensures Spelled(DEVICE_KINDS, DeviceFields(r), DeviceBytes(r), 11, 17)
  {}

  lemma DeviceWritten(r: DeviceRecord)
    ensures WriteWith(DEVICE_LAYOUT)(r) == Concat(DeviceBytes(r))
  {
    DeviceFront(r);
    DeviceMiddle(r);
    DeviceBack(r);
    SpelledTogether(DEVICE_KINDS, DeviceFields(r), DeviceBytes(r), 6, 11);
  }

  /** The bytes of a record, field by field. */
  function SwitchBytes(r: SwitchRecord): seq<seq<Byte>> {
    [Long(r.id), Long(r.gen), Prefixed(r.generationName), [Bit(r.generationObserved)], Prefixed(r.vendor), Prefixed(r.product),
     Prefixed(r.family), Four(r.portCount), [r.state], Prefixed(r.fabric), [Bit(r.fabricKnown)], Prefixed(r.partition), [Bit(r.partitionKnown)],
     Prefixed(r.origin.worker), [Bit(r.origin.workerKnown)], Long(r.origin.workerBoot), [r.origin.provenance], [r.origin.source],
     Long(r.origin.topologyGen)]
  }

  lemma SwitchFront(r: SwitchRecord)
    ensures Spelled(SWITCH_KINDS, SwitchFields(r), SwitchBytes(r), 0, 7)
  {}

  lemma SwitchMiddle(r: SwitchRecord)
    ensures Spelled(SWITCH_KINDS, SwitchFields(r), SwitchBytes(r), 7, 13)
  {}

  lemma SwitchBack(r: SwitchRecord)
    ensures Spelled(SWITCH_KINDS, SwitchFields(r), SwitchBytes(r), 13, 19)
  {}

  lemma SwitchWritten(r: SwitchRecord)
    ensures WriteWith(SWITCH_LAYOUT)(r) == Concat(SwitchBytes(r))
  {
    SwitchFront(r);
    SwitchMiddle(r);
    SwitchBack(r);
    SpelledTogether(SWITCH_KINDS, SwitchFields(r), SwitchBytes(r), 7, 13);
  }

  /** The bytes of a record, field by field. */
  function PortBytes(r: PortRecord): seq<seq<Byte>> {
    [Long(r.id.sw), Four(r.id.index), Long(r.gen), [r.attached.kind], Long(r.attached.device), Long(r.attached.sw), [Bit(r.attachedKnown)],
     [r.state], Four(r.activeLinkCount), [Bit(r.activeLinkCountKnown)], Long(r.nominalBandwidth), [Bit(r.nominalBandwidthKnown)],
     Prefixed(r.origin.worker), [Bit(r.origin.workerKnown)], Long(r.origin.workerBoot), [r.origin.provenance], [r.origin.source],
     Long(r.origin.topologyGen)]
  }

  lemma PortFront(r: PortRecord)
    ensures Spelled(PORT_KINDS, PortFields(r), PortBytes(r), 0, 7)
  {}

  lemma PortMiddle(r: PortRecord)
    ensures Spelled(PORT_KINDS, PortFields(r), PortBytes(r), 7, 10)
  {}

  lemma PortBack(r: PortRecord)
    ensures Spelled(PORT_KINDS, PortFields(r), PortBytes(r), 10, 18)
  {}

  lemma PortWritten(r: PortRecord)
    ensures WriteWith(PORT_LAYOUT)(r) == Concat(PortBytes(r))
  {
    PortFront(r);
    PortMiddle(r);
    PortBack(r);
    SpelledTogether(PORT_KINDS, PortFields(r), PortBytes(r), 7, 10);
  }

  /** The bytes of a record, field by field. */
  function LinkBytes(r: LinkRecord): seq<seq<Byte>> {
    [Long(r.id), Long(r.gen), Long(r.rootSwitch), Long(r.port.sw), Four(r.port.index), [r.otherEnd.kind],
     Long(r.otherEnd.device), Long(r.otherEnd.sw), [Bit(r.otherEndKnown)], [r.state], [Bit(r.degraded)],
     Prefixed(r.origin.worker), [Bit(r.origin.workerKnown)], Long(r.origin.workerBoot), [r.origin.provenance], [r.origin.source],
     Long(r.origin.topologyGen)]
  }

  lemma LinkFront(r: LinkRecord)
    ensures Spelled(LINK_KINDS, LinkFields(r), LinkBytes(r), 0, 7)
  {}

  lemma LinkMiddle(r: LinkRecord)
    ensures Spelled(LINK_KINDS, LinkFields(r), LinkBytes(r), 7, 10)
  {}

  lemma LinkBack(r: LinkRecord)
    ensures Spelled(LINK_KINDS, LinkFields(r), LinkBytes(r), 10, 17)
  {}

  lemma LinkWritten(r: LinkRecord)
    ensures WriteWith(LINK_LAYOUT)(r) == Concat(LinkBytes(r))
  {
    LinkFront(r);
    LinkMiddle(r);
    LinkBack(r);
    SpelledTogether(LINK_KINDS, LinkFields(r), LinkBytes(r), 7, 10);
  }

  /** The bytes of a record, field by field. */
  function PartitionBytes(r: Partition): seq<seq<Byte>> {
    [Prefixed(r.id), Long(r.gen), Prefixed(r.fabric), Listed(r.members), Listed(r.switches), [r.state],
     Prefixed(r.origin.worker), [Bit(r.origin.workerKnown)], Long(r.origin.workerBoot), [r.origin.provenance], [r.origin.source],
     Long(r.origin.topologyGen)]
  }

  lemma PartitionFront(r: Partition)
    ensures Spelled(PARTITION_KINDS, PartitionFields(r), PartitionBytes(r), 0, 3)
  {}

  lemma PartitionMiddle(r: Partition)
    ensures Spelled(PARTITION_KINDS, PartitionFields(r), PartitionBytes(r), 3, 6)
  {}

  lemma PartitionBack(r: Partition)
    ensures Spelled(PARTITION_KINDS, PartitionFields(r), PartitionBytes(r), 6, 12)
  {}

  lemma PartitionWritten(r: Partition)
    ensures WriteWith(PARTITION_LAYOUT)(r) == Concat(PartitionBytes(r))
  {
    PartitionFront(r);
    PartitionMiddle(r);
    PartitionBack(r);
    SpelledTogether(PARTITION_KINDS, PartitionFields(r), PartitionBytes(r), 3, 6);
  }

  // ----- the payload -----

  /** A table's bytes: how many records, then each in turn. */
  function Counted<V>(bytes: V -> seq<seq<Byte>>, rs: seq<V>): seq<Byte> {
    LittleEndian(|rs| % 0x1_0000_0000, 4) + Concat(seq(|rs|, i requires 0 <= i < |rs| => Concat(bytes(rs[i]))))
  }

  lemma {:induction false} RecordsAre<V>(write: Writer<V>, rs: seq<V>, parts: seq<seq<Byte>>)
    requires |rs| == |parts| && forall i :: 0 <= i < |rs| ==> write(rs[i]) == parts[i]
    ensures EncodeRecords(write, rs) == Concat(parts)
    decreases |rs|
  {
    if rs != [] { RecordsAre(write, rs[1..], parts[1..]); }
  }

  lemma TableWritten<V>(write: Writer<V>, bytes: V -> seq<seq<Byte>>, rs: seq<V>)
    requires forall i :: 0 <= i < |rs| ==> write(rs[i]) == Concat(bytes(rs[i]))
    ensures EncodeTable(write, rs) == Counted(bytes, rs)
  {
    RecordsAre(write, rs, seq(|rs|, i requires 0 <= i < |rs| => Concat(bytes(rs[i]))));
  }

  lemma DevicesWritten(rs: seq<DeviceRecord>)
    ensures EncodeTable(WriteWith(DEVICE_LAYOUT), rs) == Counted(DeviceBytes, rs)
  {
    forall r ensures WriteWith(DEVICE_LAYOUT)(r) == Concat(DeviceBytes(r)) { DeviceWritten(r); }
    TableWritten(WriteWith(DEVICE_LAYOUT), DeviceBytes, rs);
  }

  lemma SwitchesWritten(rs: seq<SwitchRecord>)
    ensures EncodeTable(WriteWith(SWITCH_LAYOUT), rs) == Counted(SwitchBytes, rs)
  {
    forall r ensures WriteWith(SWITCH_LAYOUT)(r) == Concat(SwitchBytes(r)) { SwitchWritten(r); }
    TableWritten(WriteWith(SWITCH_LAYOUT), SwitchBytes, rs);
  }

  lemma PortsWritten(rs: seq<PortRecord>)
    ensures EncodeTable(WriteWith(PORT_LAYOUT), rs) == Counted(PortBytes, rs)
  {
    forall r ensures WriteWith(PORT_LAYOUT)(r) == Concat(PortBytes(r)) { PortWritten(r); }
    TableWritten(WriteWith(PORT_LAYOUT), PortBytes, rs);
  }

  lemma LinksWritten(rs: seq<LinkRecord>)
    ensures EncodeTable(WriteWith(LINK_LAYOUT), rs) == Counted(LinkBytes, rs)
  {
    forall r ensures WriteWith(LINK_LAYOUT)(r) == Concat(LinkBytes(r)) { LinkWritten(r); }
    TableWritten(WriteWith(LINK_LAYOUT), LinkBytes, rs);
  }

  lemma PartitionsWritten(rs: seq<Partition>)
    ensures EncodeTable(WriteWith(PARTITION_LAYOUT), rs) == Counted(PartitionBytes, rs)
  {
    forall r ensures WriteWith(PARTITION_LAYOUT)(r) == Concat(PartitionBytes(r)) { PartitionWritten(r); }
    TableWritten(WriteWith(PARTITION_LAYOUT), PartitionBytes, rs);
  }

  function HeaderBytes(t: Topology): seq<seq<Byte>> {
    [Long(t.id), Long(t.topologyGen), Long(t.fabricGen), Long(t.epoch), [t.provenance], Prefixed(t.labelText), [Bit(t.persisted)]]
  }

  lemma HeaderWritten(t: Topology)
    ensures EncodeFields(HEADER_KINDS, HeaderFields(t)) == Concat(HeaderBytes(t))
  {
    FieldsAre(HEADER_KINDS, HeaderFields(t), HeaderBytes(t));
  }

  /** The bytes of a snapshot: its header, then devices, switches, ports, links and partitions. */
  lemma PayloadWritten(t: Topology, e: BulkEdit)
    ensures EncodePayload(t, e) ==
      Concat(HeaderBytes(t))
      + (Counted(DeviceBytes, e.devices) + Counted(SwitchBytes, e.switches) + Counted(PortBytes, e.ports)
         + Counted(LinkBytes, e.links) + Counted(PartitionBytes, e.partitions))
  {
    HeaderWritten(t);
    DevicesWritten(e.devices);
    SwitchesWritten(e.switches);
    PortsWritten(e.ports);
    LinksWritten(e.links);
    PartitionsWritten(e.partitions);
  }
}
