/**
 The framed transport: a 16-byte checksummed header, the payload, and the
 payload's checksum. FrameStream reassembles frames from arbitrary chunks.
 */
module Framing {
  import opened Wire
  import opened Crc

  const FRAME_MAGIC: U32 := 0x4E56_4631
  const FRAME_VERSION: Byte := 1
  const HEADER := 16
  const MAX_FRAME_BYTES := 16 * 1024 * 1024

  predicate ValidMsgType(t: Byte) {
    1 <= t <= 10
  }

  /** Nothing but corruption detection depends on which checksum is used. */
  type Checksum = seq<Byte> -> U32

  datatype Frame = Frame(kind: Byte, payload: seq<Byte>)

  datatype FrameError =
    | TooShort
    | BadMagic
    | UnsupportedVersion
    | InvalidType
    | LengthAbsurd
    | HeaderChecksum
    | Truncated
    | PayloadChecksum

  datatype Decoded = Ok(frame: Frame) | Err(error: FrameError)

  // ----- encoding -----

  /** The twelve header bytes the header checksum covers. */
  function Head(f: Frame): (s: seq<Byte>)
    ensures |s| == 12
  {
    LittleEndian(FRAME_MAGIC, 4) + [FRAME_VERSION, f.kind, 0, 0] + LittleEndian(|f.payload| % 0x1_0000_0000, 4)
  }

  function EncodeFrame(crc: Checksum, f: Frame): (s: seq<Byte>)
    ensures |s| == HEADER + |f.payload| + 4
  {
    Head(f) + LittleEndian(crc(Head(f)), 4) + f.payload + LittleEndian(crc(f.payload), 4)
  }

  method WriteFrame(f: Frame) returns (s: seq<Byte>)
    ensures s == EncodeFrame(Crc32, f)
  {
    var w := new ByteWriter();
    w.WriteUnsigned(FRAME_MAGIC, 4);
    w.WriteU8(FRAME_VERSION);
    w.WriteU8(f.kind);
    w.WriteUnsigned(0, 2);
    w.WriteUnsigned(|f.payload| % 0x1_0000_0000, 4);
    assert LittleEndian(0, 2) == [0, 0];
    assert w.data == Head(f);
    var headCrc := ComputeCrc32(w.data);
    w.WriteUnsigned(headCrc, 4);
    w.WriteRaw(f.payload);
    var payloadCrc := ComputeCrc32(f.payload);
    w.WriteUnsigned(payloadCrc, 4);
    s := w.data;
  }

  // ----- decoding -----

  function Length(b: seq<Byte>): nat
    requires |b| >= HEADER
  {
    FromLittleEndian(b[8..12])
  }

  /** The header checks that need no checksum, in the order they are made. */
  function HeaderError(b: seq<Byte>): Option<FrameError>
    requires |b| >= HEADER
  {
    if FromLittleEndian(b[..4]) != FRAME_MAGIC then Some(BadMagic)
    else if b[4] != FRAME_VERSION then Some(UnsupportedVersion)
    else if !ValidMsgType(b[5]) then Some(InvalidType)
    else if Length(b) > MAX_FRAME_BYTES then Some(LengthAbsurd)
    else None
  }

  predicate HeaderIntact(crc: Checksum, b: seq<Byte>)
    requires |b| >= HEADER
  {
    crc(b[..12]) == FromLittleEndian(b[12..16])
  }

  predicate PayloadIntact(crc: Checksum, b: seq<Byte>, n: nat)
    requires |b| >= HEADER + n + 4
  {
    crc(b[HEADER..HEADER + n]) == FromLittleEndian(b[HEADER + n..HEADER + n + 4])
  }

  function DecodeFrame(crc: Checksum, b: seq<Byte>): Decoded {
    if |b| < HEADER then Err(TooShort)
    else if HeaderError(b).Some? then Err(HeaderError(b).value)
    else if !HeaderIntact(crc, b) then Err(HeaderChecksum)
    else
      var n := Length(b);
      if HEADER + n + 4 > |b| then Err(Truncated)
      else if !PayloadIntact(crc, b, n) then Err(PayloadChecksum)
      else Ok(Frame(b[5], b[HEADER..HEADER + n]))
  }

  // ----- the incremental reader -----

  /** What the reader makes of the front of its buffer. */
  datatype Verdict = NeedMore | Bad(error: FrameError) | Got(frame: Frame, total: nat)

  function Inspect(crc: Checksum, b: seq<Byte>): (v: Verdict)
    ensures v.Got? ==> HEADER < v.total <= |b|
  {
    if |b| < HEADER then NeedMore
    else if HeaderError(b).Some? then Bad(HeaderError(b).value)
    else
      var n := Length(b);
      if |b| < HEADER + n + 4 then NeedMore
      else if !HeaderIntact(crc, b) then Bad(HeaderChecksum)
      else if !PayloadIntact(crc, b, n) then Bad(PayloadChecksum)
      else Got(Frame(b[5], b[HEADER..HEADER + n]), HEADER + n + 4)
  }

  datatype Stream = Stream(buf: seq<Byte>, err: Option<FrameError>)
  datatype Fed = Fed(frames: seq<Frame>, stream: Stream)

  const FRESH := Stream([], None)

  /** Takes frames off the front until the buffer is exhausted or bad. */
  function Drain(crc: Checksum, b: seq<Byte>): Fed
    decreases |b|
  {
    match Inspect(crc, b)
    case NeedMore => Fed([], Stream(b, None))
    case Bad(e) => Fed([], Stream(b, Some(e)))
    case Got(f, n) =>
      var rest := Drain(crc, b[n..]);
      Fed([f] + rest.frames, rest.stream)
  }

  function FeedOnce(crc: Checksum, st: Stream, data: seq<Byte>): Fed {
    if st.err.Some? then Fed([], st) else Drain(crc, st.buf + data)
  }

  function FeedAll(crc: Checksum, st: Stream, chunks: seq<seq<Byte>>): Fed
    decreases |chunks|
  {
    if chunks == [] then Fed([], st)
    else
      var first := FeedOnce(crc, st, chunks[0]);
      var rest := FeedAll(crc, first.stream, chunks[1..]);
      Fed(first.frames + rest.frames, rest.stream)
  }

  function Concat(chunks: seq<seq<Byte>>): seq<Byte> {
    if chunks == [] then [] else chunks[0] + Concat(chunks[1..])
  }

  method Matches(data: seq<Byte>, stored: seq<Byte>) returns (same: bool)
    ensures same <==> Crc32(data) == FromLittleEndian(stored)
  {
    var computed := ComputeCrc32(data);
    same := computed == FromLittleEndian(stored);
  }

  method CheckBody(b: seq<Byte>, n: nat) returns (bad: Option<FrameError>)
    requires |b| >= HEADER + n + 4
    ensures bad == if !HeaderIntact(Crc32, b) then Some(HeaderChecksum)
                   else if !PayloadIntact(Crc32, b, n) then Some(PayloadChecksum) else None
  {
    var headFine := Matches(b[..12], b[12..16]);
    if !headFine { return Some(HeaderChecksum); }
    var bodyFine := Matches(b[HEADER..HEADER + n], b[HEADER + n..HEADER + n + 4]);
    if !bodyFine { return Some(PayloadChecksum); }
    bad := None;
  }

  /** The checks of one turn of the reader's loop, in the order it makes them. */
  method Examine(b: seq<Byte>) returns (v: Verdict)
    ensures v == Inspect(Crc32, b)
  {
    if |b| < HEADER { return NeedMore; }
    var bad := HeaderError(b);
    if bad.Some? { return Bad(bad.value); }
    var n := Length(b);
    if |b| < HEADER + n + 4 { return NeedMore; }
    bad := CheckBody(b, n);
    if bad.Some? { return Bad(bad.value); }
    v := Got(Frame(b[5], b[HEADER..HEADER + n]), HEADER + n + 4);
  }

  /** A turn of the loop: some frames are out, and draining the buffer would give the rest of the whole. */
  ghost predicate Pending(crc: Checksum, whole: Fed, out: seq<Frame>, b: seq<Byte>) {
    whole == Fed(out + Drain(crc, b).frames, Drain(crc, b).stream)
  }

  lemma TakeFrame(crc: Checksum, whole: Fed, out: seq<Frame>, b: seq<Byte>)
    requires Inspect(crc, b).Got? && Pending(crc, whole, out, b)
    ensures var v := Inspect(crc, b); Pending(crc, whole, out + [v.frame], b[v.total..])
  {
    var v := Inspect(crc, b);
    var rest := Drain(crc, b[v.total..]).frames;
    assert out + ([v.frame] + rest) == out + [v.frame] + rest;
  }

  lemma StopDraining(crc: Checksum, whole: Fed, out: seq<Frame>, b: seq<Byte>)
    requires !Inspect(crc, b).Got? && Pending(crc, whole, out, b)
    ensures var v := Inspect(crc, b); whole == Fed(out, Stream(b, if v.Bad? then Some(v.error) else None))
  {}

  /** What a turn leaves to do: nothing, or the rest of the buffer behind the frame it found. */
  ghost predicate Peeled(crc: Checksum, whole: Fed, out: seq<Frame>, b: seq<Byte>, v: Verdict) {
    match v
    case NeedMore => whole == Fed(out, Stream(b, None))
    case Bad(e) => whole == Fed(out, Stream(b, Some(e)))
    case Got(f, n) => HEADER < n <= |b| && Pending(crc, whole, out + [f], b[n..])
  }

  lemma TurnPeels(crc: Checksum, whole: Fed, out: seq<Frame>, b: seq<Byte>)
    requires Pending(crc, whole, out, b)
    ensures Peeled(crc, whole, out, b, Inspect(crc, b))
  {
    if Inspect(crc, b).Got? { TakeFrame(crc, whole, out, b); } else { StopDraining(crc, whole, out, b); }
  }

  /** One turn: what the front of the buffer is, and how the work left shrinks because of it. */
  method Peel(b: seq<Byte>, ghost out: seq<Frame>, ghost whole: Fed) returns (v: Verdict)
    requires Pending(Crc32, whole, out, b)
    ensures Peeled(Crc32, whole, out, b, v)
  {
    v := Examine(b);
    TurnPeels(Crc32, whole, out, b);
  }

  class FrameStream {
    var buf: seq<Byte>
    var err: Option<FrameError>

    function State(): Stream
      reads this
    {
      Stream(buf, err)
    }

    constructor ()
      ensures State() == FRESH
    {
      buf, err := [], None;
    }

    /** Appends the chunk, then peels complete frames off the buffer. */
    method Feed(data: seq<Byte>) returns (good: bool, out: seq<Frame>)
      modifies this
      ensures Fed(out, State()) == FeedOnce(Crc32, old(State()), data)
      ensures good <==> err.None?
    {
      out := [];
      if err.Some? { return false, out; }
      buf := buf + data;
      ghost var whole := Drain(Crc32, buf);
      var v := Peel(buf, out, whole);
      while v.Got?
        invariant err.None? && Peeled(Crc32, whole, out, buf, v)
        decreases |buf|
      {
        out := out + [v.frame];
        buf := buf[v.total..];
        v := Peel(buf, out, whole);
      }
      if v.Bad? { err := Some(v.error); }
      good := v.NeedMore?;
    }
  }

  // ----- more bytes never change a verdict already reached -----

  lemma VerdictStable(crc: Checksum, a: seq<Byte>, b: seq<Byte>)
    requires Inspect(crc, a) != NeedMore
    ensures Inspect(crc, a + b) == Inspect(crc, a)
  {
    var ab := a + b;
    assert ab[..4] == a[..4] && ab[8..12] == a[8..12] && ab[..12] == a[..12] && ab[12..16] == a[12..16];
    if HeaderError(a).None? {
      var n := Length(a);
      assert ab[HEADER..HEADER + n] == a[HEADER..HEADER + n];
      assert ab[HEADER + n..HEADER + n + 4] == a[HEADER + n..HEADER + n + 4];
    }
  }

  lemma {:induction false} DrainExtends(crc: Checksum, a: seq<Byte>, b: seq<Byte>)
    ensures var x, y := Drain(crc, a), Drain(crc, a + b);
      if x.stream.err.Some? then y.frames == x.frames && y.stream.err == x.stream.err
      else y == Fed(x.frames + Drain(crc, x.stream.buf + b).frames, Drain(crc, x.stream.buf + b).stream)
    ensures Drain(crc, a).stream.err.None? ==> Inspect(crc, Drain(crc, a).stream.buf) == NeedMore
    decreases |a|
  {
    match Inspect(crc, a)
    case NeedMore =>
      assert [] + Drain(crc, a + b).frames == Drain(crc, a + b).frames;
    case Bad(_) =>
      VerdictStable(crc, a, b);
    case Got(f, n) =>
      VerdictStable(crc, a, b);
      assert (a + b)[n..] == a[n..] + b;
      DrainExtends(crc, a[n..], b);
      var x := Drain(crc, a[n..]);
      if x.stream.err.None? {
        var more := Drain(crc, x.stream.buf + b).frames;
        assert [f] + (x.frames + more) == [f] + x.frames + more;
      }
  }

  lemma {:induction false} ChunksFromIdle(crc: Checksum, buf: seq<Byte>, chunks: seq<seq<Byte>>)
    requires Inspect(crc, buf) == NeedMore
    ensures var many, one := FeedAll(crc, Stream(buf, None), chunks), Drain(crc, buf + Concat(chunks));
      && many.frames == one.frames
      && many.stream.err == one.stream.err
      && (one.stream.err.None? ==> many.stream == one.stream)
    decreases |chunks|
  {
    if chunks == [] {
      assert buf + Concat(chunks) == buf;
    } else {
      var tail := Concat(chunks[1..]);
      assert buf + Concat(chunks) == (buf + chunks[0]) + tail;
      DrainExtends(crc, buf + chunks[0], tail);
      var x := Drain(crc, buf + chunks[0]);
      if x.stream.err.None? {
        ChunksFromIdle(crc, x.stream.buf, chunks[1..]);
      } else {
        DeadStreamIgnores(crc, x.stream, chunks[1..]);
      }
    }
  }

  lemma {:induction false} DeadStreamIgnores(crc: Checksum, st: Stream, chunks: seq<seq<Byte>>)
    requires st.err.Some?
    ensures FeedAll(crc, st, chunks) == Fed([], st)
    decreases |chunks|
  {
    if chunks != [] { DeadStreamIgnores(crc, st, chunks[1..]); }
  }

  /** However the bytes are cut, the frames and the final error are those of one feed. */
  lemma ChunkingIndependence(crc: Checksum, chunks: seq<seq<Byte>>)
    ensures var many, one := FeedAll(crc, FRESH, chunks), FeedOnce(crc, FRESH, Concat(chunks));
      && many.frames == one.frames
      && many.stream.err == one.stream.err
      && (one.stream.err.None? ==> many.stream == one.stream)
  {
    ChunksFromIdle(crc, [], chunks);
  }

  // ----- what was encoded is what comes out -----

  predicate Sendable(f: Frame) {
    ValidMsgType(f.kind) && |f.payload| <= MAX_FRAME_BYTES
  }

  lemma Slices(a: seq<Byte>, b: seq<Byte>, c: seq<Byte>, d: seq<Byte>, rest: seq<Byte>, s: seq<Byte>)
    requires s == a + b + c + d + rest
    ensures var i, j, k, m := |a|, |a| + |b|, |a| + |b| + |c|, |a| + |b| + |c| + |d|;
      s[..i] == a && s[i..j] == b && s[j..k] == c && s[k..m] == d && s[m..] == rest
  {}

  /** A buffer that starts with an undamaged frame of n payload bytes. */
  predicate Intact(crc: Checksum, b: seq<Byte>, n: nat) {
    && |b| >= HEADER + n + 4
    && Length(b) == n
    && HeaderIntact(crc, b)
    && PayloadIntact(crc, b, n)
  }

  lemma HeadLayout(f: Frame, b: seq<Byte>)
    requires |b| >= HEADER && b[..12] == Head(f) && |f.payload| < 0x1_0000_0000
    ensures FromLittleEndian(b[..4]) == FRAME_MAGIC && b[4] == FRAME_VERSION && b[5] == f.kind
    ensures Length(b) == |f.payload|
  {
    var head := Head(f);
    var magic, len := LittleEndian(FRAME_MAGIC, 4), LittleEndian(|f.payload|, 4);
    Slices(magic, [FRAME_VERSION, f.kind, 0, 0], len, [], [], head);
    assert b[..4] == b[..12][..4] == magic && b[8..12] == b[..12][8..12] == len;
    assert b[4] == head[4] == head[4..8][0] && b[5] == head[5] == head[4..8][1];
    U32RoundTrip(FRAME_MAGIC);
    U32RoundTrip(|f.payload|);
  }

  lemma BodyLayout(crc: Checksum, head: seq<Byte>, payload: seq<Byte>, rest: seq<Byte>, b: seq<Byte>)
    requires |head| == 12
    requires b == head + LittleEndian(crc(head), 4) + payload + LittleEndian(crc(payload), 4) + rest
    ensures b[..12] == head && HeaderIntact(crc, b)
    ensures b[HEADER..HEADER + |payload|] == payload && PayloadIntact(crc, b, |payload|)
    ensures b[HEADER + |payload| + 4..] == rest
  {
    Slices(head, LittleEndian(crc(head), 4), payload, LittleEndian(crc(payload), 4), rest, b);
    U32RoundTrip(crc(head));
    U32RoundTrip(crc(payload));
  }

  /** The regions of an encoded frame, whatever follows it. */
  lemma Layout(crc: Checksum, f: Frame, b: seq<Byte>, rest: seq<Byte>)
    requires |f.payload| < 0x1_0000_0000 && b == EncodeFrame(crc, f) + rest
    ensures Intact(crc, b, |f.payload|)
    ensures FromLittleEndian(b[..4]) == FRAME_MAGIC && b[4] == FRAME_VERSION && b[5] == f.kind
    ensures b[HEADER..HEADER + |f.payload|] == f.payload && b[HEADER + |f.payload| + 4..] == rest
  {
    BodyLayout(crc, Head(f), f.payload, rest, b);
    HeadLayout(f, b);
  }

  lemma InspectEncoded(crc: Checksum, f: Frame, b: seq<Byte>, rest: seq<Byte>)
    requires Sendable(f) && b == EncodeFrame(crc, f) + rest
    ensures Inspect(crc, b) == Got(f, HEADER + |f.payload| + 4)
    ensures b[HEADER + |f.payload| + 4..] == rest
  {
    Layout(crc, f, b, rest);
  }

  /** decodeFrame undoes encodeFrame. */
  lemma FrameRoundTrip(crc: Checksum, f: Frame, rest: seq<Byte>)
    requires Sendable(f)
    ensures DecodeFrame(crc, EncodeFrame(crc, f) + rest) == Ok(f)
  {
    Layout(crc, f, EncodeFrame(crc, f) + rest, rest);
  }

  /** The stream accepts exactly the frames decodeFrame accepts. */
  lemma StreamAgreesWithDecode(crc: Checksum, b: seq<Byte>, f: Frame)
    ensures DecodeFrame(crc, b) == Ok(f) <==> Inspect(crc, b) == Got(f, HEADER + |f.payload| + 4)
  {}

  function EncodeAll(crc: Checksum, fs: seq<Frame>): seq<Byte> {
    if fs == [] then [] else EncodeFrame(crc, fs[0]) + EncodeAll(crc, fs[1..])
  }

  lemma {:induction false} DrainEncoded(crc: Checksum, fs: seq<Frame>)
    requires forall f :: f in fs ==> Sendable(f)
    ensures Drain(crc, EncodeAll(crc, fs)) == Fed(fs, FRESH)
  {
    if fs != [] {
      InspectEncoded(crc, fs[0], EncodeAll(crc, fs), EncodeAll(crc, fs[1..]));
      DrainEncoded(crc, fs[1..]);
    }
  }

  /** Any chunking of encoded frames yields those frames and leaves nothing behind. */
  lemma StreamDelivers(crc: Checksum, fs: seq<Frame>, chunks: seq<seq<Byte>>)
    requires forall f :: f in fs ==> Sendable(f)
    requires Concat(chunks) == EncodeAll(crc, fs)
    ensures FeedAll(crc, FRESH, chunks) == Fed(fs, FRESH)
  {
    ChunkingIndependence(crc, chunks);
    DrainEncoded(crc, fs);
    assert [] + EncodeAll(crc, fs) == EncodeAll(crc, fs);
  }

  // ----- corruption -----

  lemma WordChanged(s: seq<Byte>, t: seq<Byte>)
    requires |s| == |t| && s != t
    ensures FromLittleEndian(s) != FromLittleEndian(t)
  {
    BytesRoundTrip(s);
    BytesRoundTrip(t);
  }

  predicate OneByteApart(s: seq<Byte>, t: seq<Byte>, k: nat) {
    k < |s| && |t| == |s| && s[k] != t[k] && t == s[k := t[k]]
  }

  ghost predicate DetectsSingleByte(crc: Checksum) {
    forall s, t, k :: OneByteApart(s, t, k) ==> crc(s) != crc(t)
  }

  lemma CrcDetectsSingleByte()
    ensures DetectsSingleByte(Crc32)
  {
    forall s, t, k | OneByteApart(s, t, k)
      ensures Crc32(s) != Crc32(t)
    {
      SingleByteDetected(s, k, t[k]);
    }
  }

  lemma DamagedHeader(crc: Checksum, b: seq<Byte>, k: nat, x: Byte)
    requires DetectsSingleByte(crc)
    requires |b| >= HEADER && HeaderIntact(crc, b)
    requires k < HEADER && b[k] != x
    ensures !HeaderIntact(crc, b[k := x])
  {
    var c := b[k := x];
    if k < 12 {
      assert OneByteApart(b[..12], c[..12], k) && c[12..16] == b[12..16];
    } else {
      assert c[..12] == b[..12] && c[12..16][k - 12] != b[12..16][k - 12];
      WordChanged(c[12..16], b[12..16]);
    }
  }

  lemma DamagedBody(crc: Checksum, b: seq<Byte>, n: nat, k: nat, x: Byte)
    requires DetectsSingleByte(crc)
    requires |b| >= HEADER + n + 4 && PayloadIntact(crc, b, n)
    requires HEADER <= k < HEADER + n + 4 && b[k] != x
    ensures !PayloadIntact(crc, b[k := x], n)
  {
    var c, i, j := b[k := x], HEADER + n, HEADER + n + 4;
    if k < i {
      assert OneByteApart(b[HEADER..i], c[HEADER..i], k - HEADER) && c[i..j] == b[i..j];
    } else {
      assert c[HEADER..i] == b[HEADER..i] && c[i..j][k - i] != b[i..j][k - i];
      WordChanged(c[i..j], b[i..j]);
    }
  }

  lemma DamageRejected(crc: Checksum, b: seq<Byte>, n: nat, k: nat, x: Byte)
    requires DetectsSingleByte(crc)
    requires Intact(crc, b, n) && |b| == HEADER + n + 4
    requires k < |b| && b[k] != x
    ensures DecodeFrame(crc, b[k := x]).Err?
  {
    if k < HEADER {
      DamagedHeader(crc, b, k, x);
    } else {
      DamagedBody(crc, b, n, k, x);
      assert b[k := x][8..12] == b[8..12];
    }
  }

  /** Changing exactly one byte of an encoded frame makes decoding fail. */
  lemma FrameCorruptionDetected(f: Frame, k: nat, x: Byte)
    requires |f.payload| < 0x1_0000_0000
    requires k < HEADER + |f.payload| + 4 && EncodeFrame(Crc32, f)[k] != x
    ensures DecodeFrame(Crc32, EncodeFrame(Crc32, f)[k := x]).Err?
  {
    var b := EncodeFrame(Crc32, f);
    Layout(Crc32, f, b, []);
    CrcDetectsSingleByte();
    DamageRejected(Crc32, b, |f.payload|, k, x);
  }
}
