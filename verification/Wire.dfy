/**
 The deterministic little-endian codec: fixed-width integers, length-prefixed
 strings, and the mutable writer and reader every format is built from.
 */
module Wire {

  type Byte = x: int | 0 <= x < 0x100
  type U32 = x: int | 0 <= x < 0x1_0000_0000
  type U64 = x: int | 0 <= x < 0x1_0000_0000_0000_0000

  /** A std::string: an uninterpreted run of bytes. */
  type Str = seq<Byte>

  /** The largest string a reader accepts. */
  const MAX_STRING := 64 * 1024 * 1024

  datatype Option<+T> = None | Some(value: T)

  // ----- fixed-width integers -----

  function Pow256(n: nat): (p: nat)
    ensures p > 0
  {
    if n == 0 then 1 else 256 * Pow256(n - 1)
  }

  function LittleEndian(v: nat, n: nat): (s: seq<Byte>)
    ensures |s| == n
  {
    if n == 0 then [] else [v % 256] + LittleEndian(v / 256, n - 1)
  }

  function FromLittleEndian(s: seq<Byte>): (v: nat)
    ensures v < Pow256(|s|)
  {
    if s == [] then 0 else s[0] + 256 * FromLittleEndian(s[1..])
  }

  lemma Widths()
    ensures Pow256(1) == 0x100
    ensures Pow256(2) == 0x1_0000
    ensures Pow256(4) == 0x1_0000_0000
    ensures Pow256(8) == 0x1_0000_0000_0000_0000
  {
    assert Pow256(2) == 256 * Pow256(1);
    assert Pow256(4) == 256 * Pow256(3) == 256 * (256 * Pow256(2));
    assert Pow256(6) == 256 * Pow256(5) == 256 * (256 * Pow256(4));
    assert Pow256(8) == 256 * Pow256(7) == 256 * (256 * Pow256(6));
  }

  /** Reading back an integer that fits its width gives the integer. */
  lemma {:induction false} IntegerRoundTrip(v: nat, n: nat)
    requires v < Pow256(n)
    ensures FromLittleEndian(LittleEndian(v, n)) == v
  {
    if n > 0 {
      IntegerRoundTrip(v / 256, n - 1);
      assert LittleEndian(v, n)[1..] == LittleEndian(v / 256, n - 1);
    }
  }

  /** The bytes are determined by the integer they spell. */
  lemma {:induction false} BytesRoundTrip(s: seq<Byte>)
    ensures LittleEndian(FromLittleEndian(s), |s|) == s
  {
    if s != [] {
      BytesRoundTrip(s[1..]);
      assert s == [s[0]] + s[1..];
    }
  }

  function EncodeStr(s: Str): seq<Byte> {
    LittleEndian(|s| % 0x1_0000_0000, 4) + s
  }

  // ----- the writer -----

  class ByteWriter {
    var data: seq<Byte>

    constructor ()
      ensures data == []
    {
      data := [];
    }

    method WriteU8(v: Byte)
      modifies this
      ensures data == old(data) + [v]
    {
      data := data + [v];
    }

    /** u16, u32 and u64: one byte for each shift of the value, low byte first. */
    method WriteUnsigned(v: nat, width: nat)
      modifies this
      ensures data == old(data) + LittleEndian(v, width)
    {
      var rest := v;
      for i := 0 to width
        invariant data + LittleEndian(rest, width - i) == old(data) + LittleEndian(v, width)
      {
        ghost var before := data;
        data := data + [rest % 256];
        assert before + LittleEndian(rest, width - i) == data + LittleEndian(rest / 256, width - i - 1);
        rest := rest / 256;
      }
    }

    method WriteStr(s: Str)
      modifies this
      ensures data == old(data) + EncodeStr(s)
    {
      WriteUnsigned(|s| % 0x1_0000_0000, 4);
      data := data + s;
    }

    method WriteRaw(s: seq<Byte>)
      modifies this
      ensures data == old(data) + s
    {
      data := data + s;
    }
  }

  // ----- the reader -----

  /** What one string read finds at the front of the remaining bytes. */
  function ParseStr(s: seq<Byte>): (r: Option<(Str, seq<Byte>)>)
    ensures r.Some? ==> |r.value.0| <= MAX_STRING && |r.value.1| < |s|
  {
    if |s| < 4 then None
    else
      var len := FromLittleEndian(s[..4]);
      if len > |s| - 4 || len > MAX_STRING then None
      else Some((s[4..4 + len], s[4 + len..]))
  }

  lemma U32RoundTrip(v: U32)
    ensures FromLittleEndian(LittleEndian(v, 4)) == v
  {
    Widths();
    IntegerRoundTrip(v, 4);
  }

  lemma ParsePrefixed(head: seq<Byte>, x: Str, rest: seq<Byte>)
    requires |head| == 4 && FromLittleEndian(head) == |x| <= MAX_STRING
    ensures ParseStr(head + x + rest) == Some((x, rest))
  {
    var s := head + x + rest;
    assert s[..4] == head && s[4..4 + |x|] == x && s[4 + |x|..] == rest;
  }

  /** A string within the reader's bound reads back exactly, whatever follows it. */
  lemma StringRoundTrip(x: Str, rest: seq<Byte>)
    requires |x| <= MAX_STRING
    ensures ParseStr(EncodeStr(x) + rest) == Some((x, rest))
  {
    U32RoundTrip(|x|);
    assert |x| % 0x1_0000_0000 == |x|;
    var head := LittleEndian(|x|, 4);
    assert EncodeStr(x) == head + x;
    ParsePrefixed(head, x, rest);
  }

  class ByteReader {
    const data: seq<Byte>
    var pos: nat
    var ok: bool

    ghost predicate Valid()
      reads this
    {
      pos <= |data|
    }

    function Remaining(): (s: seq<Byte>)
      requires Valid()
      reads this
      ensures |s| == |data| - pos
    {
      data[pos..]
    }

    constructor (data: seq<Byte>)
      ensures Valid() && ok && this.data == data && Remaining() == data
    {
      this.data := data;
      pos, ok := 0, true;
    }

    method ReadUnsigned(width: nat) returns (good: bool, v: nat)
      requires Valid()
      modifies this
      ensures Valid()
      ensures good <==> width <= |old(Remaining())|
      ensures good ==> v == FromLittleEndian(old(Remaining())[..width]) && v < Pow256(width)
      ensures good ==> Remaining() == old(Remaining())[width..] && ok == old(ok)
      ensures !good ==> !ok && pos == old(pos)
    {
      if pos + width > |data| {
        ok := false;
        return false, 0;
      }
      v := 0;
      ghost var field := data[pos..pos + width];
      var i := width;
      while i > 0
        invariant 0 <= i <= width
        invariant v == FromLittleEndian(field[i..])
        invariant pos == old(pos) && ok == old(ok)
      {
        i := i - 1;
        assert field[i..][1..] == field[i + 1..];
        v := data[pos + i] + 256 * v;
      }
      assert field[0..] == field == old(Remaining())[..width];
      pos := pos + width;
      good := true;
    }

    method ReadStr() returns (good: bool, s: Str)
      requires Valid()
      modifies this
      ensures Valid()
      ensures good <==> ParseStr(old(Remaining())).Some?
      ensures good ==> (s, Remaining()) == ParseStr(old(Remaining())).value && ok == old(ok)
      ensures !good ==> !ok
    {
      var len;
      good, len := ReadUnsigned(4);
      s := [];
      if !good { return; }
      if len > |data| - pos || len > MAX_STRING {
        ok := false;
        return false, [];
      }
      s := data[pos..pos + len];
      ghost var front := old(Remaining());
      assert s == front[4..4 + len] && data[pos + len..] == front[4 + len..];
      pos := pos + len;
    }

    method ReadBytes(n: nat) returns (good: bool, s: seq<Byte>)
      requires Valid()
      modifies this
      ensures Valid()
      ensures good <==> n <= |old(Remaining())|
      ensures good ==> s == old(Remaining())[..n] && Remaining() == old(Remaining())[n..] && ok == old(ok)
      ensures !good ==> !ok && pos == old(pos)
    {
      if n > |data| - pos {
        ok := false;
        return false, [];
      }
      s := data[pos..pos + n];
      pos := pos + n;
      good := true;
    }
  }
}
