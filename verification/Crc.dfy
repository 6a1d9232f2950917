/**
 CRC-32 with the reflected polynomial 0xEDB88320. The repository computes it
 from a 256-entry table; section 8 of RFC 1952 defines it one bit at a time.
 Words are naturals: `^` is Xor, `& 0xFF` is `% 256`, `>> n` is division by 2^n.
 */
module Crc {
  import opened Wire

  // ----- exclusive or and shifts on naturals -----

  function Xor(a: nat, b: nat): nat {
    if a == 0 && b == 0 then 0
    else (if a % 2 == b % 2 then 0 else 1) + 2 * Xor(a / 2, b / 2)
  }

  function ShiftLeft(x: nat, n: nat): nat
    decreases n
  {
    if n == 0 then x else 2 * ShiftLeft(x, n - 1)
  }

  function ShiftRight(x: nat, n: nat): nat
    decreases n
  {
    if n == 0 then x else ShiftRight(x / 2, n - 1)
  }

  function Pow2(n: nat): nat {
    ShiftLeft(1, n)
  }

  lemma Halves(x: nat, bit: nat, y: nat)
    requires bit < 2 && x == bit + 2 * y
    ensures x % 2 == bit && x / 2 == y
  {}

  lemma XorUnfolds(a: nat, b: nat)
    ensures Xor(a, b) % 2 == if a % 2 == b % 2 then 0 else 1
    ensures Xor(a, b) / 2 == Xor(a / 2, b / 2)
  {
    Halves(Xor(a, b), if a % 2 == b % 2 then 0 else 1, Xor(a / 2, b / 2));
  }

  lemma {:induction false} XorZero(a: nat)
    ensures Xor(a, 0) == a && Xor(0, a) == a
  {
    if a > 0 { XorZero(a / 2); }
  }

  lemma SameBits(x: nat, y: nat)
    requires x % 2 == y % 2 && x / 2 == y / 2
    ensures x == y
  {}

  lemma {:induction false} XorAssociates(a: nat, b: nat, c: nat)
    ensures Xor(Xor(a, b), c) == Xor(a, Xor(b, c))
    decreases a + b + c
  {
    if a + b + c > 0 {
      XorAssociates(a / 2, b / 2, c / 2);
      XorUnfolds(a, b);
      XorUnfolds(b, c);
      XorUnfolds(Xor(a, b), c);
      XorUnfolds(a, Xor(b, c));
      SameBits(Xor(Xor(a, b), c), Xor(a, Xor(b, c)));
    }
  }

  lemma {:induction false} XorCancels(a: nat, b: nat, x: nat)
    ensures Xor(a, x) == Xor(b, x) ==> a == b
    ensures Xor(x, a) == Xor(x, b) ==> a == b
    decreases a + b + x
  {
    if a + b + x > 0 {
      XorUnfolds(a, x);
      XorUnfolds(b, x);
      XorUnfolds(x, a);
      XorUnfolds(x, b);
      XorCancels(a / 2, b / 2, x / 2);
      if a % 2 == b % 2 && a / 2 == b / 2 { SameBits(a, b); }
    }
  }

  /** Exclusive or stays within the width of its operands. */
  lemma {:induction false} XorBounded(a: nat, b: nat, n: nat)
    requires a < Pow2(n) && b < Pow2(n)
    ensures Xor(a, b) < Pow2(n)
  {
    if n > 0 { XorBounded(a / 2, b / 2, n - 1); }
  }

  /** A top bit only one operand has survives. */
  lemma {:induction false} XorKeepsTopBit(a: nat, b: nat, n: nat)
    requires Pow2(n) <= a < 2 * Pow2(n) && b < Pow2(n)
    ensures Pow2(n) <= Xor(a, b)
  {
    if n > 0 { XorKeepsTopBit(a / 2, b / 2, n - 1); }
  }

  /** Bits below the shift distance do not survive the shift. */
  lemma {:induction false} ShiftDropsLow(a: nat, b: nat, n: nat)
    requires b < Pow2(n)
    ensures ShiftRight(Xor(a, b), n) == ShiftRight(a, n)
  {
    if n == 0 {
      XorZero(a);
    } else {
      XorUnfolds(a, b);
      ShiftDropsLow(a / 2, b / 2, n - 1);
    }
  }

  lemma {:induction false} XorOfDisjoint(lo: nat, hi: nat, n: nat)
    requires lo < Pow2(n)
    ensures Xor(lo, ShiftLeft(hi, n)) == lo + ShiftLeft(hi, n)
  {
    if n == 0 {
      XorZero(hi);
    } else {
      XorUnfolds(lo, ShiftLeft(hi, n));
      XorOfDisjoint(lo / 2, hi, n - 1);
      Halves(ShiftLeft(hi, n), 0, ShiftLeft(hi, n - 1));
      SameBits(Xor(lo, ShiftLeft(hi, n)), lo + ShiftLeft(hi, n));
    }
  }

  // ----- the bit-at-a-time definition -----

  const POLYNOMIAL: U32 := 0xEDB8_8320
  const ALL_ONES: U32 := 0xFFFF_FFFF

  lemma WordWidth()
    ensures Pow2(8) == 0x100 && Pow2(31) == 0x8000_0000 && Pow2(32) == 0x1_0000_0000
  {
    assert Pow2(12) == 0x1000;
    assert Pow2(22) == 0x40_0000;
    assert Pow2(32) == 2 * Pow2(31);
  }

  /** Shifts one bit out of the register. */
  function BitStep(c: U32): U32 {
    WordWidth();
    if c % 2 == 1 then
      XorBounded(POLYNOMIAL, c / 2, 32);
      Xor(POLYNOMIAL, c / 2)
    else c / 2
  }

  function BitSteps(c: U32, n: nat): U32
    decreases n, c
  {
    if n == 0 then c else BitSteps(BitStep(c), n - 1)
  }

  /** Absorbs one byte: xor it into the low end, then eight bit steps. */
  function ByteStep(c: U32, b: Byte): U32 {
    WordWidth();
    XorBounded(c, b, 32);
    BitSteps(Xor(c, b), 8)
  }

  function Register(c: U32, s: seq<Byte>): U32
    decreases |s|
  {
    if s == [] then c else Register(ByteStep(c, s[0]), s[1..])
  }

  /** The checksum of a byte string. */
  function Crc32(s: seq<Byte>): U32 {
    WordWidth();
    XorBounded(Register(ALL_ONES, s), ALL_ONES, 32);
    Xor(Register(ALL_ONES, s), ALL_ONES)
  }

  // ----- no step loses information -----

  /** The bit shifted out reappears as the top bit of the result. */
  lemma TopBit(c: U32)
    ensures BitStep(c) >= 0x8000_0000 <==> c % 2 == 1
  {
    WordWidth();
    if c % 2 == 1 { XorKeepsTopBit(POLYNOMIAL, c / 2, 31); }
  }

  lemma BitStepInjective(c: U32, d: U32)
    requires BitStep(c) == BitStep(d)
    ensures c == d
  {
    TopBit(c);
    TopBit(d);
    XorCancels(c / 2, d / 2, POLYNOMIAL);
    assert c == 2 * (c / 2) + c % 2;
    assert d == 2 * (d / 2) + d % 2;
  }

  lemma {:induction false} BitStepsInjective(c: U32, d: U32, n: nat)
    requires BitSteps(c, n) == BitSteps(d, n)
    ensures c == d
    decreases n
  {
    if n > 0 {
      BitStepsInjective(BitStep(c), BitStep(d), n - 1);
      BitStepInjective(c, d);
    }
  }

  /** One byte step is injective in the register and in the byte. */
  lemma ByteStepInjective(c: U32, d: U32, x: Byte, y: Byte)
    ensures ByteStep(c, x) == ByteStep(d, x) ==> c == d
    ensures ByteStep(c, x) == ByteStep(c, y) ==> x == y
  {
    WordWidth();
    XorBounded(c, x, 32);
    XorBounded(d, x, 32);
    XorBounded(c, y, 32);
    if ByteStep(c, x) == ByteStep(d, x) {
      BitStepsInjective(Xor(c, x), Xor(d, x), 8);
      XorCancels(c, d, x);
    }
    if ByteStep(c, x) == ByteStep(c, y) {
      BitStepsInjective(Xor(c, x), Xor(c, y), 8);
      XorCancels(x, y, c);
    }
  }

  lemma {:induction false} RegisterInjective(c: U32, d: U32, s: seq<Byte>)
    requires Register(c, s) == Register(d, s)
    ensures c == d
    decreases |s|
  {
    if s != [] {
      RegisterInjective(ByteStep(c, s[0]), ByteStep(d, s[0]), s[1..]);
      ByteStepInjective(c, d, s[0], s[0]);
    }
  }

  lemma {:induction false} RegisterSeesByte(c: U32, s: seq<Byte>, k: nat, b: Byte)
    requires k < |s|
    requires Register(c, s) == Register(c, s[k := b])
    ensures s[k] == b
    decreases k
  {
    var s' := s[k := b];
    if k == 0 {
      assert s'[1..] == s[1..];
      RegisterInjective(ByteStep(c, s[0]), ByteStep(c, b), s[1..]);
      ByteStepInjective(c, c, s[0], b);
    } else {
      assert s'[1..] == s[1..][k - 1 := b];
      RegisterSeesByte(ByteStep(c, s[0]), s[1..], k - 1, b);
    }
  }

  /** Changing exactly one byte of a message always changes its checksum. */
  lemma SingleByteDetected(s: seq<Byte>, k: nat, b: Byte)
    requires k < |s| && s[k] != b
    ensures Crc32(s) != Crc32(s[k := b])
  {
    if Crc32(s) == Crc32(s[k := b]) {
      XorCancels(Register(ALL_ONES, s), Register(ALL_ONES, s[k := b]), ALL_ONES);
      RegisterSeesByte(ALL_ONES, s, k, b);
    }
  }

  // ----- the table-driven form -----

  /** An even term is merely shifted: it never reaches the feedback. */
  lemma BitStepOfXor(c: U32, e: U32, x: U32)
    requires e % 2 == 0 && x == Xor(c, e)
    ensures BitStep(x) == Xor(BitStep(c), e / 2)
  {
    XorUnfolds(c, e);
    if c % 2 == 1 {
      XorAssociates(POLYNOMIAL, c / 2, e / 2);
    }
  }

  lemma {:induction false} BitStepsOfXor(c: U32, hi: U32, n: nat, x: U32)
    requires ShiftLeft(hi, n) < 0x1_0000_0000 && x == Xor(c, ShiftLeft(hi, n))
    ensures BitSteps(x, n) == Xor(BitSteps(c, n), hi)
    decreases n
  {
    if n > 0 {
      Halves(ShiftLeft(hi, n), 0, ShiftLeft(hi, n - 1));
      BitStepOfXor(c, ShiftLeft(hi, n), x);
      BitStepsOfXor(BitStep(c), hi, n - 1, BitStep(x));
    }
  }

  lemma ByteShifts(x: nat)
    ensures ShiftLeft(x, 8) == 256 * x && ShiftRight(x, 8) == x / 256
  {
    assert ShiftLeft(x, 4) == 16 * x;
    assert ShiftRight(x, 8) == ShiftRight(x / 2 / 2 / 2 / 2, 4);
  }

  /** One table lookup absorbs a byte exactly as eight bit steps do. */
  lemma TableStep(c: U32, b: Byte, x: U32)
    requires x == Xor(c, b)
    ensures ByteStep(c, b) == Xor(BitSteps(x % 256, 8), c / 256)
  {
    WordWidth();
    ByteShifts(x / 256);
    ByteShifts(x);
    ByteShifts(c);
    XorOfDisjoint(x % 256, x / 256, 8);
    BitStepsOfXor(x % 256, x / 256, 8, x);
    ShiftDropsLow(c, b, 8);
  }

  predicate Tabulates(table: seq<U32>) {
    && |table| == 256
    && forall i :: 0 <= i < 256 ==> table[i] == BitSteps(i, 8)
  }

  method TableEntry(i: Byte) returns (c: U32)
    ensures c == BitSteps(i, 8)
  {
    c := i;
    for k := 0 to 8
      invariant BitSteps(c, 8 - k) == BitSteps(i, 8)
    {
      c := BitStep(c);
    }
  }

  method BuildTable() returns (table: array<U32>)
    ensures fresh(table) && Tabulates(table[..])
  {
    table := new U32[256];
    for i := 0 to 256
      invariant forall j :: 0 <= j < i ==> table[j] == BitSteps(j, 8)
    {
      table[i] := TableEntry(i);
    }
  }

  /** The repository's table-driven checksum computes the bit-at-a-time one. */
  method ComputeCrc32(data: seq<Byte>) returns (v: U32)
    ensures v == Crc32(data)
  {
    var table := BuildTable();
    var crc: U32 := ALL_ONES;
    WordWidth();
    for i := 0 to |data|
      invariant Tabulates(table[..])
      invariant Register(crc, data[i..]) == Register(ALL_ONES, data)
    {
      XorBounded(crc, data[i], 32);
      var x: U32 := Xor(crc, data[i]);
      TableStep(crc, data[i], x);
      assert table[..][x % 256] == BitSteps(x % 256, 8);
      assert data[i..][1..] == data[i + 1..];
      XorBounded(table[x % 256], crc / 256, 32);
      crc := Xor(table[x % 256], crc / 256);
    }
    XorBounded(crc, ALL_ONES, 32);
    v := Xor(crc, ALL_ONES);
  }
}
