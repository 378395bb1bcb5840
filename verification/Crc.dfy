// CRC-64 as computed by src/snapshot.cpp:14-34: the reflected polynomial of Annex B of ECMA-182,
// with zero initial value and zero final exclusive-or.
module Crc {
  import opened Base

  // ----- Bitwise exclusive-or on naturals -----

  function Differ(i: nat, j: nat): (r: nat)
    ensures r < 2
  {
    if i == j then 0 else 1
  }

  function Xor(a: nat, b: nat): nat
    decreases a + b
  {
    if a == 0 && b == 0 then 0 else 2 * Xor(a / 2, b / 2) + Differ(a % 2, b % 2)
  }

  lemma {:induction false} XorZero(a: nat)
    ensures Xor(a, 0) == a && Xor(0, a) == a
  {
    if a != 0 { XorZero(a / 2); }
  }

  lemma {:induction false} XorSelf(a: nat)
    ensures Xor(a, a) == 0
  {
    if a != 0 { XorSelf(a / 2); }
  }

  // One binary digit at a time.
  lemma XorDigits(p: nat, i: nat, q: nat, j: nat)
    requires i < 2 && j < 2
    ensures Xor(2 * p + i, 2 * q + j) == 2 * Xor(p, q) + Differ(i, j)
  {
    var (a, b) := (2 * p + i, 2 * q + j);
    assert a / 2 == p && b / 2 == q && a % 2 == i && b % 2 == j;
    if a == 0 && b == 0 { XorZero(0); }
  }

  lemma XorHalves(a: nat, b: nat)
    ensures Xor(a, b) / 2 == Xor(a / 2, b / 2) && Xor(a, b) % 2 == Differ(a % 2, b % 2)
  {
    XorDigits(a / 2, a % 2, b / 2, b % 2);
  }

  lemma XorDigitsLeft(p: nat, i: nat, q: nat, j: nat, r: nat, k: nat)
    requires i < 2 && j < 2 && k < 2
    ensures Xor(Xor(2 * p + i, 2 * q + j), 2 * r + k) == 2 * Xor(Xor(p, q), r) + Differ(Differ(i, j), k)
  {
    XorDigits(p, i, q, j);
    XorDigits(Xor(p, q), Differ(i, j), r, k);
  }

  lemma XorDigitsRight(p: nat, i: nat, q: nat, j: nat, r: nat, k: nat)
    requires i < 2 && j < 2 && k < 2
    ensures Xor(2 * p + i, Xor(2 * q + j, 2 * r + k)) == 2 * Xor(p, Xor(q, r)) + Differ(i, Differ(j, k))
  {
    XorDigits(q, j, r, k);
    XorDigits(p, i, Xor(q, r), Differ(j, k));
  }

  // One step of associativity: if it holds above the lowest digit, it holds with it.
  lemma XorAssocDigits(p: nat, i: nat, q: nat, j: nat, r: nat, k: nat)
    requires i < 2 && j < 2 && k < 2 && Xor(Xor(p, q), r) == Xor(p, Xor(q, r))
    ensures Xor(Xor(2 * p + i, 2 * q + j), 2 * r + k) == Xor(2 * p + i, Xor(2 * q + j, 2 * r + k))
  {
    XorDigitsLeft(p, i, q, j, r, k);
    XorDigitsRight(p, i, q, j, r, k);
  }

  lemma {:induction false} XorAssoc(a: nat, b: nat, c: nat)
    ensures Xor(Xor(a, b), c) == Xor(a, Xor(b, c))
    decreases a + b + c
  {
    if a != 0 || b != 0 || c != 0 {
      var (p, q, r) := (a / 2, b / 2, c / 2);
      XorAssoc(p, q, r);
      XorAssocDigits(p, a - 2 * p, q, b - 2 * q, r, c - 2 * r);
    }
  }

  lemma {:induction false} XorComm(a: nat, b: nat)
    ensures Xor(a, b) == Xor(b, a)
    decreases a + b
  {
    if a != 0 || b != 0 { XorComm(a / 2, b / 2); }
  }

  lemma XorCancels(a: nat, b: nat)
    ensures Xor(Xor(a, b), b) == a
  {
    XorAssoc(a, b, b);
    XorSelf(b);
    XorZero(a);
  }

  lemma XorIsZero(a: nat, b: nat)
    ensures Xor(a, b) == 0 <==> a == b
  {
    XorSelf(a);
    if Xor(a, b) == 0 {
      XorCancels(a, b);
      XorZero(b);
    }
  }

  // (a ^ b) ^ (c ^ b) = a ^ c
  lemma XorDropCommon(a: nat, b: nat, c: nat)
    ensures Xor(Xor(a, b), Xor(c, b)) == Xor(a, c)
  {
    XorComm(c, b);
    XorAssoc(Xor(a, b), b, c);
    XorCancels(a, b);
  }

  // (a ^ b) ^ c = (a ^ c) ^ b
  lemma XorSwap(a: nat, b: nat, c: nat)
    ensures Xor(Xor(a, b), c) == Xor(Xor(a, c), b)
  {
    XorAssoc(a, b, c);
    XorComm(b, c);
    XorAssoc(a, c, b);
  }

  function Pow2(k: nat): (p: nat)
    ensures p > 0
  {
    if k == 0 then 1 else 2 * Pow2(k - 1)
  }

  lemma Pow2Of64()
    ensures Pow2(64) == U64_MOD && Pow2(63) == 0x8000_0000_0000_0000
  {
    assert Pow2(8) == 0x100;
    assert Pow2(16) == 0x1_0000;
    assert Pow2(24) == 0x100_0000;
    assert Pow2(32) == 0x1_0000_0000;
    assert Pow2(40) == 0x100_0000_0000;
    assert Pow2(48) == 0x1_0000_0000_0000;
    assert Pow2(56) == 0x100_0000_0000_0000;
  }

  lemma {:induction false} XorBound(a: nat, b: nat, k: nat)
    requires a < Pow2(k) && b < Pow2(k)
    ensures Xor(a, b) < Pow2(k)
  {
    if k > 0 { XorBound(a / 2, b / 2, k - 1); }
  }

  // A multiple of 2^k and a number below 2^k have no bit in common.
  lemma {:induction false} XorBelow(y: nat, d: nat, k: nat)
    requires d < Pow2(k)
    ensures Xor(Pow2(k) * y, d) == Pow2(k) * y + d
  {
    if k == 0 {
      XorZero(y);
    } else {
      Pow2Times(k, y);
      XorBelow(y, d / 2, k - 1);
      XorDigits(Pow2(k - 1) * y, 0, d / 2, d % 2);
    }
  }

  lemma XorByte(y: nat, d: nat)
    requires d < 256
    ensures Xor(256 * y, d) == 256 * y + d
  {
    assert Pow2(8) == 256;
    XorBelow(y, d, 8);
  }

  // ----- The shift register -----

  const POLY: nat := 0xC96C_5795_D787_0F42

  // One turn of the inner loop of make_crc64_table.
  function Shift(c: nat): nat {
    if c % 2 == 1 then Xor(c / 2, POLY) else c / 2
  }

  function Shifts(c: nat, k: nat): nat
    decreases k, c
  {
    if k == 0 then c else Shifts(Shift(c), k - 1)
  }

  lemma ShiftLinear(a: nat, b: nat)
    ensures Shift(Xor(a, b)) == Xor(Shift(a), Shift(b))
  {
    XorHalves(a, b);
    var (x, y) := (a / 2, b / 2);
    if a % 2 == 1 && b % 2 == 1 {
      XorDropCommon(x, POLY, y);
    } else if a % 2 == 1 {
      XorSwap(x, POLY, y);
    } else if b % 2 == 1 {
      XorAssoc(x, y, POLY);
    }
  }

  lemma {:induction false} ShiftsLinear(a: nat, b: nat, k: nat)
    ensures Shifts(Xor(a, b), k) == Xor(Shifts(a, k), Shifts(b, k))
    decreases k
  {
    if k > 0 {
      ShiftLinear(a, b);
      ShiftsLinear(Shift(a), Shift(b), k - 1);
    }
  }

  lemma {:induction false} ShiftsCompose(c: nat, j: nat, k: nat)
    ensures Shifts(Shifts(c, j), k) == Shifts(c, j + k)
    decreases j
  {
    if j > 0 { ShiftsCompose(Shift(c), j - 1, k); }
  }

  lemma {:induction false} ShiftsOfZero(k: nat)
    ensures Shifts(0, k) == 0
  {
    if k > 0 { ShiftsOfZero(k - 1); }
  }

  // An even number is shifted without touching the polynomial.
  lemma ShiftOfEven(m: nat)
    ensures Shift(2 * m) == m
  {
  }

  lemma Pow2Times(k: nat, y: nat)
    requires k > 0
    ensures Pow2(k) * y == 2 * (Pow2(k - 1) * y)
  {
  }

  lemma {:induction false} ShiftsOfMultiple(y: nat, k: nat)
    ensures Shifts(Pow2(k) * y, k) == y
  {
    if k > 0 {
      Pow2Times(k, y);
      ShiftOfEven(Pow2(k - 1) * y);
      ShiftsOfMultiple(y, k - 1);
    }
  }

  lemma ShiftBound(c: nat)
    requires c < U64_MOD
    ensures Shift(c) < U64_MOD
  {
    Pow2Of64();
    XorBound(c / 2, POLY, 64);
  }

  lemma {:induction false} ShiftsBound(c: nat, k: nat)
    requires c < U64_MOD
    ensures Shifts(c, k) < U64_MOD
    decreases k
  {
    if k > 0 {
      ShiftBound(c);
      ShiftsBound(Shift(c), k - 1);
    }
  }

  // The register loses nothing: the polynomial's top bit records the bit that was shifted out.
  lemma ShiftOnlyZeroToZero(c: nat)
    requires c < U64_MOD && Shift(c) == 0
    ensures c == 0
  {
    if c % 2 == 1 {
      XorIsZero(c / 2, POLY);
    }
  }

  lemma {:induction false} ShiftsInjective(a: nat, b: nat, k: nat)
    requires a < U64_MOD && b < U64_MOD && Shifts(a, k) == Shifts(b, k)
    ensures a == b
    decreases k
  {
    if k > 0 {
      ShiftBound(a);
      ShiftBound(b);
      ShiftsInjective(Shift(a), Shift(b), k - 1);
      ShiftLinear(a, b);
      XorIsZero(Shift(a), Shift(b));
      Pow2Of64();
      XorBound(a, b, 64);
      ShiftOnlyZeroToZero(Xor(a, b));
      XorIsZero(a, b);
    }
  }

  // ----- From bits to bytes to messages -----

  // Bit-serial division: each message bit, least significant first, is compared with the bit
  // leaving the register, which decides whether the polynomial is subtracted.
  function FeedBit(crc: nat, bit: nat): nat {
    if crc % 2 != bit then Xor(crc / 2, POLY) else crc / 2
  }

  function FeedBits(crc: nat, d: nat, k: nat): nat
    decreases k, crc
  {
    if k == 0 then crc else FeedBits(FeedBit(crc, d % 2), d / 2, k - 1)
  }

  // A whole byte at once.
  function Feed(crc: nat, d: nat): nat {
    Shifts(Xor(crc, d), 8)
  }

  lemma FeedBitIsShift(crc: nat, d: nat)
    ensures Xor(FeedBit(crc, d % 2), d / 2) == Shift(Xor(crc, d))
  {
    XorHalves(crc, d);
    if crc % 2 != d % 2 { XorSwap(crc / 2, POLY, d / 2); }
  }

  lemma {:induction false} FeedIsBitSerial(crc: nat, d: nat, k: nat)
    requires d < Pow2(k)
    ensures FeedBits(crc, d, k) == Shifts(Xor(crc, d), k)
    decreases k
  {
    XorZero(crc);
    if k > 0 {
      FeedIsBitSerial(FeedBit(crc, d % 2), d / 2, k - 1);
      FeedBitIsShift(crc, d);
    }
  }

  // An entry of the lookup table.
  function Entry(i: nat): nat {
    Shifts(i, 8)
  }

  // The table-driven step of the crc64 loop.
  function TableStep(crc: nat, d: nat): nat {
    Xor(Entry(Xor(crc % 256, d)), crc / 256)
  }

  // Table lookup and byte shift amount to eight turns of the register.
  lemma TableStepIsFeed(crc: nat, d: nat)
    requires d < 256
    ensures TableStep(crc, d) == Feed(crc, d)
  {
    var (hi, lo) := (crc / 256, crc % 256);
    XorByte(hi, lo);
    assert crc == Xor(256 * hi, lo);
    XorAssoc(256 * hi, lo, d);
    ShiftsLinear(256 * hi, Xor(lo, d), 8);
    assert Pow2(8) == 256;
    ShiftsOfMultiple(hi, 8);
    XorComm(hi, Shifts(Xor(lo, d), 8));
  }

  function CrcFrom(crc: nat, data: seq<U8>): nat
    decreases |data|
  {
    if data == [] then crc else CrcFrom(Feed(crc, data[0]), data[1..])
  }

  function Crc64(data: seq<U8>): nat {
    CrcFrom(0, data)
  }

  lemma {:induction false} CrcAppend(crc: nat, a: seq<U8>, b: seq<U8>)
    ensures CrcFrom(crc, a + b) == CrcFrom(CrcFrom(crc, a), b)
    decreases |a|
  {
    if a == [] {
      assert a + b == b;
    } else {
      assert (a + b)[1..] == a[1..] + b;
      CrcAppend(Feed(crc, a[0]), a[1..], b);
    }
  }

  lemma FeedBound(crc: nat, d: nat)
    requires crc < U64_MOD && d < 256
    ensures Feed(crc, d) < U64_MOD
  {
    Pow2Of64();
    XorBound(crc, d, 64);
    ShiftsBound(Xor(crc, d), 8);
  }

  lemma {:induction false} CrcBound(crc: nat, data: seq<U8>)
    requires crc < U64_MOD
    ensures CrcFrom(crc, data) < U64_MOD
    decreases |data|
  {
    if data != [] {
      FeedBound(crc, data[0]);
      CrcBound(Feed(crc, data[0]), data[1..]);
    }
  }

  // make_crc64_table
  method MakeTable() returns (table: array<U64>)
    ensures fresh(table) && table.Length == 256
    ensures forall i :: 0 <= i < 256 ==> table[i] == Entry(i)
  {
    table := new U64[256](i => 0);
    for i := 0 to 256
      invariant forall j :: 0 <= j < i ==> table[j] == Entry(j)
    {
      var crc: U64 := i;
      for k := 0 to 8
        invariant Shifts(crc, 8 - k) == Entry(i)
        invariant forall j :: 0 <= j < i ==> table[j] == Entry(j)
      {
        ShiftBound(crc);
        ghost var next := Shift(crc);
        assert Shifts(crc, 8 - k) == Shifts(next, 7 - k);
        crc := if crc % 2 == 1 then Xor(crc / 2, POLY) else crc / 2;
      }
      table[i] := crc;
    }
  }

  // The checksum routine computes the bit-serial remainder.
  method ComputeCrc64(data: seq<U8>) returns (crc: U64)
    ensures crc == Crc64(data)
  {
    var table := MakeTable();
    crc := 0;
    for i := 0 to |data|
      invariant crc == CrcFrom(0, data[..i])
      invariant forall j :: 0 <= j < 256 ==> table[j] == Entry(j)
    {
      LowByte(crc, data[i]);
      StepAppends(data, i, crc);
      var index := Xor(crc % 256, data[i]);
      crc := Xor(table[index], crc / 256);
    }
    assert data[..|data|] == data;
  }

  lemma LowByte(crc: nat, d: nat)
    requires d < 256
    ensures Xor(crc % 256, d) < 256
  {
    assert Pow2(8) == 256;
    XorBound(crc % 256, d, 8);
  }

  lemma StepAppends(data: seq<U8>, i: nat, crc: nat)
    requires i < |data| && crc < U64_MOD && crc == CrcFrom(0, data[..i])
    ensures TableStep(crc, data[i]) == CrcFrom(0, data[..i + 1]) < U64_MOD
  {
    TableStepIsFeed(crc, data[i]);
    FeedBound(crc, data[i]);
    CrcAppend(0, data[..i], [data[i]]);
    assert data[..i + 1] == data[..i] + [data[i]];
    assert [data[i]][1..] == [];
  }

  // ----- What the checksum detects -----

  // Eight bytes or fewer denote a 64-bit number.
  lemma WindowBound(b: seq<U8>)
    requires |b| <= 8
    ensures LittleEndianValue(b) < U64_MOD
  {
    LittleEndianWrites(b);
    Pow256Of8();
    Pow256Grows(|b|, 8);
  }

  lemma WindowStep(crc: nat, d: nat, y: nat)
    requires d < 256
    ensures Xor(Feed(crc, d), y) == Shifts(Xor(crc, 256 * y + d), 8)
  {
    assert Pow2(8) == 256;
    ShiftsOfMultiple(y, 8);
    ShiftsLinear(Xor(crc, d), 256 * y, 8);
    XorAssoc(crc, d, 256 * y);
    XorComm(d, 256 * y);
    XorByte(y, d);
  }

  // Feeding bytes one by one is adding their little-endian number to the register and then shifting.
  lemma {:induction false} WindowAsNumber(crc: nat, w: seq<U8>)
    ensures CrcFrom(crc, w) == Shifts(Xor(crc, LittleEndianValue(w)), 8 * |w|)
    decreases |w|
  {
    XorZero(crc);
    if w != [] {
      var (d, y) := (w[0], LittleEndianValue(w[1..]));
      WindowAsNumber(Feed(crc, d), w[1..]);
      WindowStep(crc, d, y);
      ShiftsCompose(Xor(crc, 256 * y + d), 8, 8 * |w[1..]|);
    }
  }

  // Eight bytes leave the register clear exactly when they are its little-endian content.
  lemma ResidueIsZero(crc: nat, t: seq<U8>)
    requires crc < U64_MOD && |t| == 8
    ensures CrcFrom(crc, t) == 0 <==> LittleEndianValue(t) == crc
  {
    var v := LittleEndianValue(t);
    WindowBound(t);
    Pow2Of64();
    WindowAsNumber(crc, t);
    XorBound(crc, v, 64);
    ShiftsOfZero(64);
    XorIsZero(crc, v);
    if CrcFrom(crc, t) == 0 {
      ShiftsInjective(Xor(crc, v), 0, 64);
    }
  }

  // The register after a suffix tells the registers before it apart.
  lemma {:induction false} SuffixInjective(a: nat, b: nat, s: seq<U8>)
    requires a < U64_MOD && b < U64_MOD && CrcFrom(a, s) == CrcFrom(b, s)
    ensures a == b
    decreases |s|
  {
    if s != [] {
      FeedBound(a, s[0]);
      FeedBound(b, s[0]);
      SuffixInjective(Feed(a, s[0]), Feed(b, s[0]), s[1..]);
      Pow2Of64();
      XorBound(a, s[0], 64);
      XorBound(b, s[0], 64);
      ShiftsInjective(Xor(a, s[0]), Xor(b, s[0]), 8);
      XorCancels(a, s[0]);
      XorCancels(b, s[0]);
    }
  }

  // Two windows of at most eight bytes take the register to the same place only if they are equal.
  lemma WindowInjective(crc: nat, v: seq<U8>, w: seq<U8>)
    requires crc < U64_MOD && |v| == |w| <= 8 && CrcFrom(crc, v) == CrcFrom(crc, w)
    ensures v == w
  {
    var (x, y) := (LittleEndianValue(v), LittleEndianValue(w));
    WindowAsNumber(crc, v);
    WindowAsNumber(crc, w);
    Pow2Of64();
    WindowBound(v);
    WindowBound(w);
    XorBound(crc, x, 64);
    XorBound(crc, y, 64);
    ShiftsInjective(Xor(crc, x), Xor(crc, y), 8 * |v|);
    XorComm(crc, x);
    XorComm(crc, y);
    XorCancels(x, crc);
    XorCancels(y, crc);
    LittleEndianWrites(v);
    LittleEndianWrites(w);
  }

  ghost predicate DifferOnlyIn(a: seq<U8>, b: seq<U8>, lo: nat, hi: nat) {
    |a| == |b| && lo <= hi <= |a| && a[..lo] == b[..lo] && a[hi..] == b[hi..]
  }

  // Messages that differ only inside eight consecutive bytes have different checksums.
  lemma BurstsAreDetected(a: seq<U8>, b: seq<U8>, lo: nat, hi: nat)
    requires DifferOnlyIn(a, b, lo, hi) && hi - lo <= 8
    ensures Crc64(a) == Crc64(b) <==> a == b
  {
    if Crc64(a) == Crc64(b) {
      var s := CrcFrom(0, a[..lo]);
      CrcBound(0, a[..lo]);
      ThreeParts(a, lo, hi);
      ThreeParts(b, lo, hi);
      CrcBound(s, a[lo..hi]);
      CrcBound(s, b[lo..hi]);
      SuffixInjective(CrcFrom(s, a[lo..hi]), CrcFrom(s, b[lo..hi]), a[hi..]);
      WindowInjective(s, a[lo..hi], b[lo..hi]);
      assert a == a[..lo] + a[lo..hi] + a[hi..] && b == b[..lo] + b[lo..hi] + b[hi..];
    }
  }

  lemma ThreeParts(a: seq<U8>, lo: nat, hi: nat)
    requires lo <= hi <= |a|
    ensures Crc64(a) == CrcFrom(CrcFrom(CrcFrom(0, a[..lo]), a[lo..hi]), a[hi..])
  {
    assert a == a[..lo] + (a[lo..hi] + a[hi..]);
    CrcAppend(0, a[..lo], a[lo..hi] + a[hi..]);
    CrcAppend(CrcFrom(0, a[..lo]), a[lo..hi], a[hi..]);
  }
}
