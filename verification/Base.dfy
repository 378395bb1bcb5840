// Machine integers as ranges of `int`, byte strings, and a few collection helpers.
module Base {
  const U32_MOD: int := 0x1_0000_0000
  const U64_MOD: int := 0x1_0000_0000_0000_0000

  type U8 = x: int | 0 <= x < 0x100
  type U32 = x: int | 0 <= x < 0x1_0000_0000
  type U64 = x: int | 0 <= x < 0x1_0000_0000_0000_0000
  type I32 = x: int | -0x8000_0000 <= x < 0x8000_0000
  type I64 = x: int | -0x8000_0000_0000_0000 <= x < 0x8000_0000_0000_0000

  // The conversions between signed and unsigned integers of the same width.
  function Unsigned32(i: I32): U32 { if i < 0 then i + U32_MOD else i }
  function Signed32(u: U32): I32 { if u < 0x8000_0000 then u else u - U32_MOD }
  function Unsigned64(i: I64): U64 { if i < 0 then i + U64_MOD else i }
  function Signed64(u: U64): I64 { if u < 0x8000_0000_0000_0000 then u else u - U64_MOD }

  // A std::string is a sequence of bytes.
  type Text = seq<U8>

  datatype Option<+T> = None | Some(value: T)

  // Applies `f` to every element.
  function MapSeq<A, B>(f: A -> B, s: seq<A>): (t: seq<B>)
    ensures |t| == |s|
    ensures forall i :: 0 <= i < |s| ==> t[i] == f(s[i])
  {
    seq(|s|, i requires 0 <= i < |s| => f(s[i]))
  }

  lemma SubsetCardinality<T>(a: set<T>, b: set<T>)
    requires a <= b
    ensures |a| <= |b|
  {
    assert b == a + (b - a);
  }

  // ----- Numbers as bytes, least significant first -----

  function Pow256(n: nat): (p: nat)
    ensures p > 0
  {
    if n == 0 then 1 else 256 * Pow256(n - 1)
  }

  lemma Pow256Of8()
    ensures Pow256(4) == U32_MOD && Pow256(8) == U64_MOD
  {
    assert Pow256(6) == 0x1_0000_0000_0000;
  }

  lemma {:induction false} Pow256Grows(m: nat, n: nat)
    requires m <= n
    ensures Pow256(m) <= Pow256(n)
  {
    if m < n { Pow256Grows(m, n - 1); }
  }

  // The `n` least significant base-256 digits of `v`.
  function LittleEndian(v: nat, n: nat): (b: seq<U8>)
    ensures |b| == n
  {
    if n == 0 then [] else [v % 256] + LittleEndian(v / 256, n - 1)
  }

  function LittleEndianValue(b: seq<U8>): nat {
    if b == [] then 0 else b[0] + 256 * LittleEndianValue(b[1..])
  }

  lemma {:induction false} LittleEndianReads(v: nat, n: nat)
    requires v < Pow256(n)
    ensures LittleEndianValue(LittleEndian(v, n)) == v
  {
    if n > 0 {
      LittleEndianReads(v / 256, n - 1);
      assert LittleEndian(v, n)[1..] == LittleEndian(v / 256, n - 1);
    }
  }

  lemma {:induction false} LittleEndianBound(b: seq<U8>)
    ensures LittleEndianValue(b) < Pow256(|b|)
  {
    if b != [] { LittleEndianBound(b[1..]); }
  }

  lemma {:induction false} LittleEndianWrites(b: seq<U8>)
    ensures LittleEndianValue(b) < Pow256(|b|)
    ensures LittleEndian(LittleEndianValue(b), |b|) == b
  {
    LittleEndianBound(b);
    if b != [] {
      LittleEndianWrites(b[1..]);
      var y := LittleEndianValue(b[1..]);
      assert (b[0] + 256 * y) % 256 == b[0] && (b[0] + 256 * y) / 256 == y;
      assert b == [b[0]] + b[1..];
    }
  }

  // ----- Digits -----

  lemma DivideTwice(v: nat, m: nat, p: nat)
    requires m > 0 && p > 0
    ensures m * p > 0 && v / m / p == v / (m * p)
  {
    var (a, b) := (v / m, v % m);
    var (q, r) := (a / p, a % p);
    assert a == p * q + r && v == m * a + b;
    assert m * (p * q + r) == m * (p * q) + m * r && m * (p * q) == m * p * q;
    AtLeastOnce(m, p - r);
    assert m * (p - r) == m * p - m * r;
    AtLeastOnce(m, p);
    OneQuotient(v, m * p, q, m * r + b);
  }

  lemma OneQuotient(v: int, m: int, q: int, t: int)
    requires m > 0 && v == m * q + t && 0 <= t < m
    ensures v / m == q
  {
    var (x, y) := (v / m, v % m);
    assert v == m * x + y;
    AtLeastOnce(m, q - x);
    AtLeastOnce(m, x - q);
    assert m * (q - x) == y - t && m * (x - q) == t - y;
  }

  lemma AtLeastOnce(m: int, k: int)
    requires m > 0
    ensures k >= 1 ==> m * k >= m
  {
  }
}
