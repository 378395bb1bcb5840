// The binary form of src/snapshot.cpp:37-92: what the Writer emits, what the Reader accepts, and why
// each undoes the other. A `Val` is what a write_* routine emits, primitive by primitive; a `Shape` is
// what a read_* routine demands, primitive by primitive. The two are independent of each other.
module Wire {
  import opened Base
  import opened Identity
  import opened Records

  datatype Val =
    | VCode(code: U8)          // an enumerator
    | VBool(flag: bool)
    | VWord(word: U32)
    | VLong(long: U64)
    | VReal(bits: Double)
    | VId(id: Id)
    | VText(text: Text)
    | VThen(first: Val, rest: Val)
    | VList(elems: seq<Val>)   // preceded by its length

  datatype Shape =
    | SChoice(size: nat)       // one byte below `size`
    | SBool
    | SWord
    | SLong
    | SReal
    | SId
    | SText
    | SThen(first: Shape, rest: Shape)
    | SList(elem: Shape)

  // ----- Writing -----

  function Enc(v: Val): seq<U8>
    decreases v
  {
    match v
    case VCode(c) => [c]
    case VBool(b) => [if b then 1 else 0]
    case VWord(w) => LittleEndian(w, 4)
    case VLong(n) => LittleEndian(n, 8)
    case VReal(b) => LittleEndian(b, 8)
    case VId(id) => IdBytes(id)
    case VText(t) => LittleEndian(|t|, 8) + t
    case VThen(a, b) => Enc(a) + Enc(b)
    case VList(vs) => LittleEndian(|vs|, 8) + EncAll(vs)
  }

  function EncAll(vs: seq<Val>): seq<U8>
    decreases vs
  {
    if vs == [] then [] else Enc(vs[0]) + EncAll(vs[1..])
  }

  // ----- Reading -----

  // A little-endian number of at most eight bytes.
  function NumberAt(p: seq<U8>, pos: nat, n: nat): (v: nat)
    requires n <= 8 && pos + n <= |p|
    ensures v < Pow256(n) <= U64_MOD
  {
    LittleEndianWrites(p[pos..pos + n]); Pow256Of8(); Pow256Grows(n, 8);
    LittleEndianValue(p[pos..pos + n])
  }

  // A length or count, refused when it exceeds the number of bytes left.
  function CountAt(p: seq<U8>, pos: nat): (n: Option<nat>)
    ensures n.Some? ==> pos + 8 + n.value <= |p| && n.value < U64_MOD
  {
    if pos + 8 > |p| || NumberAt(p, pos, 8) > |p| - (pos + 8) then None else Some(NumberAt(p, pos, 8))
  }

  // The value read at `pos` and the position after it.
  function Dec(s: Shape, p: seq<U8>, pos: nat): (r: Option<(Val, nat)>)
    requires pos <= |p|
    ensures r.Some? ==> pos <= r.value.1 <= |p|
    decreases s, 0
  {
    match s
    case SChoice(size) =>
      if pos + 1 > |p| || p[pos] >= size then None else Some((VCode(p[pos]), pos + 1))
    case SBool =>
      if pos + 1 > |p| || p[pos] > 1 then None else Some((VBool(p[pos] == 1), pos + 1))
    case SWord =>
      Pow256Of8();
      if pos + 4 > |p| then None else Some((VWord(NumberAt(p, pos, 4)), pos + 4))
    case SLong =>
      if pos + 8 > |p| then None else Some((VLong(NumberAt(p, pos, 8)), pos + 8))
    case SReal =>
      if pos + 8 > |p| || !IsFinite(NumberAt(p, pos, 8)) then None else Some((VReal(NumberAt(p, pos, 8)), pos + 8))
    case SId =>
      if 16 > |p| - pos then None else Some((VId(IdOfBytes(p[pos..pos + 16])), pos + 16))
    case SText =>
      var n := CountAt(p, pos);
      if n.None? then None else Some((VText(p[pos + 8..pos + 8 + n.value]), pos + 8 + n.value))
    case SThen(a, b) =>
      var head := Dec(a, p, pos);
      if head.None? then None else
        var tail := Dec(b, p, head.value.1);
        if tail.None? then None else Some((VThen(head.value.0, tail.value.0), tail.value.1))
    case SList(e) =>
      var n := CountAt(p, pos);
      if n.None? then None else
        var r := DecItems(e, n.value, p, pos + 8);
        if r.None? then None else Some((VList(r.value.0), r.value.1))
  }

  function DecItems(e: Shape, n: nat, p: seq<U8>, pos: nat): (r: Option<(seq<Val>, nat)>)
    requires pos <= |p|
    ensures r.Some? ==> pos <= r.value.1 <= |p|
    decreases e, n + 1
  {
    if n == 0 then Some(([], pos)) else
      var head := Dec(e, p, pos);
      if head.None? then None else
        var tail := DecItems(e, n - 1, p, head.value.1);
        if tail.None? then None else Some(([head.value.0] + tail.value.0, tail.value.1))
  }

  // ----- What fits together -----

  // `v` has the primitives that `s` demands, in the same order.
  ghost predicate Shaped(s: Shape, v: Val)
    decreases s, v, 0
  {
    match s
    case SChoice(size) => v.VCode? && v.code < size
    case SBool => v.VBool?
    case SWord => v.VWord?
    case SLong => v.VLong?
    case SReal => v.VReal?
    case SId => v.VId?
    case SText => v.VText?
    case SThen(a, b) => v.VThen? && Shaped(a, v.first) && Shaped(b, v.rest)
    case SList(e) => v.VList? && ShapedItems(e, v.elems)
  }

  ghost predicate ShapedItems(e: Shape, vs: seq<Val>)
    decreases e, vs, |vs|
  {
    vs == [] || (Shaped(e, vs[0]) && ShapedItems(e, vs[1..]))
  }

  // No NaN and no infinity where `s` has a floating-point number.
  ghost predicate Finite(s: Shape, v: Val)
    decreases s, v, 0
  {
    match s
    case SReal => v.VReal? ==> IsFinite(v.bits)
    case SThen(a, b) => v.VThen? ==> Finite(a, v.first) && Finite(b, v.rest)
    case SList(e) => v.VList? ==> FiniteItems(e, v.elems)
    case _ => true
  }

  ghost predicate FiniteItems(e: Shape, vs: seq<Val>)
    decreases e, vs, |vs|
  {
    vs == [] || (Finite(e, vs[0]) && FiniteItems(e, vs[1..]))
  }

  lemma {:induction false} ItemsByIndex(e: Shape, vs: seq<Val>)
    ensures ShapedItems(e, vs) <==> forall i :: 0 <= i < |vs| ==> Shaped(e, vs[i])
    ensures FiniteItems(e, vs) <==> forall i :: 0 <= i < |vs| ==> Finite(e, vs[i])
  {
    if vs != [] {
      ItemsByIndex(e, vs[1..]);
      assert forall i :: 1 <= i < |vs| ==> vs[i] == vs[1..][i - 1];
    }
  }

  ghost predicate At(p: seq<U8>, pos: nat, b: seq<U8>) {
    pos + |b| <= |p| && p[pos..pos + |b|] == b
  }

  lemma AtParts(p: seq<U8>, pos: nat, a: seq<U8>, b: seq<U8>)
    ensures At(p, pos, a + b) <==> At(p, pos, a) && At(p, pos + |a|, b)
  {
    if pos + |a| + |b| <= |p| {
      var w := p[pos..pos + |a| + |b|];
      assert w == p[pos..pos + |a|] + p[pos + |a|..pos + |a| + |b|];
      assert (a + b)[..|a|] == a && (a + b)[|a|..] == b;
      assert w[..|a|] == p[pos..pos + |a|] && w[|a|..] == p[pos + |a|..pos + |a| + |b|];
    }
  }

  lemma ThenParts(v: Val, p: seq<U8>, pos: nat)
    requires v.VThen?
    ensures |Enc(v)| == |Enc(v.first)| + |Enc(v.rest)|
    ensures At(p, pos, Enc(v)) <==> At(p, pos, Enc(v.first)) && At(p, pos + |Enc(v.first)|, Enc(v.rest))
  {
    AtParts(p, pos, Enc(v.first), Enc(v.rest));
  }

  lemma ListParts(v: Val, p: seq<U8>, pos: nat)
    requires v.VList?
    ensures |Enc(v)| == 8 + |EncAll(v.elems)|
    ensures At(p, pos, Enc(v)) <==> At(p, pos, LittleEndian(|v.elems|, 8)) && At(p, pos + 8, EncAll(v.elems))
  {
    AtParts(p, pos, LittleEndian(|v.elems|, 8), EncAll(v.elems));
  }

  lemma {:induction false} TakesSpace(v: Val)
    ensures |Enc(v)| >= 1
  {
    if v.VThen? { TakesSpace(v.first); }
  }

  // So a written count never exceeds the number of bytes after it.
  lemma {:induction false} ItemsTakeSpace(vs: seq<Val>)
    ensures |EncAll(vs)| >= |vs|
  {
    if vs != [] {
      TakesSpace(vs[0]);
      ItemsTakeSpace(vs[1..]);
    }
  }

  lemma NumberReads(p: seq<U8>, pos: nat, v: nat, n: nat)
    requires n <= 8 && v < Pow256(n) && At(p, pos, LittleEndian(v, n))
    ensures NumberAt(p, pos, n) == v
  {
    LittleEndianReads(v, n);
  }

  // ----- Reading what was written -----

  predicate IsScalar(s: Shape) {
    !s.SThen? && !s.SList?
  }

  lemma ReadAfterWriteScalar(s: Shape, v: Val, p: seq<U8>, pos: nat)
    requires IsScalar(s) && Shaped(s, v) && At(p, pos, Enc(v)) && |p| < U64_MOD
    ensures Dec(s, p, pos) == if Finite(s, v) then Some((v, pos + |Enc(v)|)) else None
  {
    Pow256Of8();
    match s
    case SChoice(size) => assert p[pos..pos + 1][0] == v.code;
    case SBool => assert p[pos..pos + 1][0] == if v.flag then 1 else 0;
    case SWord => NumberReads(p, pos, v.word, 4);
    case SLong => NumberReads(p, pos, v.long, 8);
    case SReal => NumberReads(p, pos, v.bits, 8);
    case SId => IdBytesInverse(v.id, IdBytes(v.id));
    case SText => ReadAfterWriteText(v.text, p, pos);
  }

  lemma ReadAfterWriteText(t: Text, p: seq<U8>, pos: nat)
    requires At(p, pos, Enc(VText(t))) && |p| < U64_MOD
    ensures Dec(SText, p, pos) == Some((VText(t), pos + |Enc(VText(t))|))
  {
    Pow256Of8();
    AtParts(p, pos, LittleEndian(|t|, 8), t);
    NumberReads(p, pos, |t|, 8);
  }

  lemma CountReads(n: nat, p: seq<U8>, pos: nat)
    requires At(p, pos, LittleEndian(n, 8)) && pos + 8 + n <= |p| < U64_MOD
    ensures CountAt(p, pos) == Some(n)
  {
    Pow256Of8();
    NumberReads(p, pos, n, 8);
  }

  lemma DecThen(s: Shape, v: Val, p: seq<U8>, pos: nat, mid: nat, end: nat)
    requires s.SThen? && v.VThen? && pos <= mid <= end <= |p|
    requires Dec(s.first, p, pos) == if Finite(s.first, v.first) then Some((v.first, mid)) else None
    requires Dec(s.rest, p, mid) == if Finite(s.rest, v.rest) then Some((v.rest, end)) else None
    ensures Dec(s, p, pos) == if Finite(s, v) then Some((v, end)) else None
  {
  }

  lemma DecList(s: Shape, v: Val, p: seq<U8>, pos: nat, end: nat)
    requires s.SList? && v.VList? && pos + 8 <= end <= |p| && CountAt(p, pos) == Some(|v.elems|)
    requires DecItems(s.elem, |v.elems|, p, pos + 8) == if FiniteItems(s.elem, v.elems) then Some((v.elems, end)) else None
    ensures Dec(s, p, pos) == if Finite(s, v) then Some((v, end)) else None
  {
  }

  // A value written by the Writer is read back exactly, unless it holds a NaN or an infinity, which
  // the Reader refuses. The bytes before and after it do not matter.
  lemma {:induction false} ReadAfterWrite(s: Shape, v: Val, p: seq<U8>, pos: nat)
    requires Shaped(s, v) && At(p, pos, Enc(v)) && |p| < U64_MOD
    ensures Dec(s, p, pos) == if Finite(s, v) then Some((v, pos + |Enc(v)|)) else None
    decreases s, 1
  {
    match s
    case SThen(_, _) => ReadAfterWriteThen(s, v, p, pos);
    case SList(_) => ReadAfterWriteList(s, v, p, pos);
    case _ => ReadAfterWriteScalar(s, v, p, pos);
  }

  lemma {:induction false} ReadAfterWriteThen(s: Shape, v: Val, p: seq<U8>, pos: nat)
    requires s.SThen? && Shaped(s, v) && At(p, pos, Enc(v)) && |p| < U64_MOD
    ensures Dec(s, p, pos) == if Finite(s, v) then Some((v, pos + |Enc(v)|)) else None
    decreases s, 0
  {
    var (mid, end) := (pos + |Enc(v.first)|, pos + |Enc(v)|);
    ThenParts(v, p, pos);
    assert end == mid + |Enc(v.rest)| <= |p|;
    ReadAfterWrite(s.first, v.first, p, pos);
    ReadAfterWrite(s.rest, v.rest, p, mid);
    DecThen(s, v, p, pos, mid, end);
  }

  lemma {:induction false} ReadAfterWriteList(s: Shape, v: Val, p: seq<U8>, pos: nat)
    requires s.SList? && Shaped(s, v) && At(p, pos, Enc(v)) && |p| < U64_MOD
    ensures Dec(s, p, pos) == if Finite(s, v) then Some((v, pos + |Enc(v)|)) else None
    decreases s, 0
  {
    ListParts(v, p, pos);
    assert CountAt(p, pos) == Some(|v.elems|) by {
      ItemsTakeSpace(v.elems);
      CountReads(|v.elems|, p, pos);
    }
    ReadAfterWriteItems(s.elem, v.elems, p, pos + 8);
    DecList(s, v, p, pos, pos + |Enc(v)|);
  }

  lemma {:induction false} ReadAfterWriteItems(e: Shape, vs: seq<Val>, p: seq<U8>, pos: nat)
    requires |p| < U64_MOD && At(p, pos, EncAll(vs))
    requires ShapedItems(e, vs)
    ensures DecItems(e, |vs|, p, pos) == if FiniteItems(e, vs) then Some((vs, pos + |EncAll(vs)|)) else None
    decreases e, |vs| + 2
  {
    if vs != [] {
      var (v, rest) := (vs[0], vs[1..]);
      AtParts(p, pos, Enc(v), EncAll(rest));
      ReadAfterWrite(e, v, p, pos);
      ReadAfterWriteItems(e, rest, p, pos + |Enc(v)|);
      assert vs == [v] + rest;
    }
  }

  // ----- Writing what was read -----

  lemma WriteAfterReadText(p: seq<U8>, pos: nat)
    requires pos <= |p| && Dec(SText, p, pos).Some?
    ensures var (v, end) := Dec(SText, p, pos).value;
            v.VText? && At(p, pos, Enc(v)) && end == pos + |Enc(v)|
  {
    var t := Dec(SText, p, pos).value.0.text;
    LittleEndianWrites(p[pos..pos + 8]);
    AtParts(p, pos, LittleEndian(|t|, 8), t);
  }

  lemma WriteAfterReadScalar(s: Shape, p: seq<U8>, pos: nat)
    requires IsScalar(s) && pos <= |p| && Dec(s, p, pos).Some?
    ensures var (v, end) := Dec(s, p, pos).value;
            Shaped(s, v) && Finite(s, v) && At(p, pos, Enc(v)) && end == pos + |Enc(v)|
  {
    var (v, end) := Dec(s, p, pos).value;
    match s
    case SChoice(size) => assert p[pos..pos + 1] == [p[pos]];
    case SBool => assert p[pos..pos + 1] == [p[pos]];
    case SWord => LittleEndianWrites(p[pos..pos + 4]);
    case SLong => LittleEndianWrites(p[pos..pos + 8]);
    case SReal => LittleEndianWrites(p[pos..pos + 8]);
    case SId => IdBytesInverse(v.id, p[pos..pos + 16]);
    case SText => WriteAfterReadText(p, pos);
  }

  // Whatever the Reader accepts is exactly what the Writer would have written.
  lemma {:induction false} WriteAfterRead(s: Shape, p: seq<U8>, pos: nat)
    requires pos <= |p| && Dec(s, p, pos).Some?
    ensures var (v, end) := Dec(s, p, pos).value;
            Shaped(s, v) && Finite(s, v) && At(p, pos, Enc(v)) && end == pos + |Enc(v)|
    decreases s, 1
  {
    match s
    case SThen(_, _) => WriteAfterReadThen(s, p, pos);
    case SList(_) => WriteAfterReadList(s, p, pos);
    case _ => WriteAfterReadScalar(s, p, pos);
  }

  lemma {:induction false} WriteAfterReadThen(s: Shape, p: seq<U8>, pos: nat)
    requires s.SThen? && pos <= |p| && Dec(s, p, pos).Some?
    ensures var (v, end) := Dec(s, p, pos).value;
            Shaped(s, v) && Finite(s, v) && At(p, pos, Enc(v)) && end == pos + |Enc(v)|
    decreases s, 0
  {
    WriteAfterRead(s.first, p, pos);
    WriteAfterRead(s.rest, p, Dec(s.first, p, pos).value.1);
    ThenParts(Dec(s, p, pos).value.0, p, pos);
  }

  lemma {:induction false} WriteAfterReadList(s: Shape, p: seq<U8>, pos: nat)
    requires s.SList? && pos <= |p| && Dec(s, p, pos).Some?
    ensures var (v, end) := Dec(s, p, pos).value;
            Shaped(s, v) && Finite(s, v) && At(p, pos, Enc(v)) && end == pos + |Enc(v)|
    decreases s, 0
  {
    LittleEndianWrites(p[pos..pos + 8]);
    WriteAfterReadItems(s.elem, CountAt(p, pos).value, p, pos + 8);
    ListParts(Dec(s, p, pos).value.0, p, pos);
  }

  lemma {:induction false} WriteAfterReadItems(e: Shape, n: nat, p: seq<U8>, pos: nat)
    requires pos <= |p| && DecItems(e, n, p, pos).Some?
    ensures var (vs, end) := DecItems(e, n, p, pos).value;
            && |vs| == n && ShapedItems(e, vs) && FiniteItems(e, vs)
            && At(p, pos, EncAll(vs)) && end == pos + |EncAll(vs)|
    decreases e, n + 2
  {
    if n != 0 {
      var (v, mid) := Dec(e, p, pos).value;
      var (vs, end) := DecItems(e, n - 1, p, mid).value;
      WriteAfterRead(e, p, pos);
      WriteAfterReadItems(e, n - 1, p, mid);
      AtParts(p, pos, Enc(v), EncAll(vs));
      EncAllCons(v, vs);
      assert ([v] + vs)[1..] == vs;
    }
  }

  lemma EncAllCons(v: Val, vs: seq<Val>)
    ensures EncAll([v] + vs) == Enc(v) + EncAll(vs)
  {
    assert ([v] + vs)[0] == v && ([v] + vs)[1..] == vs;
  }

  // A shape is read from one place in at most one way, and no encoding is a proper prefix of another.
  lemma PrefixFree(s: Shape, v: Val, w: Val, p: seq<U8>)
    requires Shaped(s, v) && Shaped(s, w) && Finite(s, v) && Finite(s, w)
    requires |p| < U64_MOD && At(p, 0, Enc(v)) && At(p, 0, Enc(w))
    ensures v == w
  {
    ReadAfterWrite(s, v, p, 0);
    ReadAfterWrite(s, w, p, 0);
  }

  // ----- The mutable buffer and cursor -----

  lemma {:induction false} EncAllAppend(vs: seq<Val>, v: Val)
    ensures EncAll(vs + [v]) == EncAll(vs) + Enc(v)
  {
    if vs == [] {
      assert vs + [v] == [v] && EncAll([v][1..]) == [];
    } else {
      assert (vs + [v])[1..] == vs[1..] + [v];
      EncAllAppend(vs[1..], v);
    }
  }

  lemma AppendAssoc(a: seq<U8>, b: seq<U8>, c: seq<U8>)
    ensures a + b + c == a + (b + c)
  {
  }

  class Writer {
    var b: seq<U8>

    constructor ()
      ensures b == []
    {
      b := [];
    }

    method PutByte(v: U8)
      modifies this
      ensures b == old(b) + [v]
    {
      b := b + [v];
    }

    // The loops of u32 and u64.
    method PutNumber(v: nat, n: nat)
      modifies this
      ensures b == old(b) + LittleEndian(v, n)
    {
      var rest := v;
      for i := 0 to n
        invariant b + LittleEndian(rest, n - i) == old(b) + LittleEndian(v, n)
      {
        Reassociate<U8>(b, rest % 256, LittleEndian(rest / 256, n - i - 1));
        b := b + [rest % 256];
        rest := rest / 256;
      }
    }

    method PutBytes(p: seq<U8>)
      modifies this
      ensures b == old(b) + p
    {
      b := b + p;
    }

    // The length as a 64-bit number, then the bytes.
    method PutText(t: Text)
      modifies this
      ensures b == old(b) + (LittleEndian(|t|, 8) + t)
    {
      AppendAssoc(b, LittleEndian(|t|, 8), t);
      PutNumber(|t|, 8);
      PutBytes(t);
    }

    method Put(v: Val)
      modifies this
      ensures b == old(b) + Enc(v)
      decreases v
    {
      match v
      case VCode(c) => PutByte(c);
      case VBool(flag) => PutByte(if flag then 1 else 0);
      case VWord(w) => PutNumber(w, 4);
      case VLong(n) => PutNumber(n, 8);
      case VReal(bits) => PutNumber(bits, 8);
      case VId(id) => PutBytes(IdBytes(id));
      case VText(t) => PutText(t);
      case VThen(first, rest) =>
        AppendAssoc(b, Enc(first), Enc(rest));
        Put(first);
        Put(rest);
      case VList(vs) =>
        AppendAssoc(b, LittleEndian(|vs|, 8), EncAll(vs));
        PutNumber(|vs|, 8);
        PutAll(vs);
    }

    method PutAll(vs: seq<Val>)
      modifies this
      ensures b == old(b) + EncAll(vs)
      decreases vs
    {
      for i := 0 to |vs|
        invariant b == old(b) + EncAll(vs[..i])
      {
        EncAllAppend(vs[..i], vs[i]);
        assert vs[..i + 1] == vs[..i] + [vs[i]];
        Put(vs[i]);
      }
      assert vs[..|vs|] == vs;
    }
  }

  lemma {:induction false} ValueAppend(b: seq<U8>, x: U8)
    ensures LittleEndianValue(b + [x]) == LittleEndianValue(b) + x * Pow256(|b|)
  {
    if b == [] {
      assert b + [x] == [x] && LittleEndianValue([x][1..]) == 0;
    } else {
      assert (b + [x])[1..] == b[1..] + [x];
      ValueAppend(b[1..], x);
      assert 256 * (x * Pow256(|b| - 1)) == x * Pow256(|b|);
    }
  }

  class Reader {
    const p: seq<U8>
    var pos: nat

    ghost predicate Valid()
      reads this
    {
      pos <= |p|
    }

    constructor (bytes: seq<U8>)
      ensures Valid() && p == bytes && pos == 0
    {
      p := bytes;
      pos := 0;
    }

    method GetByte() returns (ok: bool, v: U8)
      requires Valid()
      modifies this
      ensures Valid() && ok == (old(pos) + 1 <= |p|)
      ensures ok ==> v == p[old(pos)] && pos == old(pos) + 1
    {
      if pos + 1 > |p| { return false, 0; }
      ok, v := true, p[pos];
      pos := pos + 1;
    }

    // The loops of u32 and u64.
    method GetNumber(n: nat) returns (ok: bool, v: nat)
      requires Valid() && n <= 8
      modifies this
      ensures Valid() && ok == (old(pos) + n <= |p|)
      ensures ok ==> v == NumberAt(p, old(pos), n) && pos == old(pos) + n
    {
      if pos + n > |p| { return false, 0; }
      v := 0;
      var scale := 1;
      for i := 0 to n
        invariant pos == old(pos)
        invariant scale == Pow256(i) && v == LittleEndianValue(p[pos..pos + i])
      {
        ValueAppend(p[pos..pos + i], p[pos + i]);
        assert p[pos..pos + i + 1] == p[pos..pos + i] + [p[pos + i]];
        var digit: nat := p[pos + i];
        v := v + digit * scale;
        scale := 256 * scale;
      }
      ok := true;
      pos := pos + n;
    }

    method GetBytes(n: nat) returns (ok: bool, b: seq<U8>)
      requires Valid()
      modifies this
      ensures Valid() && ok == (n <= |p| - old(pos))
      ensures ok ==> b == p[old(pos)..old(pos) + n] && pos == old(pos) + n
    {
      if n > |p| - pos { return false, []; }
      ok, b := true, p[pos..pos + n];
      pos := pos + n;
    }

    method GetId() returns (ok: bool, id: Id)
      requires Valid()
      modifies this
      ensures Valid() && ok == (16 <= |p| - old(pos))
      ensures ok ==> id == IdOfBytes(p[old(pos)..old(pos) + 16]) && pos == old(pos) + 16
    {
      var b;
      ok, b := GetBytes(16);
      if !ok { return false, NULL_ID; }
      id := FromBytes(b);
    }

    // A 64-bit count no larger than what remains.
    method GetCount() returns (ok: bool, n: nat)
      requires Valid()
      modifies this
      ensures Valid() && ok == CountAt(p, old(pos)).Some?
      ensures ok ==> n == CountAt(p, old(pos)).value && pos == old(pos) + 8
    {
      ok, n := GetNumber(8);
      ok := ok && n <= |p| - pos;
    }

    method GetText() returns (ok: bool, t: Text)
      requires Valid()
      modifies this
      ensures Valid() && ok == Dec(SText, p, old(pos)).Some?
      ensures ok ==> (VText(t), pos) == Dec(SText, p, old(pos)).value
    {
      var n;
      ok, n := GetCount();
      if !ok { return false, []; }
      t := p[pos..pos + n];
      pos := pos + n;
    }

    method Get(s: Shape) returns (ok: bool, v: Val)
      requires Valid()
      modifies this
      ensures Valid() && ok == Dec(s, p, old(pos)).Some?
      ensures ok ==> (v, pos) == Dec(s, p, old(pos)).value
      decreases s, 0
    {
      v := VCode(0);
      match s
      case SChoice(size) =>
        var c;
        ok, c := GetByte();
        ok := ok && c < size;
        v := VCode(c);
      case SBool =>
        var c;
        ok, c := GetByte();
        ok := ok && c <= 1;
        v := VBool(c == 1);
      case SWord =>
        var n;
        ok, n := GetNumber(4);
        Pow256Of8();
        if ok { v := VWord(n); }
      case SLong =>
        var n;
        ok, n := GetNumber(8);
        if ok { v := VLong(n); }
      case SReal =>
        var n;
        ok, n := GetNumber(8);
        if ok {
          ok := IsFinite(n);
          v := VReal(n);
        }
      case SId =>
        var id;
        ok, id := GetId();
        v := VId(id);
      case SText =>
        var t;
        ok, t := GetText();
        v := VText(t);
      case SThen(first, rest) =>
        var a, b;
        ok, a := Get(first);
        if ok {
          ok, b := Get(rest);
          v := VThen(a, b);
        }
      case SList(e) =>
        var n;
        ok, n := GetCount();
        if ok {
          var vs;
          ok, vs := GetItems(e, n);
          v := VList(vs);
        }
    }

    // The reader's counted loops.
    method GetItems(e: Shape, n: nat) returns (ok: bool, vs: seq<Val>)
      requires Valid()
      modifies this
      ensures Valid() && ok == DecItems(e, n, p, old(pos)).Some?
      ensures ok ==> (vs, pos) == DecItems(e, n, p, old(pos)).value
      decreases e, n + 1
    {
      vs := [];
      JoinedNothing(DecItems(e, n, p, pos));
      for i := 0 to n
        invariant Valid() && Joined(vs, DecItems(e, n - i, p, pos)) == DecItems(e, n, p, old(pos))
      {
        var v;
        JoinedNext(vs, e, n - i, p, pos);
        ok, v := Get(e);
        if !ok { return false, []; }
        vs := vs + [v];
      }
      ok := true;
      assert vs + [] == vs;
    }
  }

  ghost function Joined(vs: seq<Val>, r: Option<(seq<Val>, nat)>): Option<(seq<Val>, nat)> {
    if r.None? then None else Some((vs + r.value.0, r.value.1))
  }

  lemma JoinedNothing(r: Option<(seq<Val>, nat)>)
    ensures Joined([], r) == r
  {
    if r.Some? { assert [] + r.value.0 == r.value.0; }
  }

  lemma JoinedNext(vs: seq<Val>, e: Shape, n: nat, p: seq<U8>, pos: nat)
    requires n > 0 && pos <= |p|
    ensures Dec(e, p, pos).None? ==> Joined(vs, DecItems(e, n, p, pos)) == None
    ensures Dec(e, p, pos).Some? ==>
              var (v, mid) := Dec(e, p, pos).value;
              Joined(vs, DecItems(e, n, p, pos)) == Joined(vs + [v], DecItems(e, n - 1, p, mid))
  {
    if Dec(e, p, pos).Some? {
      var (v, mid) := Dec(e, p, pos).value;
      var tail := DecItems(e, n - 1, p, mid);
      if tail.Some? { Reassociate(vs, v, tail.value.0); }
    }
  }
}
