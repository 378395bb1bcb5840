// 128-bit identities (include/replicafabric/core/identity.hpp).
module Identity {
  import opened Base

  datatype Id = Id(hi: U64, lo: U64) {
    predicate IsNull() {
      hi == 0 && lo == 0
    }

    predicate Less(other: Id) {
      if hi != other.hi then hi < other.hi else lo < other.lo
    }
  }

  const NULL_ID: Id := Id(0, 0)

  type ReplicaId = Id
  type ReplicaSetId = Id
  type WorkerId = Id
  type WorkerBootId = Id
  type Generation = Id
  type Epoch = Id

  // ----- Id::to_bytes and Id::from_bytes -----

  // The `n` least significant base-256 digits of `v`, most significant first.
  function BigEndian(v: nat, n: nat): (b: seq<U8>)
    ensures |b| == n
  {
    if n == 0 then [] else BigEndian(v / 256, n - 1) + [v % 256]
  }

  function BigEndianValue(b: seq<U8>): nat {
    if b == [] then 0 else BigEndianValue(b[..|b| - 1]) * 256 + b[|b| - 1]
  }

  lemma {:induction false} BigEndianValueOfDigits(v: nat, n: nat)
    requires v < Pow256(n)
    ensures BigEndianValue(BigEndian(v, n)) == v
  {
    if n > 0 {
      BigEndianValueOfDigits(v / 256, n - 1);
      var b := BigEndian(v, n);
      assert b[..|b| - 1] == BigEndian(v / 256, n - 1);
    }
  }

  lemma {:induction false} BigEndianDigitsOfValue(b: seq<U8>)
    ensures BigEndianValue(b) < Pow256(|b|)
    ensures BigEndian(BigEndianValue(b), |b|) == b
  {
    if b != [] {
      BigEndianDigitsOfValue(b[..|b| - 1]);
    }
  }

  // The loop of `from_bytes` and the shifts of `to_bytes`, eight bytes at a time.
  method ParseBytes(b: seq<U8>) returns (v: nat)
    ensures v == BigEndianValue(b)
  {
    v := 0;
    for i := 0 to |b|
      invariant v == BigEndianValue(b[..i])
    {
      assert b[..i + 1][..i] == b[..i];
      v := v * 256 + b[i];
    }
    assert b[..|b|] == b;
  }

  function IdBytes(id: Id): (b: seq<U8>)
    ensures |b| == 16
  {
    BigEndian(id.hi, 8) + BigEndian(id.lo, 8)
  }

  function IdOfBytes(b: seq<U8>): Id
    requires |b| == 16
  {
    BigEndianDigitsOfValue(b[..8]); BigEndianDigitsOfValue(b[8..]); Pow256Of8();
    Id(BigEndianValue(b[..8]), BigEndianValue(b[8..]))
  }

  method FromBytes(b: seq<U8>) returns (id: Id)
    requires |b| == 16
    ensures id == IdOfBytes(b)
    ensures IdBytes(id) == b
  {
    BigEndianDigitsOfValue(b[..8]); BigEndianDigitsOfValue(b[8..]); Pow256Of8();
    var hi := ParseBytes(b[..8]);
    var lo := ParseBytes(b[8..]);
    id := Id(hi, lo);
    assert b == b[..8] + b[8..];
  }

  // Both directions of the 16-byte form.
  lemma IdBytesInverse(id: Id, b: seq<U8>)
    requires |b| == 16
    ensures IdOfBytes(IdBytes(id)) == id
    ensures IdBytes(IdOfBytes(b)) == b
  {
    Pow256Of8();
    BigEndianValueOfDigits(id.hi, 8);
    BigEndianValueOfDigits(id.lo, 8);
    assert IdBytes(id)[..8] == BigEndian(id.hi, 8) && IdBytes(id)[8..] == BigEndian(id.lo, 8);
    BigEndianDigitsOfValue(b[..8]);
    BigEndianDigitsOfValue(b[8..]);
    assert b == b[..8] + b[8..];
  }

  // ----- Id::str and the order of its strings -----

  // std::string's operator<: bytewise lexicographic order.
  predicate TextLess(a: Text, b: Text) {
    if b == [] then false
    else if a == [] then true
    else if a[0] != b[0] then a[0] < b[0]
    else TextLess(a[1..], b[1..])
  }

  // '0'..'9', 'a'..'f'
  function HexDigit(d: nat): (c: U8)
    requires d < 16
    ensures 48 <= c < 103
  {
    if d < 10 then 48 + d else 87 + d
  }

  // `n` lowercase hexadecimal digits of `v`, most significant first (detail::write_hex).
  function Hex(v: nat, n: nat): (t: Text)
    ensures |t| == n
  {
    if n == 0 then [] else Hex(v / 16, n - 1) + [HexDigit(v % 16)]
  }

  function IdText(id: Id): (t: Text)
    ensures |t| == 32
  {
    Hex(id.hi, 16) + Hex(id.lo, 16)
  }

  function Pow16(n: nat): (p: nat)
    ensures p > 0
  {
    if n == 0 then 1 else 16 * Pow16(n - 1)
  }

  lemma {:induction false} TextLessAppend(a: Text, b: Text, x: Text, y: Text)
    requires |a| == |b|
    ensures TextLess(a + x, b + y) == if a == b then TextLess(x, y) else TextLess(a, b)
  {
    if a == [] {
      assert a + x == x && b + y == y;
    } else {
      assert (a + x)[1..] == a[1..] + x && (b + y)[1..] == b[1..] + y;
      assert a == [a[0]] + a[1..] && b == [b[0]] + b[1..];
      TextLessAppend(a[1..], b[1..], x, y);
    }
  }

  // Fixed-width hexadecimal strings compare as the numbers they denote.
  lemma {:induction false} HexOrder(v: nat, w: nat, n: nat)
    requires v < Pow16(n) && w < Pow16(n)
    ensures Hex(v, n) == Hex(w, n) <==> v == w
    ensures TextLess(Hex(v, n), Hex(w, n)) <==> v < w
  {
    if n > 0 {
      HexOrder(v / 16, w / 16, n - 1);
      var (a, b) := (Hex(v / 16, n - 1), Hex(w / 16, n - 1));
      var (x, y) := ([HexDigit(v % 16)], [HexDigit(w % 16)]);
      TextLessAppend(a, b, x, y);
      assert TextLess(x, y) <==> v % 16 < w % 16;
      assert Hex(v, n)[..n - 1] == a && Hex(w, n)[..n - 1] == b;
      assert Hex(v, n)[n - 1] == x[0] && Hex(w, n)[n - 1] == y[0];
    }
  }

  lemma Pow16Of16()
    ensures Pow16(16) == U64_MOD
  {
    assert Pow16(4) == 0x1_0000;
    assert Pow16(8) == 0x1_0000_0000;
    assert Pow16(12) == 0x1_0000_0000_0000;
  }

  // The canonical strings of two identities compare exactly as `Id::operator<` does,
  // and are equal only for equal identities.
  lemma IdTextOrder(a: Id, b: Id)
    ensures IdText(a) == IdText(b) <==> a == b
    ensures TextLess(IdText(a), IdText(b)) <==> a.Less(b)
  {
    Pow16Of16();
    HexOrder(a.hi, b.hi, 16);
    HexOrder(a.lo, b.lo, 16);
    TextLessAppend(Hex(a.hi, 16), Hex(b.hi, 16), Hex(a.lo, 16), Hex(b.lo, 16));
    assert IdText(a)[..16] == Hex(a.hi, 16) && IdText(a)[16..] == Hex(a.lo, 16);
    assert IdText(b)[..16] == Hex(b.hi, 16) && IdText(b)[16..] == Hex(b.lo, 16);
  }

  // ----- Enumerating a key set in ascending order, as std::map does -----

  ghost predicate Ascending(ids: seq<Id>) {
    forall i, j :: 0 <= i < j < |ids| ==> ids[i].Less(ids[j])
  }

  lemma LeastExists(keys: set<Id>)
    requires keys != {}
    ensures exists m :: m in keys && forall k :: k in keys && k != m ==> m.Less(k)
  {
    var x :| x in keys;
    var rest := keys - {x};
    assert keys == {x} + rest;
    if rest != {} {
      LeastExists(rest);
      var m :| m in rest && forall k :: k in rest && k != m ==> m.Less(k);
      var least := if x.Less(m) then x else m;
      forall k | k in keys && k != least ensures least.Less(k) {
        if k != x { assert k in rest; }
      }
      assert least in keys;
    }
  }

  ghost function Least(keys: set<Id>): (m: Id)
    requires keys != {}
    ensures m in keys && forall k :: k in keys && k != m ==> m.Less(k)
  {
    LeastExists(keys);
    var m :| m in keys && forall k :: k in keys && k != m ==> m.Less(k);
    m
  }

  ghost function Ordered(keys: set<Id>): (ids: seq<Id>)
    ensures Ascending(ids)
    ensures forall k :: k in keys <==> k in ids
    ensures |ids| == |keys|
  {
    if keys == {} then [] else
      var m := Least(keys);
      var rest := Ordered(keys - {m});
      assert forall i :: 0 <= i < |rest| ==> rest[i] in rest;
      [m] + rest
  }

  lemma LeastComesFirst(keys: set<Id>, ids: seq<Id>)
    requires Ascending(ids) && keys != {}
    requires forall k :: k in keys <==> k in ids
    ensures |ids| > 0 && ids[0] == Least(keys)
    ensures forall k :: k in keys - {ids[0]} <==> k in ids[1..]
  {
    var m := Least(keys);
    var i :| 0 <= i < |ids| && ids[i] == m;
    assert ids[0] in keys;
    assert ids[0] == m || m.Less(ids[0]);
    assert forall j :: 0 < j < |ids| ==> ids[0].Less(ids[j]);
    forall k ensures k in keys - {ids[0]} <==> k in ids[1..] {
      if k in ids[1..] {
        var j :| 1 <= j < |ids| && ids[j] == k;
        assert ids[0].Less(ids[j]);
      }
      if k in keys - {ids[0]} {
        var j :| 0 <= j < |ids| && ids[j] == k;
        assert ids[1..][j - 1] == k;
      }
    }
  }

  // There is only one ascending enumeration of a key set.
  lemma {:induction false} OrderedIsUnique(keys: set<Id>, ids: seq<Id>)
    requires Ascending(ids)
    requires forall k :: k in keys <==> k in ids
    ensures ids == Ordered(keys)
    decreases |ids|
  {
    if |ids| == 0 {
      assert keys == {};
    } else {
      assert ids[0] in keys;
      LeastComesFirst(keys, ids);
      var rest := ids[1..];
      assert Ascending(rest) by {
        forall i, j | 0 <= i < j < |rest| ensures rest[i].Less(rest[j]) {
          assert ids[i + 1].Less(ids[j + 1]);
        }
      }
      OrderedIsUnique(keys - {ids[0]}, rest);
      assert Ordered(keys) == [ids[0]] + Ordered(keys - {ids[0]});
    }
  }

  // The least of a non-empty key set.
  method LeastKey(keys: set<Id>) returns (m: Id)
    requires keys != {}
    ensures m == Least(keys)
  {
    m :| m in keys;
    var todo := keys - {m};
    while todo != {}
      invariant m in keys && todo <= keys
      invariant forall k :: k in keys && k !in todo && k != m ==> m.Less(k)
    {
      var k :| k in todo;
      todo := todo - {k};
      if k.Less(m) { m := k; }
    }
  }

  lemma Reassociate<T>(a: seq<T>, x: T, b: seq<T>)
    ensures a + ([x] + b) == (a + [x]) + b
  {
  }

  // Collects the keys of a map in ascending order.
  method SortedKeys(keys: set<Id>) returns (ids: seq<Id>)
    ensures ids == Ordered(keys)
  {
    ids := [];
    var todo := keys;
    while todo != {}
      invariant ids + Ordered(todo) == Ordered(keys)
    {
      var m := LeastKey(todo);
      Reassociate(ids, m, Ordered(todo - {m}));
      ids := ids + [m];
      todo := todo - {m};
    }
  }

  // ----- Tables of records -----

  ghost predicate Distinct<V>(key: V -> Id, xs: seq<V>) {
    forall i, j :: 0 <= i < j < |xs| ==> key(xs[i]) != key(xs[j])
  }

  // Enters the records one after another, as std::map::emplace does: the first of an identity stays.
  function Table<V>(key: V -> Id, xs: seq<V>): map<Id, V> {
    if xs == [] then map[] else
      var front := Table(key, xs[..|xs| - 1]);
      var x := xs[|xs| - 1];
      if key(x) in front then front else front[key(x) := x]
  }

  lemma {:induction false} TableKeys<V>(key: V -> Id, xs: seq<V>, k: Id)
    ensures k in Table(key, xs) <==> exists i :: 0 <= i < |xs| && key(xs[i]) == k
  {
    if xs != [] {
      var front := xs[..|xs| - 1];
      TableKeys(key, front, k);
      assert forall i :: 0 <= i < |front| ==> front[i] == xs[i];
    }
  }

  function Values<V>(m: map<Id, V>, ids: seq<Id>): (xs: seq<V>)
    requires forall i :: 0 <= i < |ids| ==> ids[i] in m
    ensures |xs| == |ids| && forall i :: 0 <= i < |ids| ==> xs[i] == m[ids[i]]
  {
    seq(|ids|, i requires 0 <= i < |ids| => m[ids[i]])
  }

  lemma OrderedAreKeys<V>(m: map<Id, V>)
    ensures forall i :: 0 <= i < |Ordered(m.Keys)| ==> Ordered(m.Keys)[i] in m
  {
    var ids := Ordered(m.Keys);
    forall i | 0 <= i < |ids| ensures ids[i] in m { assert ids[i] in ids; }
  }

  // The values of a map in ascending order of their keys.
  ghost function InOrder<V>(m: map<Id, V>): (xs: seq<V>)
    ensures |xs| == |Ordered(m.Keys)|
    ensures forall i :: 0 <= i < |xs| ==> Ordered(m.Keys)[i] in m && xs[i] == m[Ordered(m.Keys)[i]]
  {
    OrderedAreKeys(m);
    Values(m, Ordered(m.Keys))
  }

  lemma {:induction false} TableOfValues<V>(key: V -> Id, m: map<Id, V>, ids: seq<Id>)
    requires Ascending(ids) && forall i :: 0 <= i < |ids| ==> ids[i] in m && key(m[ids[i]]) == ids[i]
    ensures Table(key, Values(m, ids)) == map k | k in ids :: m[k]
  {
    var xs := Values(m, ids);
    if ids != [] {
      var n := |ids| - 1;
      TableOfValues(key, m, ids[..n]);
      assert xs[..n] == Values(m, ids[..n]);
      assert ids[n] !in ids[..n] by {
        forall i | 0 <= i < n ensures ids[i] != ids[n] { assert ids[i].Less(ids[n]); }
      }
      assert ids == ids[..n] + [ids[n]];
    }
  }

  // The table of a map's values, in ascending order of their keys, is the map.
  lemma TableOfMap<V>(key: V -> Id, m: map<Id, V>)
    requires forall k :: k in m ==> key(m[k]) == k
    ensures Distinct(key, InOrder(m)) && Table(key, InOrder(m)) == m
  {
    var ids := Ordered(m.Keys);
    OrderedAreKeys(m);
    TableOfValues(key, m, ids);
    forall i, j | 0 <= i < j < |ids| ensures key(m[ids[i]]) != key(m[ids[j]]) { assert ids[i].Less(ids[j]); }
  }

  // The place of a key in the ascending enumeration of a map.
  lemma PlaceOf<V>(m: map<Id, V>, k: Id) returns (i: nat)
    requires k in m
    ensures i < |InOrder(m)| && InOrder(m)[i] == m[k]
  {
    assert k in Ordered(m.Keys);
    i :| 0 <= i < |Ordered(m.Keys)| && Ordered(m.Keys)[i] == k;
  }
}
