// Checkpoint files: make_snapshot, decode_snapshot and what they promise each other
// (src/snapshot.cpp:353-452).
module Snapshot {
  import opened Base
  import opened Identity
  import opened Records
  import opened Wire
  import opened Layout
  import opened BodyLayout
  import opened Crc
  import opened ControllerModel
  import opened Controller

  const MAGIC: seq<U8> := [82, 70, 83, 78, 65, 80, 48, 49] // "RFSNAP01"
  const FORMAT_VERSION: U32 := 1
  const SCHEMA_VERSION: U32 := 1

  // ----- The frame: magic, versions, length, body, checksum -----

  function Header(bodyLength: nat): (b: seq<U8>)
    ensures |b| == 24
  {
    MAGIC + LittleEndian(FORMAT_VERSION, 4) + LittleEndian(SCHEMA_VERSION, 4) + LittleEndian(bodyLength, 8)
  }

  function FileOf(body: seq<U8>): seq<U8> {
    var framed := Header(|body|) + body;
    framed + LittleEndian(Crc64(framed), 8)
  }

  // Lines 400-410.
  predicate HeaderAccepted(p: seq<U8>) {
    |p| >= 32 && p[..8] == MAGIC && NumberAt(p, 8, 4) == FORMAT_VERSION && NumberAt(p, 12, 4) == SCHEMA_VERSION
  }

  // Where the body of the stated length ends, as an unsigned addition that wraps around.
  function BodyEnd(bodyLength: nat): nat {
    (24 + bodyLength) % U64_MOD
  }

  // Lines 411-416.
  predicate LengthAccepted(p: seq<U8>)
    requires |p| >= 32
  {
    BodyEnd(NumberAt(p, 16, 8)) <= |p| && |p| - BodyEnd(NumberAt(p, 16, 8)) == 8
  }

  // Lines 417-419.
  predicate ChecksumAccepted(p: seq<U8>)
    requires |p| >= 32
  {
    Crc64(p[..|p| - 8]) == NumberAt(p, |p| - 8, 8)
  }

  // The body of a file that passes every check of its frame.
  function Unframe(p: seq<U8>): (body: Option<seq<U8>>) {
    if HeaderAccepted(p) && LengthAccepted(p) && ChecksumAccepted(p)
    then Some(p[24..BodyEnd(NumberAt(p, 16, 8))])
    else None
  }

  // The sum that wraps around never matters: an accepted length is exact.
  lemma LengthIsExact(p: seq<U8>)
    requires |p| >= 32
    ensures LengthAccepted(p) <==> |p| == 32 + NumberAt(p, 16, 8) && |p| < U64_MOD + 8
    ensures LengthAccepted(p) ==> BodyEnd(NumberAt(p, 16, 8)) == |p| - 8
  {
    NoWrap(NumberAt(p, 16, 8), |p|);
  }

  lemma NoWrap(bodyLength: nat, size: nat)
    requires size >= 32 && bodyLength < U64_MOD
    ensures BodyEnd(bodyLength) + 8 == size <==> size == 32 + bodyLength && size < U64_MOD + 8
  {
  }

  lemma HeaderParts(n: nat, p: seq<U8>)
    requires |p| >= 24
    ensures p[..24] == Header(n) <==>
            p[..8] == MAGIC && At(p, 8, LittleEndian(FORMAT_VERSION, 4)) &&
            At(p, 12, LittleEndian(SCHEMA_VERSION, 4)) && At(p, 16, LittleEndian(n, 8))
  {
    var (v, s, l) := (LittleEndian(FORMAT_VERSION, 4), LittleEndian(SCHEMA_VERSION, 4), LittleEndian(n, 8));
    AtParts(p, 0, MAGIC + v + s, l);
    AtParts(p, 0, MAGIC + v, s);
    AtParts(p, 0, MAGIC, v);
    assert p[0..24] == p[..24] && p[0..8] == p[..8];
  }

  // A number stands at a place exactly when its digits do.
  lemma NumberIsDigits(p: seq<U8>, pos: nat, n: nat, v: nat)
    requires n <= 8 && pos + n <= |p| && v < Pow256(n)
    ensures NumberAt(p, pos, n) == v <==> At(p, pos, LittleEndian(v, n))
  {
    LittleEndianReads(v, n);
    LittleEndianWrites(p[pos..pos + n]);
  }

  lemma HeaderReads(p: seq<U8>, n: nat)
    requires |p| >= 32 && n < U64_MOD
    ensures p[..24] == Header(n) <==> HeaderAccepted(p) && NumberAt(p, 16, 8) == n
  {
    Pow256Of8();
    HeaderParts(n, p);
    NumberIsDigits(p, 8, 4, FORMAT_VERSION);
    NumberIsDigits(p, 12, 4, SCHEMA_VERSION);
    NumberIsDigits(p, 16, 8, n);
  }

  lemma CrcFits(data: seq<U8>)
    ensures Crc64(data) < Pow256(8)
  {
    CrcBound(0, data);
    Pow256Of8();
  }

  lemma FileParts(body: seq<U8>, p: seq<U8>)
    requires p == FileOf(body)
    ensures var n := 24 + |body|;
            && |p| == n + 8 && p[..24] == Header(|body|) && p[24..n] == body
            && NumberAt(p, n, 8) == Crc64(p[..n])
  {
    var framed := Header(|body|) + body;
    assert p[..|framed|] == framed && p[..24] == framed[..24] && p[24..|framed|] == framed[24..];
    TailReads(framed, p);
  }

  lemma TailReads(framed: seq<U8>, p: seq<U8>)
    requires p == framed + LittleEndian(Crc64(framed), 8)
    ensures NumberAt(p, |framed|, 8) == Crc64(framed)
  {
    var n := |framed|;
    CrcFits(framed);
    assert p[n..n + 8] == LittleEndian(Crc64(framed), 8);
    NumberIsDigits(p, n, 8, Crc64(framed));
  }

  // Reading a written file gives back its body.
  lemma UnframeOfFile(body: seq<U8>)
    requires |body| + 32 < U64_MOD
    ensures Unframe(FileOf(body)) == Some(body)
  {
    var p := FileOf(body);
    var n := 24 + |body|;
    FileParts(body, p);
    HeaderReads(p, |body|);
    LengthIsExact(p);
  }

  lemma AcceptedHeader(p: seq<U8>)
    requires HeaderAccepted(p) && |p| == 32 + NumberAt(p, 16, 8)
    ensures p[..|p| - 8] == Header(|p| - 32) + p[24..|p| - 8]
  {
    HeaderReads(p, |p| - 32);
    assert p[..|p| - 8] == p[..24] + p[24..|p| - 8];
  }

  lemma AcceptedTail(p: seq<U8>)
    requires |p| >= 32 && ChecksumAccepted(p)
    ensures p[|p| - 8..] == LittleEndian(Crc64(p[..|p| - 8]), 8)
  {
    var n := |p| - 8;
    CrcFits(p[..n]);
    NumberIsDigits(p, n, 8, Crc64(p[..n]));
    assert p[n..n + 8] == p[n..];
  }

  // Every accepted file is what would be written for its body.
  lemma FileOfUnframe(p: seq<U8>)
    requires Unframe(p).Some?
    ensures p == FileOf(Unframe(p).value)
  {
    LengthIsExact(p);
    AcceptedHeader(p);
    AcceptedTail(p);
    assert |p[24..|p| - 8]| == |p| - 32;
    assert p == p[..|p| - 8] + p[|p| - 8..];
  }

  // ----- Corruption -----

  // The register is clear after an accepted file, checksum included.
  lemma AcceptedResidue(p: seq<U8>)
    requires Unframe(p).Some?
    ensures Crc64(p) == 0
  {
    LengthIsExact(p);
    var n := |p| - 8;
    var (framed, tail) := (p[..n], p[n..]);
    assert p == framed + tail && p[n..n + 8] == tail;
    CrcAppend(0, framed, tail);
    CrcBound(0, framed);
    ResidueIsZero(Crc64(framed), tail);
  }

  // Damage confined to eight consecutive bytes of an accepted file, wherever they lie, is refused:
  // in the header, in the body, in the stored checksum or across their borders.
  lemma DamageIsDetected(p: seq<U8>, q: seq<U8>, lo: nat, hi: nat)
    requires Unframe(p).Some? && DifferOnlyIn(p, q, lo, hi) && hi - lo <= 8 && q != p
    ensures Unframe(q).None?
  {
    if Unframe(q).Some? {
      AcceptedResidue(p);
      AcceptedResidue(q);
      BurstsAreDetected(p, q, lo, hi);
    }
  }

  // No accepted file is a proper prefix of another.
  lemma NoAcceptedPrefix(p: seq<U8>, q: seq<U8>)
    requires Unframe(p).Some? && Unframe(q).Some? && p <= q
    ensures p == q
  {
    LengthIsExact(p);
    LengthIsExact(q);
    assert p[16..24] == q[16..24];
  }

  // ----- Decoding -----

  function SetKey(s: ReplicaSetState): ReplicaSetId {
    s.id
  }

  function ReplicaKey(r: ReplicaState): ReplicaId {
    r.id
  }

  function RecoveredOf(b: Body): RecoveredState {
    RecoveredState(Table(SetKey, b.sets), Table(ReplicaKey, b.replicas),
                   b.workers, b.promotions, b.drains, b.failovers)
  }

  // The body, read to its last byte.
  function Parsed(body: seq<U8>): Option<Body> {
    var r := Dec(BODY, body, 0);
    if r.None? || r.value.1 != |body| then None else Some(BodyOf(r.value.0))
  }

  // Two sets or two replicas with one identity are refused.
  ghost function BodyRead(body: seq<U8>): Option<Body> {
    var b := Parsed(body);
    if b.Some? && Distinct(SetKey, b.value.sets) && Distinct(ReplicaKey, b.value.replicas) then b else None
  }

  ghost function Decoded(p: seq<U8>): Option<RecoveredState> {
    var body := Unframe(p);
    if body.None? then None else
      var b := BodyRead(body.value);
      if b.None? then None else Some(RecoveredOf(b.value))
  }

  // ----- Exactly the written files are accepted -----

  ghost predicate Writable(b: Body) {
    FiniteSets(b.sets) && FiniteReplicas(b.replicas) && Distinct(SetKey, b.sets) && Distinct(ReplicaKey, b.replicas)
  }

  function BytesOf(b: Body): seq<U8> {
    FileOf(Enc(BodyVal(b)))
  }

  lemma ValReadBack(s: Shape, v: Val)
    requires Shaped(s, v) && |Enc(v)| < U64_MOD
    ensures Dec(s, Enc(v), 0) == if Finite(s, v) then Some((v, |Enc(v)|)) else None
  {
    var p := Enc(v);
    assert p[0..|p|] == p;
    ReadAfterWrite(s, v, p, 0);
  }

  lemma BodyReadBack(b: Body)
    requires |Enc(BodyVal(b))| < U64_MOD
    ensures BodyRead(Enc(BodyVal(b))) == if Writable(b) then Some(b) else None
  {
    BodyReads(b);
    ValReadBack(BODY, BodyVal(b));
  }

  lemma ValRewritten(s: Shape, body: seq<U8>) returns (v: Val)
    requires Dec(s, body, 0).Some? && Dec(s, body, 0).value.1 == |body|
    ensures v == Dec(s, body, 0).value.0 && Shaped(s, v) && Finite(s, v) && Enc(v) == body
  {
    WriteAfterRead(s, body, 0);
    v := Dec(s, body, 0).value.0;
    assert body[0..|body|] == body;
  }

  lemma BodyRewritten(body: seq<U8>)
    requires BodyRead(body).Some?
    ensures var b := BodyRead(body).value; Writable(b) && Enc(BodyVal(b)) == body
  {
    var v := ValRewritten(BODY, body);
    BodyWrites(v);
    BodyReads(BodyOf(v));
  }

  lemma FramedReadBack(body: seq<U8>)
    requires |FileOf(body)| < U64_MOD
    ensures Decoded(FileOf(body)) ==
            var b := BodyRead(body); if b.None? then None else Some(RecoveredOf(b.value))
  {
    UnframeOfFile(body);
  }

  lemma FileReadBack(b: Body)
    requires |BytesOf(b)| < U64_MOD
    ensures Decoded(BytesOf(b)) == if Writable(b) then Some(RecoveredOf(b)) else None
  {
    BodyReadBack(b);
    FramedReadBack(Enc(BodyVal(b)));
  }

  // A file decodes if and only if it was written for some contents with distinct identities and
  // without NaN or infinity, and it decodes to those contents.
  lemma ExactlyWrittenFilesDecode(p: seq<U8>, rec: RecoveredState)
    requires |p| < U64_MOD
    ensures Decoded(p) == Some(rec) <==> exists b: Body :: Writable(b) && p == BytesOf(b) && rec == RecoveredOf(b)
  {
    if Decoded(p) == Some(rec) {
      var body := Unframe(p).value;
      FileOfUnframe(p);
      BodyRewritten(body);
      var b := BodyRead(body).value;
      assert Writable(b) && p == BytesOf(b) && rec == RecoveredOf(b);
    }
    if b: Body :| Writable(b) && p == BytesOf(b) && rec == RecoveredOf(b) {
      FileReadBack(b);
    }
  }

  // ----- The routines themselves -----

  // The tables in ascending order of identity, and the logs as they are.
  ghost function Contents(c: State): Body {
    Body(InOrder(c.sets), InOrder(c.replicas), InOrder(c.workers), c.promotions, c.drains, c.failovers, c.epoch)
  }

  ghost function SnapshotOf(c: State): seq<U8> {
    BytesOf(Contents(c))
  }

  // Collects the values of a table in ascending order of their keys.
  method Sorted<V>(m: map<Id, V>) returns (xs: seq<V>)
    ensures xs == InOrder(m)
  {
    var ids := SortedKeys(m.Keys);
    OrderedAreKeys(m);
    xs := Collect(m, ids);
  }

  method Collect<V>(m: map<Id, V>, ids: seq<Id>) returns (xs: seq<V>)
    requires forall i :: 0 <= i < |ids| ==> ids[i] in m
    ensures xs == Values(m, ids)
  {
    xs := [];
    for i := 0 to |ids|
      invariant |xs| == i && forall j :: 0 <= j < i ==> xs[j] == m[ids[j]]
    {
      xs := xs + [m[ids[i]]];
    }
  }

  method MakeSnapshot(ctrl: ReplicaSetController) returns (bytes: seq<U8>)
    ensures bytes == SnapshotOf(ctrl.View())
  {
    var sets := Sorted(ctrl.sets);
    var replicas := Sorted(ctrl.replicas);
    var workers := Sorted(ctrl.workers);
    var contents := Body(sets, replicas, workers, ctrl.promotions, ctrl.drains, ctrl.failovers, ctrl.epoch);
    var body := new Writer();
    body.Put(BodyVal(contents));
    assert body.b == Enc(BodyVal(contents));
    bytes := WriteFile(body.b);
  }

  method WriteFile(body: seq<U8>) returns (bytes: seq<U8>)
    ensures bytes == FileOf(body)
  {
    var w := new Writer();
    w.PutBytes(MAGIC);
    w.PutNumber(FORMAT_VERSION, 4);
    w.PutNumber(SCHEMA_VERSION, 4);
    w.PutNumber(|body|, 8);
    assert w.b == Header(|body|);
    w.PutBytes(body);
    var crc := ComputeCrc64(w.b);
    w.PutNumber(crc, 8);
    bytes := w.b;
  }

  method ReadHeader(p: seq<U8>) returns (ok: bool, bodyLength: nat)
    requires |p| >= 32
    ensures ok == HeaderAccepted(p)
    ensures ok ==> bodyLength == NumberAt(p, 16, 8)
  {
    if p[..8] != MAGIC { return false, 0; }
    var hdr := new Reader(p);
    var read, magic := hdr.GetBytes(8);
    var ver, schema;
    read, ver := hdr.GetNumber(4);
    read, schema := hdr.GetNumber(4);
    if ver != FORMAT_VERSION || schema != SCHEMA_VERSION { return false, 0; }
    read, bodyLength := hdr.GetNumber(8);
    ok := true;
  }

  method ChecksumMatches(p: seq<U8>) returns (ok: bool)
    requires |p| >= 32
    ensures ok == ChecksumAccepted(p)
  {
    var n := |p| - 8;
    var tail := new Reader(p[n..]);
    var read, stored := tail.GetNumber(8);
    assert p[n..][0..8] == p[n..n + 8];
    var crc := ComputeCrc64(p[..n]);
    ok := crc == stored;
  }

  method ReadFrame(p: seq<U8>) returns (body: Option<seq<U8>>)
    ensures body == Unframe(p)
  {
    if |p| < 32 { return None; }
    var ok, bodyLength := ReadHeader(p);
    if !ok { return None; }
    var bodyEnd := BodyEnd(bodyLength);
    if bodyEnd > |p| || |p| - bodyEnd != 8 { return None; }
    ok := ChecksumMatches(p);
    if !ok { return None; }
    LengthIsExact(p);
    body := Some(p[24..bodyEnd]);
  }

  // Enters the records one by one and stops at the first identity seen before.
  method EnterAll<V>(key: V -> Id, xs: seq<V>) returns (ok: bool, table: map<Id, V>)
    ensures ok <==> Distinct(key, xs)
    ensures ok ==> table == Table(key, xs)
  {
    table := map[];
    for i := 0 to |xs|
      invariant Distinct(key, xs[..i]) && table == Table(key, xs[..i])
    {
      assert xs[..i + 1][..i] == xs[..i];
      TableKeys(key, xs[..i], key(xs[i]));
      if key(xs[i]) in table { return false, table; }
      table := table[key(xs[i]) := xs[i]];
    }
    assert xs[..|xs|] == xs;
    ok := true;
  }

  method ParseBody(bytes: seq<U8>) returns (b: Option<Body>)
    ensures b == Parsed(bytes)
  {
    var body := new Reader(bytes);
    var ok, v := body.Get(BODY);
    if !ok || body.pos != |bytes| { return None; }
    b := Some(BodyOf(v));
  }

  method DecodeSnapshot(p: seq<U8>) returns (rec: Option<RecoveredState>)
    ensures rec == Decoded(p)
  {
    var bytes := ReadFrame(p);
    if bytes.None? { return None; }
    var body := ParseBody(bytes.value);
    if body.None? { return None; }
    var b := body.value;
    var ok, sets := EnterAll(SetKey, b.sets);
    if !ok { return None; }
    var replicas;
    ok, replicas := EnterAll(ReplicaKey, b.replicas);
    if !ok { return None; }
    rec := Some(RecoveredState(sets, replicas, b.workers, b.promotions, b.drains, b.failovers));
  }
}
