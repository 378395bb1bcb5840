// How trigger_failover orders its candidates (src/replica_set_controller.cpp:598-619).
module FailoverOrder {
  import opened Base
  import opened Identity
  import opened Enums
  import opened Records

  function RoleRank(p: PromotionState): nat {
    match p
    case Standby => 0
    case Canary => 1
    case Replacement => 2
    case Recovered => 3
    case _ => 4
  }

  // What the comparator looks at: the candidate's id, promotion and worker.
  datatype Candidate = Candidate(id: ReplicaId, promotion: PromotionState, workerId: WorkerId)

  function CandidateOf(id: ReplicaId, r: ReplicaState): Candidate {
    Candidate(id, r.promotion, r.workerId)
  }

  // The comparator handed to std::stable_sort.
  predicate Before(pol: FailoverPolicy, failedWorker: WorkerId, a: Candidate, b: Candidate) {
    var aDiff := a.workerId != failedWorker;
    var bDiff := b.workerId != failedWorker;
    if pol.preferStandbyFirst && RoleRank(a.promotion) != RoleRank(b.promotion) then
      RoleRank(a.promotion) < RoleRank(b.promotion)
    else if pol.requireDiversity && aDiff != bDiff then aDiff
    else a.id.Less(b.id)
  }

  ghost predicate DistinctIds(cs: set<Candidate>) {
    forall a, b :: a in cs && b in cs && a.id == b.id ==> a == b
  }

  // Whatever the policy says, the comparator is a strict total order on candidates with distinct ids.
  lemma BeforeIsStrictTotalOrder(pol: FailoverPolicy, w: WorkerId, cs: set<Candidate>)
    requires DistinctIds(cs)
    ensures forall a :: a in cs ==> !Before(pol, w, a, a)
    ensures forall a, b, c :: a in cs && b in cs && c in cs && Before(pol, w, a, b) && Before(pol, w, b, c) ==>
              Before(pol, w, a, c)
    ensures forall a, b :: a in cs && b in cs && a != b ==> Before(pol, w, a, b) || Before(pol, w, b, a)
  {
    forall a, b | a in cs && b in cs && a != b ensures Before(pol, w, a, b) || Before(pol, w, b, a) {
      assert a.id != b.id;
    }
  }

  ghost predicate IsFirst(pol: FailoverPolicy, w: WorkerId, cs: set<Candidate>, m: Candidate) {
    m in cs && forall c :: c in cs && c != m ==> Before(pol, w, m, c)
  }

  lemma {:induction false} FirstExists(pol: FailoverPolicy, w: WorkerId, cs: set<Candidate>)
    requires DistinctIds(cs) && cs != {}
    ensures exists m :: IsFirst(pol, w, cs, m)
    decreases |cs|
  {
    var x :| x in cs;
    var rest := cs - {x};
    assert cs == {x} + rest;
    if rest == {} {
      assert IsFirst(pol, w, cs, x);
    } else {
      FirstExists(pol, w, rest);
      var m :| IsFirst(pol, w, rest, m);
      BeforeIsStrictTotalOrder(pol, w, cs);
      assert IsFirst(pol, w, cs, if Before(pol, w, x, m) then x else m);
    }
  }

  ghost function First(pol: FailoverPolicy, w: WorkerId, cs: set<Candidate>): (m: Candidate)
    requires DistinctIds(cs) && cs != {}
    ensures IsFirst(pol, w, cs, m)
  {
    FirstExists(pol, w, cs);
    var m :| IsFirst(pol, w, cs, m);
    m
  }

  // The choice is unique, so no enumeration order of the candidates can change it. Under
  // prefer_standby_first a standby is taken whenever one stands by; among equal ranks (or when
  // ranks are ignored) require_diversity takes another worker whenever one offers itself.
  lemma FirstIsTheOnlyChoice(pol: FailoverPolicy, w: WorkerId, cs: set<Candidate>, m: Candidate)
    requires DistinctIds(cs) && cs != {}
    ensures IsFirst(pol, w, cs, m) <==> m == First(pol, w, cs)
    ensures IsFirst(pol, w, cs, m) && pol.preferStandbyFirst ==>
              forall c :: c in cs ==> RoleRank(m.promotion) <= RoleRank(c.promotion)
    ensures IsFirst(pol, w, cs, m) && pol.preferStandbyFirst && (exists c :: c in cs && c.promotion.Standby?) ==>
              m.promotion.Standby?
    ensures IsFirst(pol, w, cs, m) && pol.requireDiversity && m.workerId == w ==>
              forall c :: c in cs && c.workerId != w ==>
                pol.preferStandbyFirst && RoleRank(c.promotion) > RoleRank(m.promotion)
  {
    BeforeIsStrictTotalOrder(pol, w, cs);
    if IsFirst(pol, w, cs, m) {
      var f := First(pol, w, cs);
      assert Before(pol, w, m, f) && Before(pol, w, f, m) ==> Before(pol, w, m, m);
      forall c | c in cs && pol.preferStandbyFirst ensures RoleRank(m.promotion) <= RoleRank(c.promotion) {
        if c != m { assert Before(pol, w, m, c); }
      }
      forall c | c in cs && c.workerId != w && pol.requireDiversity && m.workerId == w
        ensures pol.preferStandbyFirst && RoleRank(c.promotion) > RoleRank(m.promotion)
      {
        assert Before(pol, w, m, c);
      }
    }
  }

  ghost predicate Sorted(pol: FailoverPolicy, w: WorkerId, s: seq<Candidate>) {
    forall i, j :: 0 <= i < j < |s| ==> Before(pol, w, s[i], s[j])
  }

  // The sort of the candidate vector. On distinct ids no two candidates compare equal, so the
  // sorted order is unique and stability plays no part.
  method SortCandidates(pol: FailoverPolicy, w: WorkerId, cs: seq<Candidate>) returns (s: seq<Candidate>)
    requires forall i, j :: 0 <= i < j < |cs| ==> cs[i].id != cs[j].id
    ensures Sorted(pol, w, s)
    ensures forall c :: c in s <==> c in cs
    ensures cs != [] ==> s != [] && IsFirst(pol, w, (set c | c in cs), s[0])
  {
    s := [];
    for n := 0 to |cs|
      invariant Sorted(pol, w, s)
      invariant forall c :: c in s <==> c in cs[..n]
    {
      s := Insert(pol, w, s, cs[n]);
    }
    assert cs[..|cs|] == cs;
    if cs != [] {
      assert cs[0] in s;
      forall c | c in cs && c != s[0] ensures Before(pol, w, s[0], c) {
        var i :| 0 <= i < |s| && s[i] == c;
      }
    }
  }

  method Insert(pol: FailoverPolicy, w: WorkerId, s: seq<Candidate>, c: Candidate) returns (t: seq<Candidate>)
    requires Sorted(pol, w, s)
    requires forall x :: x in s ==> x.id != c.id
    ensures Sorted(pol, w, t)
    ensures forall x :: x in t <==> x in s || x == c
  {
    var k := |s|;
    while k > 0 && Before(pol, w, c, s[k - 1])
      invariant 0 <= k <= |s|
      invariant forall i :: k <= i < |s| ==> Before(pol, w, c, s[i])
    {
      k := k - 1;
    }
    t := s[..k] + [c] + s[k..];
    InsertionSorts(pol, w, s, c, k);
    assert s == s[..k] + s[k..];
    assert t[k] == c;
  }

  lemma InsertionSorts(pol: FailoverPolicy, w: WorkerId, s: seq<Candidate>, c: Candidate, k: nat)
    requires Sorted(pol, w, s) && k <= |s|
    requires forall x :: x in s ==> x.id != c.id
    requires forall i :: k <= i < |s| ==> Before(pol, w, c, s[i])
    requires k > 0 ==> !Before(pol, w, c, s[k - 1])
    ensures Sorted(pol, w, s[..k] + [c] + s[k..])
  {
    var t := s[..k] + [c] + s[k..];
    forall i | 0 <= i < k ensures Before(pol, w, s[i], c) {
      assert s[k - 1].id != c.id;
      assert Before(pol, w, s[k - 1], c);
      if i < k - 1 { assert Before(pol, w, s[i], s[k - 1]); }
    }
    forall i, j | 0 <= i < j < |t| ensures Before(pol, w, t[i], t[j]) {
      var x := if i < k then s[i] else if i == k then c else s[i - 1];
      var y := if j < k then s[j] else if j == k then c else s[j - 1];
      assert t[i] == x && t[j] == y;
    }
  }
}
