// The placement engine (src/placement.cpp, include/replicafabric/placement/placement.hpp), over
// exact real scores.
module Placement {
  import opened Base
  import opened Identity
  import opened Enums
  import opened Records

  datatype PlacementHost = PlacementHost(
    workerId: WorkerId, bootId: WorkerBootId, nodeId: Id, host: Text, numa: Text, rack: Text,
    failureDomainLabels: seq<Text>, device: DeviceCapability, inventory: ResourceInventory,
    artifactDistance: U64, hasWarmModel: bool)

  datatype PlacedReplica = PlacedReplica(
    id: ReplicaId, host: Text, numa: Text, deviceId: Text, failureDomainLabels: seq<Text>)

  datatype FactorKind =
    FreeMemory | AcceleratorCapability | WarmState | ArtifactLocality | FailureDomainDiversity | Preference

  datatype PlacementFactor = PlacementFactor(kind: FactorKind, weight: real, score: real, contribution: real)

  datatype Rejection = NotRejected | MissingBackend | ComputeTooLow | MemoryTooLow | AcceleratorsTooFew

  datatype PlacementCandidate = PlacementCandidate(
    host: PlacementHost, eligible: bool, rejection: Rejection, factors: seq<PlacementFactor>, total: real,
    summary: Text)

  datatype PlacementDecision =
    PlacementDecision(placed: bool, chosen: Option<PlacementHost>, candidates: seq<PlacementCandidate>)

  // ----- The order of candidates -----

  const BAR: Text := [124] // "|"

  function KeyOf(h: PlacementHost): Text {
    IdText(h.workerId) + BAR + h.device.deviceId
  }

  lemma {:induction false} TextLessTotal(a: Text, b: Text)
    ensures a == b || TextLess(a, b) || TextLess(b, a)
    ensures !(TextLess(a, b) && TextLess(b, a)) && !TextLess(a, a)
    decreases |a|
  {
    if a != [] {
      TextLessTotal(a[1..], a[1..]);
      if b != [] {
        TextLessTotal(a[1..], b[1..]);
        assert a == [a[0]] + a[1..] && b == [b[0]] + b[1..];
      }
    }
  }

  lemma {:induction false} TextLessTransitive(a: Text, b: Text, c: Text)
    requires TextLess(a, b) && TextLess(b, c)
    ensures TextLess(a, c)
    decreases |a|
  {
    if a != [] && a[0] == b[0] && b[0] == c[0] { TextLessTransitive(a[1..], b[1..], c[1..]); }
  }

  // Candidates are ordered by worker identity as `Id::operator<` orders it, then by device name.
  lemma KeyOrder(g: PlacementHost, h: PlacementHost)
    ensures TextLess(KeyOf(g), KeyOf(h)) <==>
            g.workerId.Less(h.workerId) ||
            (g.workerId == h.workerId && TextLess(g.device.deviceId, h.device.deviceId))
    ensures KeyOf(g) == KeyOf(h) <==> g.workerId == h.workerId && g.device.deviceId == h.device.deviceId
  {
    var (a, b) := (IdText(g.workerId), IdText(h.workerId));
    var (x, y) := (BAR + g.device.deviceId, BAR + h.device.deviceId);
    assert KeyOf(g) == a + x && KeyOf(h) == b + y;
    IdTextOrder(g.workerId, h.workerId);
    TextLessAppend(a, b, x, y);
    TextLessAppend(BAR, BAR, g.device.deviceId, h.device.deviceId);
    assert KeyOf(g)[..32] == a && KeyOf(h)[..32] == b;
    assert KeyOf(g)[33..] == g.device.deviceId && KeyOf(h)[33..] == h.device.deviceId;
    TextLessTotal(a, b);
  }

  predicate SortedByKey(hosts: seq<PlacementHost>) {
    forall i, j :: 0 <= i < j < |hosts| ==> !TextLess(KeyOf(hosts[j]), KeyOf(hosts[i]))
  }

  // std::sort: any arrangement in which no host is followed by one with a smaller key.
  method SortHosts(hosts: seq<PlacementHost>) returns (sorted: seq<PlacementHost>)
    ensures multiset(sorted) == multiset(hosts) && SortedByKey(sorted)
  {
    sorted := [];
    for i := 0 to |hosts|
      invariant multiset(sorted) == multiset(hosts[..i]) && SortedByKey(sorted)
    {
      assert hosts[..i + 1] == hosts[..i] + [hosts[i]];
      sorted := InsertHost(sorted, hosts[i]);
    }
    assert hosts[..|hosts|] == hosts;
  }

  method InsertHost(sorted: seq<PlacementHost>, h: PlacementHost) returns (r: seq<PlacementHost>)
    requires SortedByKey(sorted)
    ensures multiset(r) == multiset(sorted) + multiset{h} && SortedByKey(r)
  {
    var k := |sorted|;
    while k > 0 && TextLess(KeyOf(h), KeyOf(sorted[k - 1]))
      invariant 0 <= k <= |sorted|
      invariant forall j :: k <= j < |sorted| ==> TextLess(KeyOf(h), KeyOf(sorted[j]))
    {
      k := k - 1;
    }
    r := sorted[..k] + [h] + sorted[k..];
    InsertionKeeps(sorted, h, k);
    InsertionSorts(sorted, h, k);
  }

  lemma InsertionKeeps(sorted: seq<PlacementHost>, h: PlacementHost, k: nat)
    requires k <= |sorted|
    ensures multiset(sorted[..k] + [h] + sorted[k..]) == multiset(sorted) + multiset{h}
  {
    assert sorted == sorted[..k] + sorted[k..];
  }

  lemma InsertionSorts(sorted: seq<PlacementHost>, h: PlacementHost, k: nat)
    requires SortedByKey(sorted) && k <= |sorted|
    requires k > 0 ==> !TextLess(KeyOf(h), KeyOf(sorted[k - 1]))
    requires forall j :: k <= j < |sorted| ==> TextLess(KeyOf(h), KeyOf(sorted[j]))
    ensures SortedByKey(sorted[..k] + [h] + sorted[k..])
  {
    var r := sorted[..k] + [h] + sorted[k..];
    forall i, j | 0 <= i < j < |r| ensures !TextLess(KeyOf(r[j]), KeyOf(r[i])) {
      if j == k {
        // r[i] <= sorted[k - 1] <= h
        var (x, y) := (KeyOf(sorted[i]), KeyOf(sorted[k - 1]));
        if TextLess(KeyOf(h), x) {
          TextLessTotal(x, y);
          if TextLess(x, y) { TextLessTransitive(KeyOf(h), x, y); }
        }
      } else if i == k {
        TextLessTotal(KeyOf(h), KeyOf(r[j]));
      }
    }
  }

  // ----- Hard constraints (lines 18-24 and 67-78) -----

  predicate OffersBackend(h: PlacementHost, kind: BackendKind) {
    kind == NoBackend || exists i :: 0 <= i < |h.inventory.backends| && h.inventory.backends[i].kind == kind
  }

  // The requirement is converted to a signed int before the comparison.
  function RejectionOf(s: ReplicaSetState, h: PlacementHost): Rejection {
    if !OffersBackend(h, s.backend) then MissingBackend
    else if h.device.compute.Less(s.minCompute) then ComputeTooLow
    else if h.inventory.freeMemoryBytes < s.memoryRequirementBytes then MemoryTooLow
    else if h.inventory.acceleratorCount < Signed32(s.acceleratorRequirement) then AcceleratorsTooFew
    else NotRejected
  }

  // The accelerator check is the intended one exactly for requirements below 2^31, or when the host
  // falls short even of the negative number that a larger requirement turns into.
  lemma AcceleratorCheckIsExact(required: U32, count: I32)
    ensures (Signed32(required) <= count <==> required <= count) <==>
            required < 0x8000_0000 || count < required - U32_MOD
  {
  }

  method HasBackend(h: PlacementHost, kind: BackendKind) returns (found: bool)
    ensures found == OffersBackend(h, kind)
  {
    if kind == NoBackend { return true; }
    for i := 0 to |h.inventory.backends|
      invariant forall j :: 0 <= j < i ==> h.inventory.backends[j].kind != kind
    {
      if h.inventory.backends[i].kind == kind { return true; }
    }
    found := false;
  }

  // ----- Anti-affinity (lines 33-53) -----

  const HOST: Text := [104, 111, 115, 116]           // "host"
  const NUMA: Text := [110, 117, 109, 97]            // "numa"
  const DEVICE: Text := [100, 101, 118, 105, 99, 101] // "device"
  const RACK: Text := [114, 97, 99, 107]             // "rack"

  predicate SharesLabel(h: PlacementHost, e: PlacedReplica) {
    exists x :: x in e.failureDomainLabels && x in h.failureDomainLabels
  }

  // Does the placed replica `e` already occupy the domain of `h` that `domain` names?
  predicate Occupies(e: PlacedReplica, h: PlacementHost, domain: Text) {
    || (domain == HOST && e.host == h.host && e.host != [])
    || (domain == NUMA && e.numa == h.numa && e.numa != [])
    || (domain == DEVICE && e.deviceId == h.device.deviceId && e.deviceId != [])
    || (domain == RACK && SharesLabel(h, e))
    || (domain in e.failureDomainLabels && domain in h.failureDomainLabels)
  }

  predicate Occupied(existing: seq<PlacedReplica>, h: PlacementHost, domain: Text) {
    exists i :: 0 <= i < |existing| && Occupies(existing[i], h, domain)
  }

  predicate Diverse(s: ReplicaSetState, existing: seq<PlacedReplica>, h: PlacementHost) {
    forall i :: 0 <= i < |s.placementPolicy.antiAffinityDomains| ==>
      !Occupied(existing, h, s.placementPolicy.antiAffinityDomains[i])
  }

  method LabelShared(h: PlacementHost, e: PlacedReplica) returns (shared: bool)
    ensures shared == SharesLabel(h, e)
  {
    for i := 0 to |e.failureDomainLabels|
      invariant forall j :: 0 <= j < i ==> e.failureDomainLabels[j] !in h.failureDomainLabels
    {
      for k := 0 to |h.failureDomainLabels|
        invariant e.failureDomainLabels[i] !in h.failureDomainLabels[..k]
      {
        if e.failureDomainLabels[i] == h.failureDomainLabels[k] {
          assert e.failureDomainLabels[i] in e.failureDomainLabels;
          return true;
        }
      }
      assert h.failureDomainLabels[..|h.failureDomainLabels|] == h.failureDomainLabels;
    }
    shared := false;
  }

  method LabelNamed(h: PlacementHost, e: PlacedReplica, domain: Text) returns (named: bool)
    ensures named == (domain in e.failureDomainLabels && domain in h.failureDomainLabels)
  {
    for i := 0 to |h.failureDomainLabels|
      invariant domain in h.failureDomainLabels[..i] ==> domain !in e.failureDomainLabels
    {
      for k := 0 to |e.failureDomainLabels|
        invariant domain == h.failureDomainLabels[i] ==> domain !in e.failureDomainLabels[..k]
      {
        if domain == e.failureDomainLabels[k] && h.failureDomainLabels[i] == e.failureDomainLabels[k] {
          assert e.failureDomainLabels[k] in e.failureDomainLabels;
          return true;
        }
      }
      assert e.failureDomainLabels[..|e.failureDomainLabels|] == e.failureDomainLabels;
    }
    assert h.failureDomainLabels[..|h.failureDomainLabels|] == h.failureDomainLabels;
    named := false;
  }

  method IsOccupied(existing: seq<PlacedReplica>, h: PlacementHost, domain: Text) returns (occupied: bool)
    ensures occupied == Occupied(existing, h, domain)
  {
    for i := 0 to |existing|
      invariant forall j :: 0 <= j < i ==> !Occupies(existing[j], h, domain)
    {
      var e := existing[i];
      if domain == HOST && e.host == h.host && e.host != [] { return true; }
      if domain == NUMA && e.numa == h.numa && e.numa != [] { return true; }
      if domain == DEVICE && e.deviceId == h.device.deviceId && e.deviceId != [] { return true; }
      if domain == RACK {
        var shared := LabelShared(h, e);
        if shared { return true; }
      }
      var named := LabelNamed(h, e, domain);
      if named { return true; }
    }
    occupied := false;
  }

  // ----- Scores (lines 13-16 and 87-141) -----

  function Lesser(a: real, b: real): real {
    if b < a then b else a
  }

  function MemoryScore(h: PlacementHost): real {
    if h.inventory.totalMemoryBytes == 0 then 0.0
    else h.inventory.freeMemoryBytes as real / h.inventory.totalMemoryBytes as real
  }

  function CapabilityScore(h: PlacementHost): real {
    Lesser(1.0, (h.device.compute.major as real * 10.0 + h.device.compute.minor as real) / 200.0)
  }

  function LocalityScore(h: PlacementHost): real {
    if h.artifactDistance == 0 then 1.0 else 1.0 / (1.0 + h.artifactDistance as real)
  }

  function PreferenceScore(p: PlacementPolicy, h: PlacementHost): real {
    Lesser(1.0,
           (if p.preferredHost != [] && h.host == p.preferredHost then 0.5 else 0.0) +
           (if p.preferredDevice != [] && h.device.deviceId == p.preferredDevice then 0.5 else 0.0) +
           (if p.preferredFailureDomain != [] && p.preferredFailureDomain in h.failureDomainLabels
            then 0.5 else 0.0))
  }

  function Factor(kind: FactorKind, weight: real, score: real): PlacementFactor {
    PlacementFactor(kind, weight, score, weight * score)
  }

  function Factors(s: ReplicaSetState, existing: seq<PlacedReplica>, h: PlacementHost): seq<PlacementFactor> {
    [Factor(FreeMemory, 3.0, MemoryScore(h)),
     Factor(AcceleratorCapability, 2.0, CapabilityScore(h)),
     Factor(WarmState, 2.5, if h.hasWarmModel then 1.0 else 0.0),
     Factor(ArtifactLocality, 1.5, LocalityScore(h)),
     Factor(FailureDomainDiversity, 4.0, if Diverse(s, existing, h) then 1.0 else 0.0),
     Factor(Preference, 1.0, PreferenceScore(s.placementPolicy, h))]
  }

  function Total(factors: seq<PlacementFactor>): real {
    if factors == [] then 0.0 else Total(factors[..|factors| - 1]) + factors[|factors| - 1].contribution
  }

  function Evaluated(s: ReplicaSetState, existing: seq<PlacedReplica>, h: PlacementHost): PlacementCandidate {
    var rejection := RejectionOf(s, h);
    if !rejection.NotRejected? then PlacementCandidate(h, false, rejection, [], 0.0, []) else
      var factors := Factors(s, existing, h);
      PlacementCandidate(h, true, NotRejected, factors, Total(factors), KeyOf(h))
  }

  method Diversity(s: ReplicaSetState, existing: seq<PlacedReplica>, h: PlacementHost) returns (diversity: real)
    ensures diversity == if Diverse(s, existing, h) then 1.0 else 0.0
  {
    var domains := s.placementPolicy.antiAffinityDomains;
    for i := 0 to |domains|
      invariant forall j :: 0 <= j < i ==> !Occupied(existing, h, domains[j])
    {
      var occupied := IsOccupied(existing, h, domains[i]);
      if occupied { return 0.0; }
    }
    diversity := 1.0;
  }

  method Preferred(p: PlacementPolicy, h: PlacementHost) returns (score: real)
    ensures score == PreferenceScore(p, h)
  {
    var pref := 0.0;
    if p.preferredHost != [] && h.host == p.preferredHost { pref := pref + 0.5; }
    if p.preferredDevice != [] && h.device.deviceId == p.preferredDevice { pref := pref + 0.5; }
    if p.preferredFailureDomain != [] {
      var found := false;
      for i := 0 to |h.failureDomainLabels|
        invariant p.preferredFailureDomain !in h.failureDomainLabels[..i]
      {
        if h.failureDomainLabels[i] == p.preferredFailureDomain {
          found := true;
          break;
        }
      }
      assert h.failureDomainLabels[..|h.failureDomainLabels|] == h.failureDomainLabels;
      if found { pref := pref + 0.5; }
    }
    score := Lesser(1.0, pref);
  }

  method Score(s: ReplicaSetState, existing: seq<PlacedReplica>, h: PlacementHost)
    returns (factors: seq<PlacementFactor>, total: real)
    ensures factors == Factors(s, existing, h) && total == Total(factors)
  {
    factors := [Factor(FreeMemory, 3.0, MemoryScore(h))];
    factors := factors + [Factor(AcceleratorCapability, 2.0, CapabilityScore(h))];
    factors := factors + [Factor(WarmState, 2.5, if h.hasWarmModel then 1.0 else 0.0)];
    factors := factors + [Factor(ArtifactLocality, 1.5, LocalityScore(h))];
    var diversity := Diversity(s, existing, h);
    factors := factors + [Factor(FailureDomainDiversity, 4.0, diversity)];
    var preference := Preferred(s.placementPolicy, h);
    factors := factors + [Factor(Preference, 1.0, preference)];
    total := 0.0;
    for i := 0 to |factors|
      invariant total == Total(factors[..i])
    {
      assert factors[..i + 1][..i] == factors[..i];
      total := total + factors[i].contribution;
    }
    assert factors[..|factors|] == factors;
  }

  method Evaluate(s: ReplicaSetState, existing: seq<PlacedReplica>, h: PlacementHost)
    returns (cand: PlacementCandidate)
    ensures cand == Evaluated(s, existing, h)
  {
    var offered := HasBackend(h, s.backend);
    var rejection := NotRejected;
    if !offered {
      rejection := MissingBackend;
    } else if h.device.compute.Less(s.minCompute) {
      rejection := ComputeTooLow;
    } else if h.inventory.freeMemoryBytes < s.memoryRequirementBytes {
      rejection := MemoryTooLow;
    } else if h.inventory.acceleratorCount < Signed32(s.acceleratorRequirement) {
      rejection := AcceleratorsTooFew;
    }
    if rejection != NotRejected { return PlacementCandidate(h, false, rejection, [], 0.0, []); }
    var factors, total := Score(s, existing, h);
    cand := PlacementCandidate(h, true, NotRejected, factors, total, KeyOf(h));
  }

  // ----- The choice (lines 148-167) -----

  predicate Better(c: PlacementCandidate, d: PlacementCandidate) {
    c.total > d.total || (c.total == d.total && TextLess(c.summary, d.summary))
  }

  // Some eligible candidate that no eligible candidate is better than.
  predicate IsBest(cands: seq<PlacementCandidate>, b: PlacementCandidate) {
    b in cands && b.eligible && forall i :: 0 <= i < |cands| && cands[i].eligible ==> !Better(cands[i], b)
  }

  function HostsOf(cands: seq<PlacementCandidate>): (hosts: seq<PlacementHost>)
    ensures |hosts| == |cands| && forall i :: 0 <= i < |cands| ==> hosts[i] == cands[i].host
  {
    MapSeq((c: PlacementCandidate) => c.host, cands)
  }

  // The host of a best candidate, if there is an eligible one.
  ghost predicate Chooses(d: PlacementDecision) {
    && (d.placed <==> exists i :: 0 <= i < |d.candidates| && d.candidates[i].eligible)
    && (d.chosen.Some? <==> d.placed)
    && (d.placed ==> exists b :: IsBest(d.candidates, b) && d.chosen == Some(b.host))
  }

  // What a decision for these inputs must be.
  ghost predicate Decides(s: ReplicaSetState, hosts: seq<PlacementHost>, existing: seq<PlacedReplica>,
                          d: PlacementDecision) {
    && multiset(HostsOf(d.candidates)) == multiset(hosts) && SortedByKey(HostsOf(d.candidates))
    && (forall i :: 0 <= i < |d.candidates| ==> d.candidates[i] == Evaluated(s, existing, d.candidates[i].host))
    && Chooses(d)
  }

  method SelectBest(cands: seq<PlacementCandidate>) returns (best: Option<PlacementCandidate>)
    ensures best.Some? <==> exists i :: 0 <= i < |cands| && cands[i].eligible
    ensures best.Some? ==> IsBest(cands, best.value)
  {
    best := None;
    for i := 0 to |cands|
      invariant best.None? ==> forall j :: 0 <= j < i ==> !cands[j].eligible
      invariant best.Some? ==> IsBest(cands[..i], best.value)
    {
      var c := cands[i];
      if c.eligible && (best.None? || Better(c, best.value)) {
        StaysBest(cands, i, best);
        best := Some(c);
      }
    }
    assert cands[..|cands|] == cands;
  }

  // A candidate that beats the best so far is not beaten by an earlier one.
  lemma StaysBest(cands: seq<PlacementCandidate>, i: nat, best: Option<PlacementCandidate>)
    requires i < |cands| && cands[i].eligible
    requires best.None? ==> forall j :: 0 <= j < i ==> !cands[j].eligible
    requires best.Some? ==> IsBest(cands[..i], best.value) && Better(cands[i], best.value)
    ensures IsBest(cands[..i + 1], cands[i])
  {
    var c := cands[i];
    forall j | 0 <= j <= i && cands[j].eligible ensures !Better(cands[j], c) {
      TextLessTotal(c.summary, c.summary);
      if j < i && Better(cands[j], c) {
        assert cands[..i][j] == cands[j];
        if TextLess(cands[j].summary, c.summary) && TextLess(c.summary, best.value.summary) {
          TextLessTransitive(cands[j].summary, c.summary, best.value.summary);
        }
      }
    }
  }

  method Place(s: ReplicaSetState, hosts: seq<PlacementHost>, existing: seq<PlacedReplica>)
    returns (d: PlacementDecision)
    ensures Decides(s, hosts, existing, d)
  {
    var sorted := SortHosts(hosts);
    var cands := [];
    for i := 0 to |sorted|
      invariant |cands| == i && forall j :: 0 <= j < i ==> cands[j] == Evaluated(s, existing, sorted[j])
    {
      var cand := Evaluate(s, existing, sorted[i]);
      cands := cands + [cand];
    }
    assert HostsOf(cands) == sorted;
    var best := SelectBest(cands);
    d := PlacementDecision(best.Some?, if best.None? then None else Some(best.value.host), cands);
  }

  // ----- What a decision promises -----

  // The four hard constraints.
  predicate Meets(s: ReplicaSetState, h: PlacementHost) {
    && OffersBackend(h, s.backend)
    && !h.device.compute.Less(s.minCompute)
    && s.memoryRequirementBytes <= h.inventory.freeMemoryBytes
    && Signed32(s.acceleratorRequirement) <= h.inventory.acceleratorCount
  }

  function Worth(s: ReplicaSetState, existing: seq<PlacedReplica>, h: PlacementHost): real {
    Total(Factors(s, existing, h))
  }

  lemma CandidateOf(s: ReplicaSetState, hosts: seq<PlacementHost>, existing: seq<PlacedReplica>,
                    d: PlacementDecision, h: PlacementHost) returns (i: nat)
    requires Decides(s, hosts, existing, d) && h in hosts
    ensures i < |d.candidates| && d.candidates[i] == Evaluated(s, existing, h)
  {
    assert h in multiset(HostsOf(d.candidates));
    i :| 0 <= i < |d.candidates| && HostsOf(d.candidates)[i] == h;
  }

  lemma CandidateHost(s: ReplicaSetState, hosts: seq<PlacementHost>, existing: seq<PlacedReplica>,
                      d: PlacementDecision, i: nat)
    requires Decides(s, hosts, existing, d) && i < |d.candidates|
    ensures d.candidates[i].host in hosts
  {
    assert HostsOf(d.candidates)[i] in multiset(HostsOf(d.candidates));
  }

  // Placement succeeds exactly when some host meets every hard constraint.
  lemma PlacedIffSomeHostMeets(s: ReplicaSetState, hosts: seq<PlacementHost>, existing: seq<PlacedReplica>,
                               d: PlacementDecision)
    requires Decides(s, hosts, existing, d)
    ensures d.placed <==> exists h :: h in hosts && Meets(s, h)
  {
    if d.placed {
      var i :| 0 <= i < |d.candidates| && d.candidates[i].eligible;
      CandidateHost(s, hosts, existing, d, i);
      assert Meets(s, d.candidates[i].host);
    }
    if h :| h in hosts && Meets(s, h) {
      var i := CandidateOf(s, hosts, existing, d, h);
    }
  }

  // The chosen host meets the constraints, no such host is worth more, and among equals none has a
  // smaller worker identity, or the same one and a smaller device name.
  lemma ChosenIsBest(s: ReplicaSetState, hosts: seq<PlacementHost>, existing: seq<PlacedReplica>,
                     d: PlacementDecision, h: PlacementHost)
    requires Decides(s, hosts, existing, d) && h in hosts && Meets(s, h)
    ensures d.chosen.Some?
    ensures var g := d.chosen.value;
      && g in hosts && Meets(s, g)
      && Worth(s, existing, h) <= Worth(s, existing, g)
      && (Worth(s, existing, h) == Worth(s, existing, g) ==>
            !h.workerId.Less(g.workerId) &&
            (h.workerId == g.workerId ==> !TextLess(h.device.deviceId, g.device.deviceId)))
  {
    PlacedIffSomeHostMeets(s, hosts, existing, d);
    var b :| IsBest(d.candidates, b) && d.chosen == Some(b.host);
    var k :| 0 <= k < |d.candidates| && d.candidates[k] == b;
    CandidateHost(s, hosts, existing, d, k);
    var i := CandidateOf(s, hosts, existing, d, h);
    assert !Better(d.candidates[i], b);
    KeyOrder(h, b.host);
  }

  // At least as good in every factor.
  predicate AtLeast(fs: seq<PlacementFactor>, gs: seq<PlacementFactor>) {
    |fs| == |gs| && forall i :: 0 <= i < |fs| ==> fs[i].contribution >= gs[i].contribution
  }

  lemma {:induction false} TotalIsMonotone(fs: seq<PlacementFactor>, gs: seq<PlacementFactor>)
    requires AtLeast(fs, gs)
    ensures Total(fs) >= Total(gs)
    ensures (exists i :: 0 <= i < |fs| && fs[i].contribution > gs[i].contribution) ==> Total(fs) > Total(gs)
  {
    if fs != [] {
      var n := |fs| - 1;
      TotalIsMonotone(fs[..n], gs[..n]);
      if i :| 0 <= i < |fs| && fs[i].contribution > gs[i].contribution {
        if i < n { assert fs[..n][i].contribution > gs[..n][i].contribution; }
      }
    }
  }

  // `h` is at least as good as `g` by every factor and better by one.
  predicate Dominates(s: ReplicaSetState, existing: seq<PlacedReplica>, h: PlacementHost, g: PlacementHost) {
    var (fs, gs) := (Factors(s, existing, h), Factors(s, existing, g));
    && (forall i :: 0 <= i < 6 ==> fs[i].score >= gs[i].score)
    && (exists i :: 0 <= i < 6 && fs[i].score > gs[i].score)
  }

  // Weights are positive and the same for every host, so a better score is a better contribution.
  lemma ScoreCounts(s: ReplicaSetState, existing: seq<PlacedReplica>, h: PlacementHost, g: PlacementHost, i: nat)
    requires i < 6
    ensures var (f, e) := (Factors(s, existing, h)[i], Factors(s, existing, g)[i]);
      && (f.score >= e.score ==> f.contribution >= e.contribution)
      && (f.score > e.score ==> f.contribution > e.contribution)
  {
    var (f, e) := (Factors(s, existing, h)[i], Factors(s, existing, g)[i]);
    assert f == Factor(f.kind, f.weight, f.score) && e == Factor(e.kind, f.weight, e.score) && f.weight > 0.0;
    if f.score >= e.score { ScaledOrder(f.weight, f.score, e.score); }
  }

  lemma DominationCounts(s: ReplicaSetState, existing: seq<PlacedReplica>, h: PlacementHost, g: PlacementHost)
    requires Dominates(s, existing, h, g)
    ensures Worth(s, existing, h) > Worth(s, existing, g)
  {
    var (fs, gs) := (Factors(s, existing, h), Factors(s, existing, g));
    forall i | 0 <= i < 6
      ensures fs[i].score >= gs[i].score ==> fs[i].contribution >= gs[i].contribution
      ensures fs[i].score > gs[i].score ==> fs[i].contribution > gs[i].contribution
    {
      ScoreCounts(s, existing, h, g, i);
    }
    TotalIsMonotone(fs, gs);
  }

  // No eligible host dominates the chosen one, whatever the weights add up to.
  lemma ChosenIsUndominated(s: ReplicaSetState, hosts: seq<PlacementHost>, existing: seq<PlacedReplica>,
                            d: PlacementDecision, h: PlacementHost)
    requires Decides(s, hosts, existing, d) && h in hosts && Meets(s, h)
    ensures d.chosen.Some? && !Dominates(s, existing, h, d.chosen.value)
  {
    ChosenIsBest(s, hosts, existing, d, h);
    if Dominates(s, existing, h, d.chosen.value) { DominationCounts(s, existing, h, d.chosen.value); }
  }

  lemma ScaledOrder(w: real, x: real, y: real)
    requires w > 0.0 && x >= y
    ensures w * x >= w * y && (x > y ==> w * x > w * y)
  {
    assert w * x - w * y == w * (x - y);
  }

  // ----- Enumeration order does not matter -----

  predicate DistinctKeys(hosts: seq<PlacementHost>) {
    forall i, j :: 0 <= i < j < |hosts| ==> KeyOf(hosts[i]) != KeyOf(hosts[j])
  }

  lemma {:induction false} OneSortedArrangement(a: seq<PlacementHost>, b: seq<PlacementHost>)
    requires multiset(a) == multiset(b) && SortedByKey(a) && SortedByKey(b) && DistinctKeys(a) && DistinctKeys(b)
    ensures a == b
    decreases |a|
  {
    assert |multiset(a)| == |a| && |multiset(b)| == |b|;
    if a != [] {
      SameFirst(a, b);
      OneSortedArrangement(a[1..], b[1..]);
    }
  }

  lemma SameFirst(a: seq<PlacementHost>, b: seq<PlacementHost>)
    requires multiset(a) == multiset(b) && SortedByKey(a) && SortedByKey(b) && DistinctKeys(b)
    requires a != [] && b != []
    ensures a[0] == b[0] && multiset(a[1..]) == multiset(b[1..])
    ensures a == [a[0]] + a[1..] && b == [b[0]] + b[1..]
  {
    FirstIsLeast(a, b);
    FirstIsLeast(b, a);
    TextLessTotal(KeyOf(a[0]), KeyOf(b[0]));
    assert a[0] in multiset(b);
    var k :| 0 <= k < |b| && b[k] == a[0];
    assert a == [a[0]] + a[1..] && b == [b[0]] + b[1..];
    assert multiset(a[1..]) == multiset(a) - multiset{a[0]};
    assert multiset(b[1..]) == multiset(b) - multiset{b[0]};
  }

  lemma FirstIsLeast(a: seq<PlacementHost>, b: seq<PlacementHost>)
    requires multiset(a) == multiset(b) && SortedByKey(a) && a != [] && b != []
    ensures !TextLess(KeyOf(b[0]), KeyOf(a[0]))
  {
    assert b[0] in multiset(a);
    var j :| 0 <= j < |a| && a[j] == b[0];
    TextLessTotal(KeyOf(a[0]), KeyOf(a[0]));
  }

  lemma KeysOfPermutation(a: seq<PlacementHost>, b: seq<PlacementHost>)
    requires multiset(a) == multiset(b) && DistinctKeys(a)
    ensures DistinctKeys(b)
  {
    forall i, j | 0 <= i < j < |b| ensures KeyOf(b[i]) != KeyOf(b[j]) {
      if KeyOf(b[i]) == KeyOf(b[j]) {
        assert b[i] in multiset(a) && b[j] in multiset(a);
        var m :| 0 <= m < |a| && a[m] == b[i];
        var n :| 0 <= n < |a| && a[n] == b[j];
        OnceOnly(b, i, j);
        OnlyOnce(a, m);
      }
    }
  }

  // A host at two places occurs twice.
  lemma OnceOnly(b: seq<PlacementHost>, i: nat, j: nat)
    requires i < j < |b|
    ensures b[i] == b[j] ==> multiset(b)[b[i]] >= 2
  {
    assert b == b[..i] + [b[i]] + b[i + 1..j] + [b[j]] + b[j + 1..];
  }

  lemma OnlyOnce(a: seq<PlacementHost>, m: nat)
    requires m < |a| && DistinctKeys(a)
    ensures multiset(a)[a[m]] == 1
  {
    assert a == a[..m] + [a[m]] + a[m + 1..];
    assert a[m] !in a[..m] && a[m] !in a[m + 1..];
  }

  lemma OccupiedIsUnordered(ex: seq<PlacedReplica>, ey: seq<PlacedReplica>, h: PlacementHost, domain: Text)
    requires multiset(ex) == multiset(ey) && Occupied(ex, h, domain)
    ensures Occupied(ey, h, domain)
  {
    var i :| 0 <= i < |ex| && Occupies(ex[i], h, domain);
    assert ex[i] in multiset(ey);
    var j :| 0 <= j < |ey| && ey[j] == ex[i];
  }

  lemma EvaluationIsUnordered(s: ReplicaSetState, ex: seq<PlacedReplica>, ey: seq<PlacedReplica>, h: PlacementHost)
    requires multiset(ex) == multiset(ey)
    ensures Evaluated(s, ex, h) == Evaluated(s, ey, h)
  {
    forall domain: Text ensures Occupied(ex, h, domain) <==> Occupied(ey, h, domain) {
      if Occupied(ex, h, domain) { OccupiedIsUnordered(ex, ey, h, domain); }
      if Occupied(ey, h, domain) { OccupiedIsUnordered(ey, ex, h, domain); }
    }
    assert Diverse(s, ex, h) <==> Diverse(s, ey, h);
  }

  lemma OneBest(cands: seq<PlacementCandidate>, b: PlacementCandidate, c: PlacementCandidate)
    requires IsBest(cands, b) && IsBest(cands, c) && DistinctKeys(HostsOf(cands))
    requires b.summary == KeyOf(b.host) && c.summary == KeyOf(c.host)
    ensures b == c
  {
    var i :| 0 <= i < |cands| && cands[i] == b;
    var j :| 0 <= j < |cands| && cands[j] == c;
    assert !Better(cands[i], c) && !Better(cands[j], b);
    TextLessTotal(b.summary, c.summary);
    assert KeyOf(HostsOf(cands)[i]) == KeyOf(HostsOf(cands)[j]);
  }

  lemma CandidatesAreUnordered(s: ReplicaSetState, hosts: seq<PlacementHost>, hosts': seq<PlacementHost>,
                               existing: seq<PlacedReplica>, existing': seq<PlacedReplica>,
                               d: PlacementDecision, d': PlacementDecision)
    requires multiset(hosts) == multiset(hosts') && multiset(existing) == multiset(existing')
    requires DistinctKeys(hosts)
    requires Decides(s, hosts, existing, d) && Decides(s, hosts', existing', d')
    ensures d.candidates == d'.candidates && DistinctKeys(HostsOf(d.candidates))
  {
    KeysOfPermutation(hosts, HostsOf(d.candidates));
    KeysOfPermutation(hosts, HostsOf(d'.candidates));
    OneSortedArrangement(HostsOf(d.candidates), HostsOf(d'.candidates));
    forall i | 0 <= i < |d.candidates| ensures d.candidates[i] == d'.candidates[i] {
      assert HostsOf(d.candidates)[i] == HostsOf(d'.candidates)[i];
      EvaluationIsUnordered(s, existing, existing', d.candidates[i].host);
    }
  }

  lemma OneChoice(d: PlacementDecision, d': PlacementDecision)
    requires Chooses(d) && Chooses(d') && d.candidates == d'.candidates && DistinctKeys(HostsOf(d.candidates))
    requires forall i :: 0 <= i < |d.candidates| && d.candidates[i].eligible ==>
               d.candidates[i].summary == KeyOf(d.candidates[i].host)
    ensures d == d'
  {
    if d.placed {
      var b :| IsBest(d.candidates, b) && d.chosen == Some(b.host);
      var c :| IsBest(d.candidates, c) && d'.chosen == Some(c.host);
      OneBest(d.candidates, b, c);
    }
  }

  // With distinct keys, the whole decision, every candidate with its factors included, is the same
  // for every arrangement of the hosts and of the replicas already placed.
  lemma DecisionIsUnordered(s: ReplicaSetState, hosts: seq<PlacementHost>, hosts': seq<PlacementHost>,
                            existing: seq<PlacedReplica>, existing': seq<PlacedReplica>,
                            d: PlacementDecision, d': PlacementDecision)
    requires multiset(hosts) == multiset(hosts') && multiset(existing) == multiset(existing')
    requires DistinctKeys(hosts)
    requires Decides(s, hosts, existing, d) && Decides(s, hosts', existing', d')
    ensures d == d'
  {
    CandidatesAreUnordered(s, hosts, hosts', existing, existing', d, d');
    OneChoice(d, d');
  }

  // ----- Normalised scores -----

  predicate Normalised(x: real) {
    0.0 <= x <= 1.0
  }

  function Capability(c: ComputeCapability): int {
    var major: int := c.major;
    major * 10 + c.minor
  }

  // Scores are documented as lying between 0 and 1. They do exactly when the host reports no more
  // free than total memory (or no memory at all) and no negative compute capability.
  lemma ScoresAreNormalised(s: ReplicaSetState, existing: seq<PlacedReplica>, h: PlacementHost)
    ensures (forall i :: 0 <= i < 6 ==> Normalised(Factors(s, existing, h)[i].score)) <==>
            (h.inventory.totalMemoryBytes == 0 || h.inventory.freeMemoryBytes <= h.inventory.totalMemoryBytes) &&
            Capability(h.device.compute) >= 0
  {
    var fs := Factors(s, existing, h);
    MemoryIsNormalised(h);
    CapabilityIsNormalised(h);
    LocalityIsNormalised(h);
    assert fs[0].score == MemoryScore(h) && fs[1].score == CapabilityScore(h) && fs[3].score == LocalityScore(h);
    assert Normalised(fs[2].score) && Normalised(fs[4].score) && Normalised(fs[5].score);
  }

  lemma MemoryIsNormalised(h: PlacementHost)
    ensures Normalised(MemoryScore(h)) <==>
            h.inventory.totalMemoryBytes == 0 || h.inventory.freeMemoryBytes <= h.inventory.totalMemoryBytes
  {
    if h.inventory.totalMemoryBytes != 0 {
      Quotient(h.inventory.freeMemoryBytes as real, h.inventory.totalMemoryBytes as real);
    }
  }

  lemma Quotient(a: real, b: real)
    requires a >= 0.0 && b > 0.0
    ensures a / b >= 0.0 && (a / b <= 1.0 <==> a <= b)
  {
    var q := a / b;
    assert q * b == a;
    if q < 0.0 { ScaledOrder(b, 0.0, q); }
    if q <= 1.0 { ScaledOrder(b, 1.0, q); } else { ScaledOrder(b, q, 1.0); }
  }

  lemma CapabilityIsNormalised(h: PlacementHost)
    ensures Normalised(CapabilityScore(h)) <==> Capability(h.device.compute) >= 0
  {
    var major: int, minor: int := h.device.compute.major, h.device.compute.minor;
    assert major as real * 10.0 + minor as real == (major * 10 + minor) as real;
  }

  lemma LocalityIsNormalised(h: PlacementHost)
    ensures Normalised(LocalityScore(h))
  {
    if h.artifactDistance != 0 {
      Quotient(1.0, 1.0 + h.artifactDistance as real);
    }
  }
}
