// What a placement decision means for the hosts, in their own fields: which host is turned away and
// why, what each factor is worth, and which of two hosts cannot be chosen.
module PlacementLaws {
  import opened Base
  import opened Identity
  import opened Enums
  import opened Records
  import opened Placement

  // ----- Hard constraints -----

  // A requirement of 2^31 accelerators or more turns into a negative number.
  predicate Suits(s: ReplicaSetState, h: PlacementHost) {
    && (s.backend == NoBackend || exists b <- h.inventory.backends :: b.kind == s.backend)
    && (h.device.compute.major > s.minCompute.major ||
        (h.device.compute.major == s.minCompute.major && h.device.compute.minor >= s.minCompute.minor))
    && h.inventory.freeMemoryBytes >= s.memoryRequirementBytes
    && h.inventory.acceleratorCount >=
       if s.acceleratorRequirement < 0x8000_0000 then s.acceleratorRequirement
       else s.acceleratorRequirement - 0x1_0000_0000
  }

  lemma SuitsIsMeets(s: ReplicaSetState, h: PlacementHost)
    ensures Suits(s, h) <==> Meets(s, h)
  {
    assert forall i :: 0 <= i < |h.inventory.backends| ==> h.inventory.backends[i] in h.inventory.backends;
  }

  // The first constraint that fails, in this order, is the reason given.
  lemma ReasonsInOrder(s: ReplicaSetState, hosts: seq<PlacementHost>, existing: seq<PlacedReplica>,
                       d: PlacementDecision, c: PlacementCandidate)
    requires Decides(s, hosts, existing, d) && c in d.candidates
    ensures var h := c.host;
      && (c.eligible <==> Suits(s, h)) && (c.rejection == NotRejected <==> Suits(s, h))
      && (c.rejection == MissingBackend <==>
            s.backend != NoBackend && forall b <- h.inventory.backends :: b.kind != s.backend)
      && (c.rejection in {NotRejected, MemoryTooLow, AcceleratorsTooFew} ==>
            h.device.compute.major > s.minCompute.major ||
            (h.device.compute.major == s.minCompute.major && h.device.compute.minor >= s.minCompute.minor))
      && (c.rejection == MemoryTooLow ==> h.inventory.freeMemoryBytes < s.memoryRequirementBytes)
      && (c.rejection == AcceleratorsTooFew ==> h.inventory.freeMemoryBytes >= s.memoryRequirementBytes)
  {
    var i :| 0 <= i < |d.candidates| && d.candidates[i] == c;
    var backends := c.host.inventory.backends;
    assert c == Evaluated(s, existing, c.host);
    SuitsIsMeets(s, c.host);
    assert forall i :: 0 <= i < |backends| ==> backends[i] in backends;
    if b :| b in backends && b.kind == s.backend {
      var j :| 0 <= j < |backends| && backends[j] == b;
    }
  }

  // ----- Anti-affinity -----

  // A placed replica sits in the domain of `h` that `name` stands for: the same host, NUMA node or
  // device if it has one, any common label for a rack, or the label `name` itself.
  predicate Shares(name: Text, e: PlacedReplica, h: PlacementHost) {
    || (name == [104, 111, 115, 116] && e.host == h.host && e.host != [])                   // "host"
    || (name == [110, 117, 109, 97] && e.numa == h.numa && e.numa != [])                    // "numa"
    || (name == [100, 101, 118, 105, 99, 101] && e.deviceId == h.device.deviceId && e.deviceId != []) // "device"
    || (name == [114, 97, 99, 107] && exists x <- e.failureDomainLabels :: x in h.failureDomainLabels) // "rack"
    || (name in e.failureDomainLabels && name in h.failureDomainLabels)
  }

  predicate Apart(s: ReplicaSetState, existing: seq<PlacedReplica>, h: PlacementHost) {
    forall name <- s.placementPolicy.antiAffinityDomains, e <- existing :: !Shares(name, e, h)
  }

  lemma ApartIsDiverse(s: ReplicaSetState, existing: seq<PlacedReplica>, h: PlacementHost)
    ensures Apart(s, existing, h) <==> Diverse(s, existing, h)
  {
    var names := s.placementPolicy.antiAffinityDomains;
    if Apart(s, existing, h) {
      forall i, j | 0 <= i < |names| && 0 <= j < |existing| ensures !Occupies(existing[j], h, names[i]) {
        assert names[i] in names && existing[j] in existing;
      }
    }
    if Diverse(s, existing, h) {
      forall name <- names, e <- existing ensures !Shares(name, e, h) {
        var i :| 0 <= i < |names| && names[i] == name;
        var j :| 0 <= j < |existing| && existing[j] == e;
        assert !Occupied(existing, h, names[i]) && !Occupies(existing[j], h, names[i]);
      }
    }
  }

  // ----- Factors -----

  function Wishes(p: PlacementPolicy, h: PlacementHost): nat {
    (if p.preferredHost != [] && p.preferredHost == h.host then 1 else 0) +
    (if p.preferredDevice != [] && p.preferredDevice == h.device.deviceId then 1 else 0) +
    (if p.preferredFailureDomain != [] && p.preferredFailureDomain in h.failureDomainLabels then 1 else 0)
  }

  // Six factors, their weights and their scores, in this order.
  lemma FactorsInFields(s: ReplicaSetState, existing: seq<PlacedReplica>, h: PlacementHost)
    ensures var fs := Factors(s, existing, h);
      var (free, total) := (h.inventory.freeMemoryBytes, h.inventory.totalMemoryBytes);
      var cap := h.device.compute.major as real * 10.0 + h.device.compute.minor as real;
      && |fs| == 6 && (forall f <- fs :: f.contribution == f.weight * f.score)
      && (fs[0].kind, fs[0].weight) == (FreeMemory, 3.0)
      && fs[0].score == (if total == 0 then 0.0 else free as real / total as real)
      && (fs[1].kind, fs[1].weight) == (AcceleratorCapability, 2.0)
      && fs[1].score == (if cap >= 200.0 then 1.0 else cap / 200.0)
      && (fs[2].kind, fs[2].weight, fs[2].score) == (WarmState, 2.5, if h.hasWarmModel then 1.0 else 0.0)
      && (fs[3].kind, fs[3].weight, fs[3].score) == (ArtifactLocality, 1.5, 1.0 / (1.0 + h.artifactDistance as real))
      && (fs[4].kind, fs[4].weight, fs[4].score) ==
           (FailureDomainDiversity, 4.0, if Apart(s, existing, h) then 1.0 else 0.0)
      && (fs[5].kind, fs[5].weight, fs[5].score) ==
           (Preference, 1.0, if Wishes(s.placementPolicy, h) >= 2 then 1.0
                             else 0.5 * Wishes(s.placementPolicy, h) as real)
  {
    ApartIsDiverse(s, existing, h);
    PowerInFields(h);
    DistanceInFields(h);
    WishesInFields(s.placementPolicy, h);
    ContributionsMultiply(s, existing, h);
  }

  lemma ContributionsMultiply(s: ReplicaSetState, existing: seq<PlacedReplica>, h: PlacementHost)
    ensures forall f <- Factors(s, existing, h) :: f.contribution == f.weight * f.score
  {
    forall f <- Factors(s, existing, h) ensures f.contribution == f.weight * f.score {
      var i :| 0 <= i < 6 && Factors(s, existing, h)[i] == f;
      assert f == Factor(f.kind, f.weight, f.score);
    }
  }

  lemma PowerInFields(h: PlacementHost)
    ensures var cap := h.device.compute.major as real * 10.0 + h.device.compute.minor as real;
      CapabilityScore(h) == if cap >= 200.0 then 1.0 else cap / 200.0
  {
  }

  lemma DistanceInFields(h: PlacementHost)
    ensures LocalityScore(h) == 1.0 / (1.0 + h.artifactDistance as real)
  {
  }

  lemma WishesInFields(p: PlacementPolicy, h: PlacementHost)
    ensures PreferenceScore(p, h) == if Wishes(p, h) >= 2 then 1.0 else 0.5 * Wishes(p, h) as real
  {
  }

  // The worth of a host is their weighted sum.
  lemma WorthInFields(s: ReplicaSetState, existing: seq<PlacedReplica>, h: PlacementHost)
    ensures var fs := Factors(s, existing, h);
      Worth(s, existing, h) == 3.0 * fs[0].score + 2.0 * fs[1].score + 2.5 * fs[2].score + 1.5 * fs[3].score
                               + 4.0 * fs[4].score + fs[5].score
  {
    var fs := Factors(s, existing, h);
    FactorsInFields(s, existing, h);
    assert forall i :: 0 <= i < 6 ==> fs[i] in fs;
    assert fs[..6] == fs;
    TotalStep(fs, 0); TotalStep(fs, 1); TotalStep(fs, 2); TotalStep(fs, 3); TotalStep(fs, 4); TotalStep(fs, 5);
  }

  lemma TotalStep(fs: seq<PlacementFactor>, k: nat)
    requires k < |fs|
    ensures Total(fs[..k + 1]) == Total(fs[..k]) + fs[k].contribution
  {
    assert fs[..k + 1][..k] == fs[..k];
  }

  // ----- Which of two hosts cannot be chosen -----

  // A compute capability in tens and ones. What lies above 200 no longer counts.
  function Tens(h: PlacementHost): int {
    var (major: int, minor: int) := (h.device.compute.major, h.device.compute.minor);
    major * 10 + minor
  }

  // `h` is no worse than `g` in any of the six respects. Memory is compared between hosts of one size.
  predicate NoWorse(s: ReplicaSetState, existing: seq<PlacedReplica>, h: PlacementHost, g: PlacementHost) {
    && h.inventory.totalMemoryBytes == g.inventory.totalMemoryBytes
    && h.inventory.freeMemoryBytes >= g.inventory.freeMemoryBytes
    && (Tens(h) >= 200 ||
        Tens(h) >= Tens(g))
    && (g.hasWarmModel ==> h.hasWarmModel)
    && h.artifactDistance <= g.artifactDistance
    && (Apart(s, existing, g) ==> Apart(s, existing, h))
    && (Wishes(s.placementPolicy, h) >= 2 || Wishes(s.placementPolicy, h) >= Wishes(s.placementPolicy, g))
  }

  // ... and better in one of them.
  predicate BetterOnce(s: ReplicaSetState, existing: seq<PlacedReplica>, h: PlacementHost, g: PlacementHost) {
    || (h.inventory.totalMemoryBytes > 0 && h.inventory.freeMemoryBytes > g.inventory.freeMemoryBytes)
    || (Tens(g) < 200 &&
        Tens(h) > Tens(g))
    || (h.hasWarmModel && !g.hasWarmModel)
    || h.artifactDistance < g.artifactDistance
    || (Apart(s, existing, h) && !Apart(s, existing, g))
    || (Wishes(s.placementPolicy, g) < 2 && Wishes(s.placementPolicy, h) > Wishes(s.placementPolicy, g))
  }

  lemma QuotientOrder(a: real, b: real, c: real)
    requires c > 0.0
    ensures a >= b ==> a / c >= b / c
    ensures a > b ==> a / c > b / c
  {
    var (x, y) := (a / c, b / c);
    assert x * c == a && y * c == b;
    if x < y { assert (y - x) * c > 0.0; }
    if x == y { assert a == b; }
  }

  lemma ReciprocalOrder(m: nat, n: nat)
    ensures m <= n ==> 1.0 / (1.0 + m as real) >= 1.0 / (1.0 + n as real)
    ensures m < n ==> 1.0 / (1.0 + m as real) > 1.0 / (1.0 + n as real)
  {
    var (a, b) := (1.0 + m as real, 1.0 + n as real);
    var (x, y) := (1.0 / a, 1.0 / b);
    assert x * a == 1.0 && y * b == 1.0;
    assert x > 0.0 && y > 0.0;
    if m <= n {
      assert x * b >= x * a;
      assert (x - y) * b >= 0.0;
    }
    if m < n {
      assert x * b > x * a;
      assert (x - y) * b > 0.0;
    }
  }

  lemma MemoryOrder(s: ReplicaSetState, existing: seq<PlacedReplica>, h: PlacementHost, g: PlacementHost)
    requires h.inventory.totalMemoryBytes == g.inventory.totalMemoryBytes
    requires h.inventory.freeMemoryBytes >= g.inventory.freeMemoryBytes
    ensures var (x, y) := (Factors(s, existing, h)[0].score, Factors(s, existing, g)[0].score);
      && x >= y
      && (h.inventory.totalMemoryBytes > 0 && h.inventory.freeMemoryBytes > g.inventory.freeMemoryBytes ==> x > y)
  {
    var total := h.inventory.totalMemoryBytes;
    FactorsInFields(s, existing, h);
    FactorsInFields(s, existing, g);
    if total > 0 {
      QuotientOrder(h.inventory.freeMemoryBytes as real, g.inventory.freeMemoryBytes as real, total as real);
    }
  }

  lemma PowerOrder(s: ReplicaSetState, existing: seq<PlacedReplica>, h: PlacementHost, g: PlacementHost)
    ensures var (x, y) := (Factors(s, existing, h)[1].score, Factors(s, existing, g)[1].score);
      (Tens(h) >= 200 || Tens(h) >= Tens(g) ==> x >= y) && (Tens(g) < 200 && Tens(h) > Tens(g) ==> x > y)
  {
    FactorsInFields(s, existing, h);
    FactorsInFields(s, existing, g);
  }

  // A host that suits and is no worse in any respect and better in one keeps the other from being
  // chosen: nobody is placed beside a sibling, on less memory, on a slower device, on a cold or
  // distant or less preferred host without something in return.
  lemma BetterHostWins(s: ReplicaSetState, hosts: seq<PlacementHost>, existing: seq<PlacedReplica>,
                       d: PlacementDecision, h: PlacementHost, g: PlacementHost)
    requires Decides(s, hosts, existing, d) && h in hosts && Suits(s, h)
    requires NoWorse(s, existing, h, g) && BetterOnce(s, existing, h, g)
    ensures d.chosen.Some? && d.chosen != Some(g)
  {
    SuitsIsMeets(s, h);
    ChosenIsUndominated(s, hosts, existing, d, h);
    BetterDominates(s, existing, h, g);
  }

  // Warmth, distance, separation and preference, score by score.
  lemma OtherOrders(s: ReplicaSetState, existing: seq<PlacedReplica>, h: PlacementHost, g: PlacementHost)
    requires NoWorse(s, existing, h, g)
    ensures var (fs, gs) := (Factors(s, existing, h), Factors(s, existing, g));
      && fs[2].score >= gs[2].score && (h.hasWarmModel && !g.hasWarmModel ==> fs[2].score > gs[2].score)
      && fs[3].score >= gs[3].score && (h.artifactDistance < g.artifactDistance ==> fs[3].score > gs[3].score)
      && fs[4].score >= gs[4].score
      && (Apart(s, existing, h) && !Apart(s, existing, g) ==> fs[4].score > gs[4].score)
      && fs[5].score >= gs[5].score
      && (Wishes(s.placementPolicy, g) < 2 && Wishes(s.placementPolicy, h) > Wishes(s.placementPolicy, g) ==>
            fs[5].score > gs[5].score)
  {
    FactorsInFields(s, existing, h);
    FactorsInFields(s, existing, g);
    ReciprocalOrder(h.artifactDistance, g.artifactDistance);
  }

  lemma BetterDominates(s: ReplicaSetState, existing: seq<PlacedReplica>, h: PlacementHost, g: PlacementHost)
    requires NoWorse(s, existing, h, g)
    ensures BetterOnce(s, existing, h, g) ==> Dominates(s, existing, h, g)
  {
    var (fs, gs) := (Factors(s, existing, h), Factors(s, existing, g));
    MemoryOrder(s, existing, h, g);
    PowerOrder(s, existing, h, g);
    OtherOrders(s, existing, h, g);
    SixOrders(fs, gs);
  }

  lemma SixOrders(fs: seq<PlacementFactor>, gs: seq<PlacementFactor>)
    requires |fs| == 6 && |gs| == 6
    ensures (&& fs[0].score >= gs[0].score && fs[1].score >= gs[1].score && fs[2].score >= gs[2].score
             && fs[3].score >= gs[3].score && fs[4].score >= gs[4].score && fs[5].score >= gs[5].score) ==>
            forall i :: 0 <= i < 6 ==> fs[i].score >= gs[i].score
    ensures (|| fs[0].score > gs[0].score || fs[1].score > gs[1].score || fs[2].score > gs[2].score
             || fs[3].score > gs[3].score || fs[4].score > gs[4].score || fs[5].score > gs[5].score) ==>
            exists i :: 0 <= i < 6 && fs[i].score > gs[i].score
  {
  }
}
