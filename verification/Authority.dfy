// Guarded lifecycle transitions, typed compatibility and the serving-authority gate.

// include/replicafabric/authority/transition.hpp
module Transition {
  import opened Enums

  predicate CanTransitionSet(from: ReplicaSetLifecycle, to: ReplicaSetLifecycle) {
    match from
    case Created => to.Provisioning?
    case Provisioning => to.Available? || to.Degraded? || to.Failed? || to.Retired?
    case Available => to.Degraded? || to.Draining? || to.Retired?
    case Degraded => to.Available? || to.Draining? || to.Retired? || to.Failed?
    case Draining => to.Retired? || to.Available?
    case Retired => false
    case Failed => to.Retired?
  }

  predicate CanTransition(from: ReplicaLifecycle, to: ReplicaLifecycle) {
    match from
    case Declared => to.Allocating? || to.Starting? || to.Failed? || to.Retired?
    case Allocating => to.Starting? || to.Failed? || to.Retired?
    case Starting => to.Warming? || to.Ready? || to.Failed? || to.Retired?
    case Warming => to.Ready? || to.Starting? || to.Failed? || to.Retired?
    case Ready => to.Serving? || to.Warming? || to.Draining? || to.Failed? || to.Retired?
    case Serving => to.Ready? || to.Draining? || to.Failed? || to.Retired?
    case Draining => to.Quiesced? || to.Ready? || to.Failed? || to.Retired?
    case Quiesced => to.Retired? || to.Ready?
    case Failed => to.Retired?
    case Retired => false
  }

  // The phase of a replica's life. Stepping inside {Starting, Warming, Ready} keeps the phase.
  function Phase(l: ReplicaLifecycle): nat {
    match l
    case Declared => 0
    case Allocating => 1
    case Starting => 2
    case Warming => 2
    case Ready => 2
    case Serving => 3
    case Draining => 4
    case Quiesced => 5
    case Failed => 5
    case Retired => 6
  }
}

// include/replicafabric/core/compatibility.hpp
module Compatibility {
  import opened Base
  import opened Enums
  import opened Records

  datatype CompatibilityIssue =
    | ModelMismatch | RevisionMismatch | TokenizerMismatch | AdapterMissing | BackendMismatch | RuntimeMismatch
    | ArchitectureMismatch | ComputeTooLow | NumericMismatch | ArtifactGenerationMismatch | KernelAbiMismatch
    | PolicyFingerprintMismatch

  datatype CompatibilityResult = CompatibilityResult(compatible: bool, issues: seq<CompatibilityIssue>)

  // What a replica set demands of a replica it may promote.
  predicate Compatible(req: CompatibilityRequirements, got: ReplicaCompatibility) {
    && got.modelId == req.modelId
    && got.modelRevision == req.modelRevision
    && got.tokenizerVocab == req.tokenizerVocab
    && (forall a :: a in req.requiredAdapters ==> a in got.adapters)
    && got.backend == req.backend
    && got.runtimeName == req.runtimeName
    && got.architecture == req.architecture
    && !got.compute.Less(req.minCompute)
    && got.numericMode == req.numericMode
    && got.artifactGeneration == req.artifactGeneration
    && got.kernelAbi == req.kernelAbi
    && got.policyFingerprint == req.policyFingerprint
  }

  // How many required adapters are absent, counting repetitions of the requirement.
  function Missing(required: seq<Text>, present: seq<Text>): (n: nat)
    ensures n == 0 <==> forall a :: a in required ==> a in present
  {
    if required == [] then 0 else
      var n := Missing(required[..|required| - 1], present);
      assert required == required[..|required| - 1] + [required[|required| - 1]];
      n + (if required[|required| - 1] in present then 0 else 1)
  }

  function Repeated(issue: CompatibilityIssue, n: nat): (s: seq<CompatibilityIssue>)
    ensures |s| == n && forall i :: 0 <= i < n ==> s[i] == issue
  {
    seq(n, i => issue)
  }

  function ReportIf(bad: bool, issue: CompatibilityIssue): seq<CompatibilityIssue> {
    if bad then [issue] else []
  }

  // The issues of a pair, in the order in which they are reported.
  function Issues(req: CompatibilityRequirements, got: ReplicaCompatibility): seq<CompatibilityIssue> {
    ReportIf(got.modelId != req.modelId, ModelMismatch)
    + ReportIf(got.modelRevision != req.modelRevision, RevisionMismatch)
    + ReportIf(got.tokenizerVocab != req.tokenizerVocab, TokenizerMismatch)
    + Repeated(AdapterMissing, Missing(req.requiredAdapters, got.adapters))
    + ReportIf(got.backend != req.backend, BackendMismatch)
    + ReportIf(got.runtimeName != req.runtimeName, RuntimeMismatch)
    + ReportIf(got.architecture != req.architecture, ArchitectureMismatch)
    + ReportIf(got.compute.Less(req.minCompute), ComputeTooLow)
    + ReportIf(got.numericMode != req.numericMode, NumericMismatch)
    + ReportIf(got.artifactGeneration != req.artifactGeneration, ArtifactGenerationMismatch)
    + ReportIf(got.kernelAbi != req.kernelAbi, KernelAbiMismatch)
    + ReportIf(got.policyFingerprint != req.policyFingerprint, PolicyFingerprintMismatch)
  }

  // Nothing is reported exactly when every requirement is met, whatever the adapters repeat.
  lemma NoIssuesMeansCompatible(req: CompatibilityRequirements, got: ReplicaCompatibility)
    ensures Issues(req, got) == [] <==> Compatible(req, got)
  {
    var missing := Missing(req.requiredAdapters, got.adapters);
    assert |Issues(req, got)| >= missing;
    assert missing == 0 <==> forall a :: a in req.requiredAdapters ==> a in got.adapters;
  }

  // A replica that deviates in one field is told so, by the name of that field.
  lemma DeviationsByName(req: CompatibilityRequirements, got: ReplicaCompatibility)
    requires Compatible(req, got)
    ensures forall x :: x != req.modelId ==> Issues(req, got.(modelId := x)) == [ModelMismatch]
    ensures forall x :: x != req.modelRevision ==> Issues(req, got.(modelRevision := x)) == [RevisionMismatch]
    ensures forall x :: x != req.tokenizerVocab ==> Issues(req, got.(tokenizerVocab := x)) == [TokenizerMismatch]
    ensures forall x :: x != req.backend ==> Issues(req, got.(backend := x)) == [BackendMismatch]
    ensures forall x :: x != req.runtimeName ==> Issues(req, got.(runtimeName := x)) == [RuntimeMismatch]
    ensures forall x :: x != req.architecture ==> Issues(req, got.(architecture := x)) == [ArchitectureMismatch]
    ensures forall x :: x != req.numericMode ==> Issues(req, got.(numericMode := x)) == [NumericMismatch]
    ensures forall x :: x != req.artifactGeneration ==> Issues(req, got.(artifactGeneration := x)) == [ArtifactGenerationMismatch]
    ensures forall x :: x != req.kernelAbi ==> Issues(req, got.(kernelAbi := x)) == [KernelAbiMismatch]
    ensures forall x :: x != req.policyFingerprint ==> Issues(req, got.(policyFingerprint := x)) == [PolicyFingerprintMismatch]
    ensures forall x: ComputeCapability ::
              x.major < req.minCompute.major || (x.major == req.minCompute.major && x.minor < req.minCompute.minor) ==>
              Issues(req, got.(compute := x)) == [ComputeTooLow]
    ensures var issues := Issues(req, got.(adapters := []));
      |issues| == |req.requiredAdapters| && forall i :: 0 <= i < |issues| ==> issues[i] == AdapterMissing
  {
    NoneOffered(req.requiredAdapters);
  }

  lemma {:induction false} NoneOffered(required: seq<Text>)
    ensures Missing(required, []) == |required|
  {
    if required != [] { NoneOffered(required[..|required| - 1]); }
  }

  method CountMissing(required: seq<Text>, present: seq<Text>) returns (n: nat)
    ensures n == Missing(required, present)
  {
    n := 0;
    for i := 0 to |required|
      invariant n == Missing(required[..i], present)
    {
      assert required[..i + 1][..i] == required[..i];
      var found := false;
      for j := 0 to |present|
        invariant found <==> required[i] in present[..j]
      {
        if present[j] == required[i] { found := true; }
      }
      if !found { n := n + 1; }
    }
    assert required[..|required|] == required;
  }

  // The typed evaluation: reasons in order, and a verdict that is exactly `Compatible`.
  method CheckCompatibility(req: CompatibilityRequirements, got: ReplicaCompatibility)
    returns (res: CompatibilityResult)
    ensures res.issues == Issues(req, got)
    ensures res.compatible <==> Compatible(req, got)
  {
    var issues := ReportIf(got.modelId != req.modelId, ModelMismatch);
    issues := issues + ReportIf(got.modelRevision != req.modelRevision, RevisionMismatch);
    issues := issues + ReportIf(got.tokenizerVocab != req.tokenizerVocab, TokenizerMismatch);
    var missing := CountMissing(req.requiredAdapters, got.adapters);
    issues := issues + Repeated(AdapterMissing, missing);
    issues := issues + ReportIf(got.backend != req.backend, BackendMismatch);
    issues := issues + ReportIf(got.runtimeName != req.runtimeName, RuntimeMismatch);
    issues := issues + ReportIf(got.architecture != req.architecture, ArchitectureMismatch);
    issues := issues + ReportIf(got.compute.Less(req.minCompute), ComputeTooLow);
    issues := issues + ReportIf(got.numericMode != req.numericMode, NumericMismatch);
    issues := issues + ReportIf(got.artifactGeneration != req.artifactGeneration, ArtifactGenerationMismatch);
    issues := issues + ReportIf(got.kernelAbi != req.kernelAbi, KernelAbiMismatch);
    issues := issues + ReportIf(got.policyFingerprint != req.policyFingerprint, PolicyFingerprintMismatch);
    NoIssuesMeansCompatible(req, got);
    res := CompatibilityResult(issues == [], issues);
  }
}

// include/replicafabric/authority/serving_authority.hpp
module Authority {
  import opened Base
  import opened Identity
  import opened Enums
  import opened Records

  datatype FactorName =
    | SetLifecycle | CoordinatorEpoch | SetGeneration | ReplicaGeneration | ArtifactGeneration | HealthGeneration
    | PolicyGeneration | PolicyFingerprint | WorkerBoot | Lifecycle | Health | Readiness | Warmth | Promotion
    | ServingFlag | Placement

  datatype AuthorityFactor = AuthorityFactor(name: FactorName, satisfied: bool)

  datatype AuthorityContext = AuthorityContext(
    epoch: Epoch, setGeneration: Generation, policyGeneration: Generation, artifactGeneration: Generation,
    healthGeneration: Generation, workerBoot: WorkerBootId, policyFingerprint: Text)

  datatype Rejection = NotRejected | UnknownReplica | UnknownSet | Unsatisfied(name: FactorName)

  datatype Decision = Decision(eligible: bool, factors: seq<AuthorityFactor>, rejection: Rejection)

  predicate SetCanServe(l: ReplicaSetLifecycle) {
    l.Available? || l.Degraded?
  }

  predicate HealthOk(h: HealthState) {
    h.Healthy? || h.Degraded?
  }

  // What each factor demands.
  predicate Holds(name: FactorName, r: ReplicaState, s: ReplicaSetState, cur: AuthorityContext) {
    match name
    case SetLifecycle => SetCanServe(s.lifecycle)
    case CoordinatorEpoch => r.coordinatorEpoch == cur.epoch
    case SetGeneration => r.setGeneration == cur.setGeneration
    case ReplicaGeneration => !r.generation.IsNull()
    case ArtifactGeneration =>
      r.artifactGeneration == cur.artifactGeneration && r.artifactGeneration == s.artifactGeneration
    case HealthGeneration => r.healthGeneration == cur.healthGeneration
    case PolicyGeneration => r.policyGeneration == cur.policyGeneration
    case PolicyFingerprint =>
      r.policyFingerprint == cur.policyFingerprint && cur.policyFingerprint == s.compatibility.policyFingerprint
    case WorkerBoot => r.bootId == cur.workerBoot
    case Lifecycle => r.lifecycle.Serving?
    case Health => HealthOk(r.health)
    case Readiness => r.readiness.Ready?
    case Warmth => r.warmth.Warm?
    case Promotion => !r.promotion.NotPromoted?
    case ServingFlag => r.servingEligible
    case Placement => r.placement.Assigned?
  }

  // All sixteen factors at once.
  ghost predicate Authorised(r: ReplicaState, s: ReplicaSetState, cur: AuthorityContext) {
    forall name: FactorName :: Holds(name, r, s, cur)
  }

  function Factor(name: FactorName, r: ReplicaState, s: ReplicaSetState, cur: AuthorityContext): AuthorityFactor {
    AuthorityFactor(name, Holds(name, r, s, cur))
  }

  // The sixteen factors in the order in which they are reported.
  function IdentityFactors(r: ReplicaState, s: ReplicaSetState, cur: AuthorityContext): seq<AuthorityFactor> {
    [Factor(SetLifecycle, r, s, cur), Factor(CoordinatorEpoch, r, s, cur),
     Factor(SetGeneration, r, s, cur), Factor(ReplicaGeneration, r, s, cur)]
  }

  function GenerationFactors(r: ReplicaState, s: ReplicaSetState, cur: AuthorityContext): seq<AuthorityFactor> {
    [Factor(ArtifactGeneration, r, s, cur), Factor(HealthGeneration, r, s, cur),
     Factor(PolicyGeneration, r, s, cur), Factor(PolicyFingerprint, r, s, cur)]
  }

  function RuntimeFactors(r: ReplicaState, s: ReplicaSetState, cur: AuthorityContext): seq<AuthorityFactor> {
    [Factor(WorkerBoot, r, s, cur), Factor(Lifecycle, r, s, cur),
     Factor(Health, r, s, cur), Factor(Readiness, r, s, cur)]
  }

  function PromotionFactors(r: ReplicaState, s: ReplicaSetState, cur: AuthorityContext): seq<AuthorityFactor> {
    [Factor(Warmth, r, s, cur), Factor(Promotion, r, s, cur),
     Factor(ServingFlag, r, s, cur), Factor(Placement, r, s, cur)]
  }

  function Report(r: ReplicaState, s: ReplicaSetState, cur: AuthorityContext): (fs: seq<AuthorityFactor>)
    ensures |fs| == 16
  {
    IdentityFactors(r, s, cur) + GenerationFactors(r, s, cur) + RuntimeFactors(r, s, cur) + PromotionFactors(r, s, cur)
  }

  // What four further factors make of a decision.
  function Extended(d: Decision, fs: seq<AuthorityFactor>): Decision
    requires |fs| == 4
  {
    Decision(d.eligible && fs[0].satisfied && fs[1].satisfied && fs[2].satisfied && fs[3].satisfied,
             d.factors + fs,
             if !d.rejection.NotRejected? then d.rejection
             else if !fs[0].satisfied then Unsatisfied(fs[0].name)
             else if !fs[1].satisfied then Unsatisfied(fs[1].name)
             else if !fs[2].satisfied then Unsatisfied(fs[2].name)
             else if !fs[3].satisfied then Unsatisfied(fs[3].name)
             else NotRejected)
  }

  // The `add` lambda: list the factor; on a failure drop eligibility and keep the first reason.
  method Add(d: Decision, name: FactorName, ok: bool) returns (e: Decision)
    ensures e.factors == d.factors + [AuthorityFactor(name, ok)]
    ensures e.eligible <==> d.eligible && ok
    ensures e.rejection == if !ok && d.rejection.NotRejected? then Unsatisfied(name) else d.rejection
  {
    e := d.(factors := d.factors + [AuthorityFactor(name, ok)]);
    if !ok {
      e := e.(eligible := false);
      if e.rejection.NotRejected? {
        e := e.(rejection := Unsatisfied(name));
      }
    }
  }

  method AddIdentityFactors(d: Decision, r: ReplicaState, s: ReplicaSetState, cur: AuthorityContext) returns (e: Decision)
    ensures e == Extended(d, IdentityFactors(r, s, cur))
  {
    e := Add(d, SetLifecycle, s.lifecycle.Available? || s.lifecycle.Degraded?);
    e := Add(e, CoordinatorEpoch, r.coordinatorEpoch == cur.epoch);
    e := Add(e, SetGeneration, r.setGeneration == cur.setGeneration);
    e := Add(e, ReplicaGeneration, !r.generation.IsNull());
    assert e.factors == d.factors + IdentityFactors(r, s, cur);
  }

  method AddGenerationFactors(d: Decision, r: ReplicaState, s: ReplicaSetState, cur: AuthorityContext) returns (e: Decision)
    ensures e == Extended(d, GenerationFactors(r, s, cur))
  {
    e := Add(d, ArtifactGeneration,
             r.artifactGeneration == cur.artifactGeneration && r.artifactGeneration == s.artifactGeneration);
    e := Add(e, HealthGeneration, r.healthGeneration == cur.healthGeneration);
    e := Add(e, PolicyGeneration, r.policyGeneration == cur.policyGeneration);
    e := Add(e, PolicyFingerprint,
             r.policyFingerprint == cur.policyFingerprint && cur.policyFingerprint == s.compatibility.policyFingerprint);
    assert e.factors == d.factors + GenerationFactors(r, s, cur);
  }

  method AddRuntimeFactors(d: Decision, r: ReplicaState, s: ReplicaSetState, cur: AuthorityContext) returns (e: Decision)
    ensures e == Extended(d, RuntimeFactors(r, s, cur))
  {
    e := Add(d, WorkerBoot, r.bootId == cur.workerBoot);
    e := Add(e, Lifecycle, r.lifecycle.Serving?);
    e := Add(e, Health, r.health.Healthy? || r.health.Degraded?);
    e := Add(e, Readiness, r.readiness.Ready?);
    assert e.factors == d.factors + RuntimeFactors(r, s, cur);
  }

  method AddPromotionFactors(d: Decision, r: ReplicaState, s: ReplicaSetState, cur: AuthorityContext) returns (e: Decision)
    ensures e == Extended(d, PromotionFactors(r, s, cur))
  {
    e := Add(d, Warmth, r.warmth.Warm?);
    e := Add(e, Promotion, !r.promotion.NotPromoted?);
    e := Add(e, ServingFlag, r.servingEligible);
    e := Add(e, Placement, r.placement.Assigned?);
    assert e.factors == d.factors + PromotionFactors(r, s, cur);
  }

  // The decision lists every factor once, with a truthful verdict; it is eligible exactly when
  // all sixteen hold, and otherwise the rejection names the first that does not.
  method EvaluateServingAuthority(r: ReplicaState, s: ReplicaSetState, cur: AuthorityContext) returns (d: Decision)
    ensures d.factors == Report(r, s, cur)
    ensures d.eligible <==> Authorised(r, s, cur)
    ensures d.eligible <==> d.rejection.NotRejected?
    ensures !d.eligible ==> FirstFailure(d.factors, d.rejection)
  {
    d := Decision(true, [], NotRejected);
    d := AddIdentityFactors(d, r, s, cur);
    d := AddGenerationFactors(d, r, s, cur);
    d := AddRuntimeFactors(d, r, s, cur);
    d := AddPromotionFactors(d, r, s, cur);
    FourGroups(d, IdentityFactors(r, s, cur), GenerationFactors(r, s, cur), RuntimeFactors(r, s, cur),
               PromotionFactors(r, s, cur));
    ReportDecides(r, s, cur);
  }

  // The rejection names the first unsatisfied entry.
  predicate FirstFailure(fs: seq<AuthorityFactor>, rejection: Rejection) {
    exists i :: 0 <= i < |fs| && FailsFirstAt(fs, i) && rejection == Unsatisfied(fs[i].name)
  }

  predicate FailsFirstAt(fs: seq<AuthorityFactor>, i: nat)
    requires i < |fs|
  {
    !fs[i].satisfied && forall j :: 0 <= j < i ==> fs[j].satisfied
  }

  // Extending group by group keeps the conjunction and the first failure.
  ghost predicate Faithful(d: Decision) {
    && (d.eligible <==> forall i :: 0 <= i < |d.factors| ==> d.factors[i].satisfied)
    && (d.eligible <==> d.rejection.NotRejected?)
    && (!d.eligible ==> FirstFailure(d.factors, d.rejection))
  }

  lemma ExtendedIsFaithful(d: Decision, fs: seq<AuthorityFactor>)
    requires |fs| == 4 && Faithful(d)
    ensures Faithful(Extended(d, fs))
  {
    var (e, n) := (Extended(d, fs), |d.factors|);
    assert forall i :: 0 <= i < 4 ==> e.factors[n + i] == fs[i];
    assert forall i :: 0 <= i < n ==> e.factors[i] == d.factors[i];
    if !d.eligible {
      var i :| 0 <= i < n && FailsFirstAt(d.factors, i) && d.rejection == Unsatisfied(d.factors[i].name);
      assert FailsFirstAt(e.factors, i);
    } else if !e.eligible {
      var k := if !fs[0].satisfied then 0 else if !fs[1].satisfied then 1 else if !fs[2].satisfied then 2 else 3;
      assert FailsFirstAt(e.factors, n + k);
    }
  }

  lemma FourGroups(d: Decision, a: seq<AuthorityFactor>, b: seq<AuthorityFactor>, c: seq<AuthorityFactor>,
                   e: seq<AuthorityFactor>)
    requires |a| == |b| == |c| == |e| == 4
    requires d == Extended(Extended(Extended(Extended(Decision(true, [], NotRejected), a), b), c), e)
    ensures d.factors == a + b + c + e && Faithful(d)
  {
    var none := Decision(true, [], NotRejected);
    assert [] + a == a;
    ExtendedIsFaithful(none, a);
    ExtendedIsFaithful(Extended(none, a), b);
    ExtendedIsFaithful(Extended(Extended(none, a), b), c);
    ExtendedIsFaithful(Extended(Extended(Extended(none, a), b), c), e);
  }

  // The report decides authority: sixteen satisfied entries leave no factor unchecked, and
  // each entry says of its factor whether it holds.
  lemma ReportDecides(r: ReplicaState, s: ReplicaSetState, cur: AuthorityContext)
    ensures (forall i :: 0 <= i < 16 ==> Report(r, s, cur)[i].satisfied) <==> Authorised(r, s, cur)
    ensures forall i :: 0 <= i < 16 ==>
      Report(r, s, cur)[i].satisfied == Holds(Report(r, s, cur)[i].name, r, s, cur)
  {
    var (a, b) := (IdentityFactors(r, s, cur), GenerationFactors(r, s, cur));
    var (c, d) := (RuntimeFactors(r, s, cur), PromotionFactors(r, s, cur));
    assert forall i :: 0 <= i < 16 ==>
      (Report(r, s, cur)[i] ==
       if i < 4 then a[i] else if i < 8 then b[i - 4] else if i < 12 then c[i - 8] else d[i - 12]);
    if forall i :: 0 <= i < 16 ==> Report(r, s, cur)[i].satisfied {
      forall name: FactorName ensures Holds(name, r, s, cur) {
        ReportCovers(name, r, s, cur);
      }
    }
  }

  lemma ReportCovers(name: FactorName, r: ReplicaState, s: ReplicaSetState, cur: AuthorityContext)
    requires forall i :: 0 <= i < 16 ==> Report(r, s, cur)[i].satisfied
    ensures Holds(name, r, s, cur)
  {
    var fs := Report(r, s, cur);
    match name
    case SetLifecycle => assert fs[0] == Factor(SetLifecycle, r, s, cur);
    case CoordinatorEpoch => assert fs[1] == Factor(CoordinatorEpoch, r, s, cur);
    case SetGeneration => assert fs[2] == Factor(SetGeneration, r, s, cur);
    case ReplicaGeneration => assert fs[3] == Factor(ReplicaGeneration, r, s, cur);
    case ArtifactGeneration => assert fs[4] == Factor(ArtifactGeneration, r, s, cur);
    case HealthGeneration => assert fs[5] == Factor(HealthGeneration, r, s, cur);
    case PolicyGeneration => assert fs[6] == Factor(PolicyGeneration, r, s, cur);
    case PolicyFingerprint => assert fs[7] == Factor(PolicyFingerprint, r, s, cur);
    case WorkerBoot => assert fs[8] == Factor(WorkerBoot, r, s, cur);
    case Lifecycle => assert fs[9] == Factor(Lifecycle, r, s, cur);
    case Health => assert fs[10] == Factor(Health, r, s, cur);
    case Readiness => assert fs[11] == Factor(Readiness, r, s, cur);
    case Warmth => assert fs[12] == Factor(Warmth, r, s, cur);
    case Promotion => assert fs[13] == Factor(Promotion, r, s, cur);
    case ServingFlag => assert fs[14] == Factor(ServingFlag, r, s, cur);
    case Placement => assert fs[15] == Factor(Placement, r, s, cur);
  }

  // ----- The factors in record fields -----

  lemma AuthorityInFields(r: ReplicaState, s: ReplicaSetState, cur: AuthorityContext)
    ensures Authorised(r, s, cur) <==>
      && (s.lifecycle == Available || s.lifecycle == ReplicaSetLifecycle.Degraded)
      && r.coordinatorEpoch == cur.epoch && r.setGeneration == cur.setGeneration && r.generation != NULL_ID
      && r.artifactGeneration == cur.artifactGeneration == s.artifactGeneration
      && r.healthGeneration == cur.healthGeneration && r.policyGeneration == cur.policyGeneration
      && r.policyFingerprint == cur.policyFingerprint == s.compatibility.policyFingerprint
      && r.bootId == cur.workerBoot && r.lifecycle == Serving
      && (r.health == Healthy || r.health == HealthState.Degraded)
      && r.readiness == ReadinessState.Ready && r.warmth == Warm && r.promotion != NotPromoted
      && r.servingEligible && r.placement == Assigned
  {
    AuthorisedIsAll(r, s, cur);
  }

  lemma AuthorisedIsAll(r: ReplicaState, s: ReplicaSetState, cur: AuthorityContext)
    ensures Authorised(r, s, cur) <==>
      && Holds(SetLifecycle, r, s, cur) && Holds(CoordinatorEpoch, r, s, cur) && Holds(SetGeneration, r, s, cur)
      && Holds(ReplicaGeneration, r, s, cur) && Holds(ArtifactGeneration, r, s, cur)
      && Holds(HealthGeneration, r, s, cur) && Holds(PolicyGeneration, r, s, cur)
      && Holds(PolicyFingerprint, r, s, cur) && Holds(WorkerBoot, r, s, cur) && Holds(Lifecycle, r, s, cur)
      && Holds(FactorName.Health, r, s, cur) && Holds(Readiness, r, s, cur) && Holds(Warmth, r, s, cur)
      && Holds(Promotion, r, s, cur) && Holds(ServingFlag, r, s, cur) && Holds(FactorName.Placement, r, s, cur)
  {
  }

  lemma IdentityFactorsInFields(r: ReplicaState, s: ReplicaSetState, cur: AuthorityContext)
    ensures IdentityFactors(r, s, cur) == [
      AuthorityFactor(SetLifecycle, s.lifecycle == Available || s.lifecycle == ReplicaSetLifecycle.Degraded),
      AuthorityFactor(CoordinatorEpoch, r.coordinatorEpoch == cur.epoch),
      AuthorityFactor(SetGeneration, r.setGeneration == cur.setGeneration),
      AuthorityFactor(ReplicaGeneration, r.generation != NULL_ID)]
  {
  }

  lemma GenerationFactorsInFields(r: ReplicaState, s: ReplicaSetState, cur: AuthorityContext)
    ensures GenerationFactors(r, s, cur) == [
      AuthorityFactor(ArtifactGeneration, r.artifactGeneration == cur.artifactGeneration == s.artifactGeneration),
      AuthorityFactor(HealthGeneration, r.healthGeneration == cur.healthGeneration),
      AuthorityFactor(PolicyGeneration, r.policyGeneration == cur.policyGeneration),
      AuthorityFactor(PolicyFingerprint,
                      r.policyFingerprint == cur.policyFingerprint == s.compatibility.policyFingerprint)]
  {
  }

  lemma RuntimeFactorsInFields(r: ReplicaState, s: ReplicaSetState, cur: AuthorityContext)
    ensures RuntimeFactors(r, s, cur) == [
      AuthorityFactor(WorkerBoot, r.bootId == cur.workerBoot),
      AuthorityFactor(Lifecycle, r.lifecycle == Serving),
      AuthorityFactor(FactorName.Health, r.health == Healthy || r.health == HealthState.Degraded),
      AuthorityFactor(Readiness, r.readiness == ReadinessState.Ready)]
  {
  }

  lemma PromotionFactorsInFields(r: ReplicaState, s: ReplicaSetState, cur: AuthorityContext)
    ensures PromotionFactors(r, s, cur) == [
      AuthorityFactor(Warmth, r.warmth == Warm),
      AuthorityFactor(Promotion, r.promotion != NotPromoted),
      AuthorityFactor(ServingFlag, r.servingEligible),
      AuthorityFactor(FactorName.Placement, r.placement == Assigned)]
  {
  }

  // The report: sixteen names in this order, each with what it means.
  lemma ReportInFields(r: ReplicaState, s: ReplicaSetState, cur: AuthorityContext)
    ensures Report(r, s, cur)[..4] == [
      AuthorityFactor(SetLifecycle, s.lifecycle == Available || s.lifecycle == ReplicaSetLifecycle.Degraded),
      AuthorityFactor(CoordinatorEpoch, r.coordinatorEpoch == cur.epoch),
      AuthorityFactor(SetGeneration, r.setGeneration == cur.setGeneration),
      AuthorityFactor(ReplicaGeneration, r.generation != NULL_ID)]
    ensures Report(r, s, cur)[4..8] == [
      AuthorityFactor(ArtifactGeneration, r.artifactGeneration == cur.artifactGeneration == s.artifactGeneration),
      AuthorityFactor(HealthGeneration, r.healthGeneration == cur.healthGeneration),
      AuthorityFactor(PolicyGeneration, r.policyGeneration == cur.policyGeneration),
      AuthorityFactor(PolicyFingerprint,
                      r.policyFingerprint == cur.policyFingerprint == s.compatibility.policyFingerprint)]
    ensures Report(r, s, cur)[8..12] == [
      AuthorityFactor(WorkerBoot, r.bootId == cur.workerBoot),
      AuthorityFactor(Lifecycle, r.lifecycle == Serving),
      AuthorityFactor(FactorName.Health, r.health == Healthy || r.health == HealthState.Degraded),
      AuthorityFactor(Readiness, r.readiness == ReadinessState.Ready)]
    ensures Report(r, s, cur)[12..] == [
      AuthorityFactor(Warmth, r.warmth == Warm),
      AuthorityFactor(Promotion, r.promotion != NotPromoted),
      AuthorityFactor(ServingFlag, r.servingEligible),
      AuthorityFactor(FactorName.Placement, r.placement == Assigned)]
  {
    var (a, b) := (IdentityFactors(r, s, cur), GenerationFactors(r, s, cur));
    var (c, d) := (RuntimeFactors(r, s, cur), PromotionFactors(r, s, cur));
    InFour(a, b, c, d);
    IdentityFactorsInFields(r, s, cur);
    GenerationFactorsInFields(r, s, cur);
    RuntimeFactorsInFields(r, s, cur);
    PromotionFactorsInFields(r, s, cur);
  }

  lemma InFour<T>(a: seq<T>, b: seq<T>, c: seq<T>, d: seq<T>)
    requires |a| == |b| == |c| == 4
    ensures var t := a + b + c + d; t[..4] == a && t[4..8] == b && t[8..12] == c && t[12..] == d
  {
  }
}
