// The checkpoint file byte by byte, written down once more and independently of the codec: numbers,
// enumerators, the fields of every record in order, the tables, the frame and the polynomial. The
// lemmas say that these are the bytes the writer emits.
module FileFormat {
  import opened Base
  import opened Identity
  import opened Enums
  import opened Records
  import opened Wire
  import opened Layout
  import opened BodyLayout
  import opened ControllerModel
  import opened Snapshot
  import Crc

  // ----- Numbers -----

  // Numbers are written with the least significant byte first,
  lemma {:induction false} LittleEndianDigits(v: nat, n: nat, i: nat)
    requires i < n
    ensures LittleEndian(v, n)[i] == v / Pow256(i) % 256
  {
    if i > 0 {
      LittleEndianDigits(v / 256, n - 1, i - 1);
      DivideTwice(v, 256, Pow256(i - 1));
    }
  }

  // and identities with the most significant byte first.
  lemma {:induction false} BigEndianDigits(v: nat, n: nat, i: nat)
    requires i < n
    ensures BigEndian(v, n)[i] == v / Pow256(n - 1 - i) % 256
  {
    if i < n - 1 {
      BigEndianDigits(v / 256, n - 1, i);
      DivideTwice(v, 256, Pow256(n - 2 - i));
    }
  }

  lemma IdentityInBytes(id: Id, i: nat)
    requires i < 16
    ensures IdBytes(id)[i] ==
            if i < 8 then id.hi / Pow256(7 - i) % 256 else id.lo / Pow256(15 - i) % 256
  {
    if i < 8 { BigEndianDigits(id.hi, 8, i); } else { BigEndianDigits(id.lo, 8, i - 8); }
  }

  // A double is refused when, without its sign, it is at least the pattern of infinity.
  predicate IsNumber(d: Double) {
    d % 0x8000_0000_0000_0000 < 0x7FF0_0000_0000_0000
  }

  lemma FiniteDoubles(d: Double)
    ensures IsFinite(d) <==> IsNumber(d)
  {
  }

  // ----- Enumerators, by their place in the declaration -----

  const REPLICA_SET_LIFECYCLES: seq<ReplicaSetLifecycle> := [
    ReplicaSetLifecycle.Created, ReplicaSetLifecycle.Provisioning, ReplicaSetLifecycle.Available,
    ReplicaSetLifecycle.Degraded, ReplicaSetLifecycle.Draining, ReplicaSetLifecycle.Retired,
    ReplicaSetLifecycle.Failed]
  const REPLICA_LIFECYCLES: seq<ReplicaLifecycle> := [
    ReplicaLifecycle.Declared, ReplicaLifecycle.Allocating, ReplicaLifecycle.Starting, ReplicaLifecycle.Warming,
    ReplicaLifecycle.Ready, ReplicaLifecycle.Serving, ReplicaLifecycle.Draining, ReplicaLifecycle.Quiesced,
    ReplicaLifecycle.Failed, ReplicaLifecycle.Retired]
  const HEALTH_STATES: seq<HealthState> := [
    HealthState.Unknown, HealthState.Starting, HealthState.Healthy, HealthState.Degraded, HealthState.Unhealthy,
    HealthState.Failed, HealthState.Quarantined]
  const HEALTH_EVIDENCE_KINDS: seq<HealthEvidenceKind> := [
    HealthEvidenceKind.Unknown, HealthEvidenceKind.Measured, HealthEvidenceKind.Reported,
    HealthEvidenceKind.Derived, HealthEvidenceKind.Heuristic]
  const WARMTH_STATES: seq<WarmthState> := [
    WarmthState.Cold, WarmthState.Warming, WarmthState.Warm, WarmthState.StaleWarmth, WarmthState.Invalidated]
  const READINESS_STATES: seq<ReadinessState> := [
    ReadinessState.Unknown, ReadinessState.NotReady, ReadinessState.Ready]
  const PROMOTION_STATES: seq<PromotionState> := [
    PromotionState.NotPromoted, PromotionState.Standby, PromotionState.Canary, PromotionState.Replacement,
    PromotionState.Recovered, PromotionState.Primary]
  const REPLICA_ROLES: seq<ReplicaRole> := [
    ReplicaRole.Nobody, ReplicaRole.Primary, ReplicaRole.Secondary, ReplicaRole.Standby, ReplicaRole.Canary]
  const DRAIN_STATES: seq<DrainState> := [
    DrainState.NotDraining, DrainState.Draining, DrainState.Quiescing, DrainState.Quiesced, DrainState.Complete,
    DrainState.Cancelled]
  const FAILOVER_STATES: seq<FailoverState> := [
    FailoverState.Idle, FailoverState.Triggered, FailoverState.Selecting, FailoverState.Promoting,
    FailoverState.Complete, FailoverState.Failed]
  const WORK_OUTCOMES: seq<WorkOutcome> := [
    WorkOutcome.Unknown, WorkOutcome.Succeeded, WorkOutcome.Failed, WorkOutcome.Ambiguous]
  const MEMORY_RESIDENCY_STATES: seq<MemoryResidencyState> := [
    MemoryResidencyState.Unknown, MemoryResidencyState.NotResident, MemoryResidencyState.Resident,
    MemoryResidencyState.Evicted]
  const PLACEMENT_STATES: seq<PlacementState> := [
    PlacementState.Pending, PlacementState.Assigned, PlacementState.Failed, PlacementState.Invalidated]
  const ACCELERATOR_KINDS: seq<AcceleratorKind> := [
    AcceleratorKind.NoAccelerator, AcceleratorKind.Cpu, AcceleratorKind.Cuda, AcceleratorKind.Rocm,
    AcceleratorKind.Sycl, AcceleratorKind.Custom]
  const BACKEND_KINDS: seq<BackendKind> := [
    BackendKind.NoBackend, BackendKind.Triton, BackendKind.TensorRt, BackendKind.Onnx, BackendKind.Vllm,
    BackendKind.Custom]
  const NUMERIC_MODES: seq<NumericMode> := [
    NumericMode.Unknown, NumericMode.Fp32, NumericMode.Fp16, NumericMode.Bf16, NumericMode.Fp8, NumericMode.Int8,
    NumericMode.Mixed]

  ghost predicate StandsIn<T>(order: seq<T>, put: T -> Val, x: T) {
    put(x).VCode? && put(x).code < |order| && order[put(x).code] == x
  }

  ghost predicate Numbered<T(!new)>(order: seq<T>, put: T -> Val) {
    forall x: T :: StandsIn(order, put, x)
  }

  lemma LifecycleCodes()
    ensures Numbered(REPLICA_SET_LIFECYCLES, ReplicaSetLifecycleVal)
    ensures Numbered(REPLICA_LIFECYCLES, ReplicaLifecycleVal)
    ensures Numbered(HEALTH_STATES, HealthStateVal)
    ensures Numbered(HEALTH_EVIDENCE_KINDS, HealthEvidenceKindVal)
  {
    forall x: ReplicaSetLifecycle ensures StandsIn(REPLICA_SET_LIFECYCLES, ReplicaSetLifecycleVal, x) {}
    forall x: ReplicaLifecycle ensures StandsIn(REPLICA_LIFECYCLES, ReplicaLifecycleVal, x) {}
    forall x: HealthState ensures StandsIn(HEALTH_STATES, HealthStateVal, x) {}
    forall x: HealthEvidenceKind ensures StandsIn(HEALTH_EVIDENCE_KINDS, HealthEvidenceKindVal, x) {}
  }

  lemma AuthorityCodes()
    ensures Numbered(WARMTH_STATES, WarmthStateVal)
    ensures Numbered(READINESS_STATES, ReadinessStateVal)
    ensures Numbered(PROMOTION_STATES, PromotionStateVal)
    ensures Numbered(REPLICA_ROLES, ReplicaRoleVal)
  {
    forall x: WarmthState ensures StandsIn(WARMTH_STATES, WarmthStateVal, x) {}
    forall x: ReadinessState ensures StandsIn(READINESS_STATES, ReadinessStateVal, x) {}
    forall x: PromotionState ensures StandsIn(PROMOTION_STATES, PromotionStateVal, x) {}
    forall x: ReplicaRole ensures StandsIn(REPLICA_ROLES, ReplicaRoleVal, x) {}
  }

  lemma RecordCodes()
    ensures Numbered(DRAIN_STATES, DrainStateVal)
    ensures Numbered(FAILOVER_STATES, FailoverStateVal)
    ensures Numbered(WORK_OUTCOMES, WorkOutcomeVal)
    ensures Numbered(MEMORY_RESIDENCY_STATES, MemoryResidencyStateVal)
  {
    forall x: DrainState ensures StandsIn(DRAIN_STATES, DrainStateVal, x) {}
    forall x: FailoverState ensures StandsIn(FAILOVER_STATES, FailoverStateVal, x) {}
    forall x: WorkOutcome ensures StandsIn(WORK_OUTCOMES, WorkOutcomeVal, x) {}
    forall x: MemoryResidencyState ensures StandsIn(MEMORY_RESIDENCY_STATES, MemoryResidencyStateVal, x) {}
  }

  lemma ResourceCodes()
    ensures Numbered(PLACEMENT_STATES, PlacementStateVal)
    ensures Numbered(ACCELERATOR_KINDS, AcceleratorKindVal)
    ensures Numbered(BACKEND_KINDS, BackendKindVal)
    ensures Numbered(NUMERIC_MODES, NumericModeVal)
  {
    forall x: PlacementState ensures StandsIn(PLACEMENT_STATES, PlacementStateVal, x) {}
    forall x: AcceleratorKind ensures StandsIn(ACCELERATOR_KINDS, AcceleratorKindVal, x) {}
    forall x: BackendKind ensures StandsIn(BACKEND_KINDS, BackendKindVal, x) {}
    forall x: NumericMode ensures StandsIn(NUMERIC_MODES, NumericModeVal, x) {}
  }

  // ----- Primitives, strings and counted sequences -----

  function Flag(b: bool): seq<U8> { [if b then 1 else 0] }
  function Word(n: U32): seq<U8> { LittleEndian(n, 4) }
  function Long(n: U64): seq<U8> { LittleEndian(n, 8) }
  function String(t: Text): seq<U8> { LittleEndian(|t|, 8) + t }

  function Joined<T>(put: T -> seq<U8>, xs: seq<T>): seq<U8> {
    if xs == [] then [] else put(xs[0]) + Joined(put, xs[1..])
  }

  function Counted<T>(put: T -> seq<U8>, xs: seq<T>): seq<U8> {
    LittleEndian(|xs|, 8) + Joined(put, xs)
  }

  // One source line of fields, followed by the rest of the record.
  function Line2(a: seq<U8>, b: seq<U8>, rest: seq<U8>): seq<U8> { a + (b + rest) }

  function Line3(a: seq<U8>, b: seq<U8>, c: seq<U8>, rest: seq<U8>): seq<U8> { a + (b + (c + rest)) }

  function Line4(a: seq<U8>, b: seq<U8>, c: seq<U8>, d: seq<U8>, rest: seq<U8>): seq<U8> {
    a + (b + (c + (d + rest)))
  }

  function Line5(a: seq<U8>, b: seq<U8>, c: seq<U8>, d: seq<U8>, e: seq<U8>, rest: seq<U8>): seq<U8> {
    a + (b + (c + (d + (e + rest))))
  }

  lemma ThenInBytes()
    ensures forall a, r :: Enc(VThen(a, r)) == Enc(a) + Enc(r)
  {
  }

  lemma LineInBytes(a: Val, b: Val, rest: Val, x: seq<U8>, y: seq<U8>, z: seq<U8>)
    requires Enc(a) == x && Enc(b) == y && Enc(rest) == z
    ensures Enc(V2(a, b, rest)) == Line2(x, y, z)
  {
    assert Enc(VThen(b, rest)) == y + z;
  }

  lemma {:induction false} ListInBytes<T>(val: T -> Val, put: T -> seq<U8>, xs: seq<T>)
    requires forall i :: 0 <= i < |xs| ==> Enc(val(xs[i])) == put(xs[i])
    ensures EncAll(MapSeq(val, xs)) == Joined(put, xs)
    ensures Enc(VList(MapSeq(val, xs))) == Counted(put, xs)
  {
    if xs != [] {
      ListInBytes(val, put, xs[1..]);
      assert MapSeq(val, xs)[1..] == MapSeq(val, xs[1..]);
    }
  }

  // ----- Records -----

  function ComputeCapabilityBytes(x: ComputeCapability): seq<U8> {
    Word(Unsigned32(x.major)) + Word(Unsigned32(x.minor))
  }

  lemma ComputeCapabilityInBytes(x: ComputeCapability)
    ensures Enc(ComputeCapabilityVal(x)) == ComputeCapabilityBytes(x)
  {
    ThenInBytes();
  }

  function DeviceCapabilityBytes(x: DeviceCapability): seq<U8> {
    Line3(Enc(AcceleratorKindVal(x.kind)), String(x.deviceId), ComputeCapabilityBytes(x.compute),
          Long(x.memoryBytes))
  }

  lemma DeviceCapabilityInBytes(x: DeviceCapability)
    ensures Enc(DeviceCapabilityVal(x)) == DeviceCapabilityBytes(x)
  {
    ComputeCapabilityInBytes(x.compute);
    ThenInBytes();
  }

  function BackendCapabilityBytes(x: BackendCapability): seq<U8> {
    Line3(Enc(BackendKindVal(x.kind)), String(x.name), ComputeCapabilityBytes(x.compute),
          Enc(NumericModeVal(x.numeric)))
  }

  lemma BackendCapabilityInBytes(x: BackendCapability)
    ensures Enc(BackendCapabilityVal(x)) == BackendCapabilityBytes(x)
  {
    ComputeCapabilityInBytes(x.compute);
    ThenInBytes();
  }

  function ResourceInventoryBytes(x: ResourceInventory): seq<U8> {
    Line3(Long(x.totalMemoryBytes), Long(x.freeMemoryBytes), Word(Unsigned32(x.acceleratorCount)),
    Counted(DeviceCapabilityBytes, x.devices) + Counted(BackendCapabilityBytes, x.backends))
  }

  lemma ResourceInventoryInBytes(x: ResourceInventory)
    ensures Enc(ResourceInventoryVal(x)) == ResourceInventoryBytes(x)
  {
    forall i | 0 <= i < |x.devices| { DeviceCapabilityInBytes(x.devices[i]); }
    ListInBytes(DeviceCapabilityVal, DeviceCapabilityBytes, x.devices);
    forall i | 0 <= i < |x.backends| { BackendCapabilityInBytes(x.backends[i]); }
    ListInBytes(BackendCapabilityVal, BackendCapabilityBytes, x.backends);
    ThenInBytes();
  }

  function HealthPolicyBytes(x: HealthPolicy): seq<U8> {
    Line4(Flag(x.enabled), Long(x.expectedIntervalNs), Long(x.staleAfterNs), Long(x.degradeAfterNs),
    Line3(Word(x.unhealthyAfterMisses), Word(x.quarantineAfterFailures), Word(x.minHealthyObservations),
    Long(x.healthThreshold) + Enc(HealthStateVal(x.initial))))
  }

  lemma HealthPolicyInBytes(x: HealthPolicy)
    ensures Enc(HealthPolicyVal(x)) == HealthPolicyBytes(x)
  {
    ThenInBytes();
  }

  function WarmingPolicyBytes(x: WarmingPolicy): seq<U8> {
    Line4(Flag(x.enabled), Flag(x.requireArtifactLoaded), Flag(x.requireWeightsResident),
          Flag(x.requireAdaptersActive),
    Line4(Flag(x.requireKernelInit), Flag(x.requireGraphInit), Flag(x.requireAllocatorInit),
          Flag(x.requireDeviceContext),
    Line3(Flag(x.requireBoundedWarmup), Flag(x.requireEndpoint), Long(x.warmupWorkSteps),
          Long(x.warmupTimeoutNs))))
  }

  lemma WarmingPolicyInBytes(x: WarmingPolicy)
    ensures Enc(WarmingPolicyVal(x)) == WarmingPolicyBytes(x)
  {
    ThenInBytes();
  }

  function DrainingPolicyBytes(x: DrainingPolicy): seq<U8> {
    Line3(Flag(x.rejectNewWork), Flag(x.allowExistingToFinish), Flag(x.allowForceCancel),
    Long(x.gracePeriodNs) + Long(x.forceCancelAfterNs))
  }

  lemma DrainingPolicyInBytes(x: DrainingPolicy)
    ensures Enc(DrainingPolicyVal(x)) == DrainingPolicyBytes(x)
  {
    ThenInBytes();
  }

  function PromotionPolicyBytes(x: PromotionPolicy): seq<U8> {
    Line4(Flag(x.requireReady), Flag(x.requireHealthy), Enc(HealthStateVal(x.minHealth)),
          Flag(x.requireCompatible),
    Line3(Flag(x.requirePlacementValid), Flag(x.requireResources), Flag(x.requireAuthorityCurrent),
    Flag(x.allowCanary) + Flag(x.autoPromoteStandby)))
  }

  lemma PromotionPolicyInBytes(x: PromotionPolicy)
    ensures Enc(PromotionPolicyVal(x)) == PromotionPolicyBytes(x)
  {
    ThenInBytes();
  }

  function FailoverPolicyBytes(x: FailoverPolicy): seq<U8> {
    Line3(Flag(x.requireDiversity), Flag(x.preferStandbyFirst), Word(x.maxAttempts),
    Flag(x.preserveGeneration) + Flag(x.rejectAmbiguousOutcome))
  }

  lemma FailoverPolicyInBytes(x: FailoverPolicy)
    ensures Enc(FailoverPolicyVal(x)) == FailoverPolicyBytes(x)
  {
    ThenInBytes();
  }

  function PolicyBundleBytes(x: PolicyBundle): seq<U8> {
    Line3(HealthPolicyBytes(x.health), WarmingPolicyBytes(x.warming), DrainingPolicyBytes(x.draining),
    PromotionPolicyBytes(x.promotion) + FailoverPolicyBytes(x.failover))
  }

  lemma PolicyBundleInBytes(x: PolicyBundle)
    ensures Enc(PolicyBundleVal(x)) == PolicyBundleBytes(x)
  {
    HealthPolicyInBytes(x.health);
    WarmingPolicyInBytes(x.warming);
    DrainingPolicyInBytes(x.draining);
    PromotionPolicyInBytes(x.promotion);
    FailoverPolicyInBytes(x.failover);
    ThenInBytes();
  }

  function SyntheticFailureDomainBytes(x: SyntheticFailureDomain): seq<U8> {
    String(x.domainLabel) + String(x.kind)
  }

  lemma SyntheticFailureDomainInBytes(x: SyntheticFailureDomain)
    ensures Enc(SyntheticFailureDomainVal(x)) == SyntheticFailureDomainBytes(x)
  {
    ThenInBytes();
  }

  function PlacementPolicyBytes(x: PlacementPolicy): seq<U8> {
    Line3(Counted(String, x.antiAffinityDomains), Counted(SyntheticFailureDomainBytes, x.syntheticDomains),
          Flag(x.requireDiversity),
    Line3(String(x.preferredHost), String(x.preferredNuma), String(x.preferredDevice),
    String(x.preferredFailureDomain) + Word(x.tieBreakStrategy)))
  }

  lemma PlacementPolicyInBytes(x: PlacementPolicy)
    ensures Enc(PlacementPolicyVal(x)) == PlacementPolicyBytes(x)
  {
    ListInBytes(TextVal, String, x.antiAffinityDomains);
    forall i | 0 <= i < |x.syntheticDomains| { SyntheticFailureDomainInBytes(x.syntheticDomains[i]); }
    ListInBytes(SyntheticFailureDomainVal, SyntheticFailureDomainBytes, x.syntheticDomains);
    ThenInBytes();
  }

  function CompatibilityRequirementsBytes(x: CompatibilityRequirements): seq<U8> {
    Line4(IdBytes(x.modelId), String(x.modelRevision), String(x.tokenizerVocab),
          Counted(String, x.requiredAdapters),
    Line4(Enc(BackendKindVal(x.backend)), String(x.runtimeName), String(x.architecture),
          ComputeCapabilityBytes(x.minCompute),
    Line3(Enc(NumericModeVal(x.numericMode)), IdBytes(x.artifactGeneration), String(x.kernelAbi),
          String(x.policyFingerprint))))
  }

  lemma CompatibilityRequirementsInBytes(x: CompatibilityRequirements)
    ensures Enc(CompatibilityRequirementsVal(x)) == CompatibilityRequirementsBytes(x)
  {
    ComputeCapabilityInBytes(x.minCompute);
    ListInBytes(TextVal, String, x.requiredAdapters);
    ThenInBytes();
  }

  function ReplicaCompatibilityBytes(x: ReplicaCompatibility): seq<U8> {
    Line4(IdBytes(x.modelId), String(x.modelRevision), String(x.tokenizerVocab), Counted(String, x.adapters),
    Line4(Enc(BackendKindVal(x.backend)), String(x.runtimeName), String(x.architecture),
          ComputeCapabilityBytes(x.compute),
    Line3(Enc(NumericModeVal(x.numericMode)), IdBytes(x.artifactGeneration), String(x.kernelAbi),
          String(x.policyFingerprint))))
  }

  lemma ReplicaCompatibilityInBytes(x: ReplicaCompatibility)
    ensures Enc(ReplicaCompatibilityVal(x)) == ReplicaCompatibilityBytes(x)
  {
    ComputeCapabilityInBytes(x.compute);
    ListInBytes(TextVal, String, x.adapters);
    ThenInBytes();
  }

  function HealthRecordBytes(x: HealthRecord): seq<U8> {
    Line5(Enc(HealthStateVal(x.state)), Enc(HealthEvidenceKindVal(x.kind)), String(x.source),
          Long(x.updatedAtMono), Long(Unsigned64(x.updatedAtWall)),
    Line3(Long(x.confidence), IdBytes(x.generation), String(x.reason),
    Word(x.consecutiveStale) + Word(x.consecutiveFailures)))
  }

  lemma HealthRecordInBytes(x: HealthRecord)
    ensures Enc(HealthRecordVal(x)) == HealthRecordBytes(x)
  {
    ThenInBytes();
  }

  lemma ArtifactFactorsInBytes(x: ArtifactFactors)
    ensures Enc(ArtifactFactorsVal(x)) ==
            Line3(Flag(x.modelLoaded), Flag(x.artifactValidated), Flag(x.adaptersPresent),
                  Flag(x.kernelPrepared))
  {
    ThenInBytes();
  }

  lemma DeviceFactorsInBytes(x: DeviceFactors)
    ensures Enc(DeviceFactorsVal(x)) ==
            Line3(Flag(x.graphPrepared), Flag(x.memoryAvailable), Flag(x.deviceContextInitialized),
                  Flag(x.warmupComplete))
  {
    ThenInBytes();
  }

  lemma EndpointFactorsInBytes(x: EndpointFactors)
    ensures Enc(EndpointFactorsVal(x)) ==
            Line2(Flag(x.dependenciesReady), Flag(x.endpointRegistered), Flag(x.policyCurrent))
  {
    ThenInBytes();
  }

  function ReadinessFactorsBytes(x: ReadinessFactors): seq<U8> {
    Line2(
      Line3(Flag(x.modelLoaded), Flag(x.artifactValidated), Flag(x.adaptersPresent), Flag(x.kernelPrepared)),
      Line3(Flag(x.graphPrepared), Flag(x.memoryAvailable), Flag(x.deviceContextInitialized),
            Flag(x.warmupComplete)),
      Line2(Flag(x.dependenciesReady), Flag(x.endpointRegistered), Flag(x.policyCurrent)))
  }

  lemma ReadinessFactorsInBytes(x: ReadinessFactors)
    ensures Enc(ReadinessFactorsVal(x)) == ReadinessFactorsBytes(x)
  {
    ArtifactFactorsInBytes(ArtifactFactors(x.modelLoaded, x.artifactValidated, x.adaptersPresent,
      x.kernelPrepared));
    DeviceFactorsInBytes(DeviceFactors(x.graphPrepared, x.memoryAvailable, x.deviceContextInitialized,
      x.warmupComplete));
    EndpointFactorsInBytes(EndpointFactors(x.dependenciesReady, x.endpointRegistered, x.policyCurrent));
    ThenInBytes();
  }

  function ReadinessRecordBytes(x: ReadinessRecord): seq<U8> {
    Line2(Enc(ReadinessStateVal(x.state)), ReadinessFactorsBytes(x.factors),
    Line2(Long(x.updatedAtMono), Long(Unsigned64(x.updatedAtWall)), String(x.reason)))
  }

  lemma ReadinessRecordInBytes(x: ReadinessRecord)
    ensures Enc(ReadinessRecordVal(x)) == ReadinessRecordBytes(x)
  {
    ReadinessFactorsInBytes(x.factors);
    ThenInBytes();
  }

  lemma WarmingStepsInBytes(x: WarmingSteps)
    ensures Enc(WarmingStepsVal(x)) ==
            Line3(Enc(WarmthStateVal(x.state)), Long(x.stepsCompleted), Long(x.stepsRequired),
            Line3(Flag(x.artifactLoadingDone), Flag(x.weightsResident), Flag(x.adaptersActive),
                  Flag(x.kernelInitDone)))
  {
    ThenInBytes();
  }

  lemma WarmingEndInBytes(x: WarmingEnd)
    ensures Enc(WarmingEndVal(x)) ==
            Line5(Flag(x.graphInitDone), Flag(x.allocatorInitDone), Flag(x.deviceContextDone),
                  Flag(x.warmupExecutionDone), Flag(x.endpointRegistered),
            Line3(Long(x.startedWarmingMono), Long(x.becameWarmMono), Long(Unsigned64(x.becameWarmWall)),
                  String(x.message)))
  {
    ThenInBytes();
  }

  function WarmingRecordBytes(x: WarmingRecord): seq<U8> {
    (Line3(Enc(WarmthStateVal(x.state)), Long(x.stepsCompleted), Long(x.stepsRequired),
      Line3(Flag(x.artifactLoadingDone), Flag(x.weightsResident), Flag(x.adaptersActive), Flag(x.kernelInitDone)))) +
    (Line5(Flag(x.graphInitDone), Flag(x.allocatorInitDone), Flag(x.deviceContextDone),
            Flag(x.warmupExecutionDone), Flag(x.endpointRegistered),
      Line3(Long(x.startedWarmingMono), Long(x.becameWarmMono), Long(Unsigned64(x.becameWarmWall)),
            String(x.message))))
  }

  lemma WarmingRecordInBytes(x: WarmingRecord)
    ensures Enc(WarmingRecordVal(x)) == WarmingRecordBytes(x)
  {
    WarmingStepsInBytes(WarmingSteps(x.state, x.stepsCompleted, x.stepsRequired, x.artifactLoadingDone,
      x.weightsResident, x.adaptersActive, x.kernelInitDone));
    WarmingEndInBytes(WarmingEnd(x.graphInitDone, x.allocatorInitDone, x.deviceContextDone, x.warmupExecutionDone,
      x.endpointRegistered, x.startedWarmingMono, x.becameWarmMono, x.becameWarmWall, x.message));
    ThenInBytes();
  }

  lemma SetIdentityInBytes(x: SetIdentity)
    ensures Enc(SetIdentityVal(x)) ==
            Line4(IdBytes(x.id), IdBytes(x.modelId), IdBytes(x.workloadId), IdBytes(x.tenantId),
            Line3(Word(x.desiredCount), Word(x.minHealthy), Word(x.maxReplicas),
            Line3(IdBytes(x.artifactId), IdBytes(x.artifactGeneration), IdBytes(x.generation),
                  IdBytes(x.policyGeneration))))
  {
    ThenInBytes();
  }

  lemma SetPolicyInBytes(x: SetPolicy)
    ensures Enc(SetPolicyVal(x)) ==
            Line3(Enc(ReplicaSetLifecycleVal(x.lifecycle)), CompatibilityRequirementsBytes(x.compatibility),
                  PolicyBundleBytes(x.policies), PlacementPolicyBytes(x.placementPolicy))
  {
    CompatibilityRequirementsInBytes(x.compatibility);
    PolicyBundleInBytes(x.policies);
    PlacementPolicyInBytes(x.placementPolicy);
    ThenInBytes();
  }

  lemma SetDemandInBytes(x: SetDemand)
    ensures Enc(SetDemandVal(x)) ==
            Line3(Enc(BackendKindVal(x.backend)), String(x.runtimeName), ComputeCapabilityBytes(x.minCompute),
            Long(x.memoryRequirementBytes) + Word(x.acceleratorRequirement))
  {
    ComputeCapabilityInBytes(x.minCompute);
    ThenInBytes();
  }

  function ReplicaSetStateBytes(x: ReplicaSetState): seq<U8> {
    Line2(
      Line4(IdBytes(x.id), IdBytes(x.modelId), IdBytes(x.workloadId), IdBytes(x.tenantId),
      Line3(Word(x.desiredCount), Word(x.minHealthy), Word(x.maxReplicas),
      Line3(IdBytes(x.artifactId), IdBytes(x.artifactGeneration), IdBytes(x.generation),
            IdBytes(x.policyGeneration)))),
      Line3(Enc(ReplicaSetLifecycleVal(x.lifecycle)), CompatibilityRequirementsBytes(x.compatibility),
            PolicyBundleBytes(x.policies), PlacementPolicyBytes(x.placementPolicy)),
      Line3(Enc(BackendKindVal(x.backend)), String(x.runtimeName), ComputeCapabilityBytes(x.minCompute),
      Long(x.memoryRequirementBytes) + Word(x.acceleratorRequirement)))
  }

  lemma ReplicaSetStateInBytes(x: ReplicaSetState)
    ensures Enc(ReplicaSetStateVal(x)) == ReplicaSetStateBytes(x)
  {
    SetIdentityInBytes(SetIdentity(x.id, x.modelId, x.workloadId, x.tenantId, x.desiredCount, x.minHealthy,
      x.maxReplicas, x.artifactId, x.artifactGeneration, x.generation, x.policyGeneration));
    SetPolicyInBytes(SetPolicy(x.lifecycle, x.compatibility, x.policies, x.placementPolicy));
    SetDemandInBytes(SetDemand(x.backend, x.runtimeName, x.minCompute, x.memoryRequirementBytes,
      x.acceleratorRequirement));
    ThenInBytes();
  }

  lemma ReplicaIdentityInBytes(x: ReplicaIdentity)
    ensures Enc(ReplicaIdentityVal(x)) ==
            Line3(IdBytes(x.id), IdBytes(x.setId), IdBytes(x.generation),
            Line3(IdBytes(x.nodeId), IdBytes(x.workerId), IdBytes(x.bootId),
            IdBytes(x.artifactId) + IdBytes(x.artifactGeneration)))
  {
    ThenInBytes();
  }

  lemma ReplicaDeviceInBytes(x: ReplicaDevice)
    ensures Enc(ReplicaDeviceVal(x)) ==
            Line3(Enc(BackendKindVal(x.backend)), String(x.backendIdentity), String(x.deviceIdentity),
            Enc(AcceleratorKindVal(x.accelerator)) + ComputeCapabilityBytes(x.computeCapability))
  {
    ComputeCapabilityInBytes(x.computeCapability);
    ThenInBytes();
  }

  lemma ReplicaConditionInBytes(x: ReplicaCondition)
    ensures Enc(ReplicaConditionVal(x)) ==
            Line5(Enc(MemoryResidencyStateVal(x.memoryResidency)), Enc(WarmthStateVal(x.warmth)),
                  Enc(ReadinessStateVal(x.readiness)), Enc(HealthStateVal(x.health)),
                  Enc(ReplicaLifecycleVal(x.lifecycle)),
            Line3(IdBytes(x.placementId), Enc(PlacementStateVal(x.placement)),
                  Enc(PromotionStateVal(x.promotion)), Enc(ReplicaRoleVal(x.role))))
  {
    ThenInBytes();
  }

  lemma ReplicaLoadInBytes(x: ReplicaLoad)
    ensures Enc(ReplicaLoadVal(x)) ==
            Line4(Flag(x.servingEligible), Long(x.activeRequests), Long(x.reservedCapacity),
                  Long(x.capacityTotal),
            Long(x.startTimeMono) + Long(Unsigned64(x.startTimeWall)))
  {
    ThenInBytes();
  }

  lemma ReplicaReportsInBytes(x: ReplicaReports)
    ensures Enc(ReplicaReportsVal(x)) ==
            Line2(HealthRecordBytes(x.healthRecord), ReadinessRecordBytes(x.readinessRecord),
                  WarmingRecordBytes(x.warmingRecord))
  {
    HealthRecordInBytes(x.healthRecord);
    ReadinessRecordInBytes(x.readinessRecord);
    WarmingRecordInBytes(x.warmingRecord);
    ThenInBytes();
  }

  lemma ReplicaAuthorityInBytes(x: ReplicaAuthority)
    ensures Enc(ReplicaAuthorityVal(x)) ==
            Line4(IdBytes(x.coordinatorEpoch), IdBytes(x.setGeneration), IdBytes(x.healthGeneration),
                  IdBytes(x.policyGeneration),
            String(x.policyFingerprint) + ReplicaCompatibilityBytes(x.compatibility))
  {
    ReplicaCompatibilityInBytes(x.compatibility);
    ThenInBytes();
  }

  function ReplicaStateBytes(x: ReplicaState): seq<U8> {
    Line5(
      Line3(IdBytes(x.id), IdBytes(x.setId), IdBytes(x.generation),
      Line3(IdBytes(x.nodeId), IdBytes(x.workerId), IdBytes(x.bootId),
      IdBytes(x.artifactId) + IdBytes(x.artifactGeneration))),
      Line3(Enc(BackendKindVal(x.backend)), String(x.backendIdentity), String(x.deviceIdentity),
      Enc(AcceleratorKindVal(x.accelerator)) + ComputeCapabilityBytes(x.computeCapability)),
      Line5(Enc(MemoryResidencyStateVal(x.memoryResidency)), Enc(WarmthStateVal(x.warmth)),
            Enc(ReadinessStateVal(x.readiness)), Enc(HealthStateVal(x.health)),
            Enc(ReplicaLifecycleVal(x.lifecycle)),
      Line3(IdBytes(x.placementId), Enc(PlacementStateVal(x.placement)), Enc(PromotionStateVal(x.promotion)),
            Enc(ReplicaRoleVal(x.role)))),
      Line4(Flag(x.servingEligible), Long(x.activeRequests), Long(x.reservedCapacity), Long(x.capacityTotal),
      Long(x.startTimeMono) + Long(Unsigned64(x.startTimeWall))),
      Line2(HealthRecordBytes(x.healthRecord), ReadinessRecordBytes(x.readinessRecord),
            WarmingRecordBytes(x.warmingRecord)),
      Line4(IdBytes(x.coordinatorEpoch), IdBytes(x.setGeneration), IdBytes(x.healthGeneration),
            IdBytes(x.policyGeneration),
      String(x.policyFingerprint) + ReplicaCompatibilityBytes(x.compatibility)))
  }

  lemma ReplicaStateInBytes(x: ReplicaState)
    ensures Enc(ReplicaStateVal(x)) == ReplicaStateBytes(x)
  {
    ReplicaIdentityInBytes(ReplicaIdentity(x.id, x.setId, x.generation, x.nodeId, x.workerId, x.bootId,
      x.artifactId, x.artifactGeneration));
    ReplicaDeviceInBytes(ReplicaDevice(x.backend, x.backendIdentity, x.deviceIdentity, x.accelerator,
      x.computeCapability));
    ReplicaConditionInBytes(ReplicaCondition(x.memoryResidency, x.warmth, x.readiness, x.health, x.lifecycle,
      x.placementId, x.placement, x.promotion, x.role));
    ReplicaLoadInBytes(ReplicaLoad(x.servingEligible, x.activeRequests, x.reservedCapacity, x.capacityTotal,
      x.startTimeMono, x.startTimeWall));
    ReplicaReportsInBytes(ReplicaReports(x.healthRecord, x.readinessRecord, x.warmingRecord));
    ReplicaAuthorityInBytes(ReplicaAuthority(x.coordinatorEpoch, x.setGeneration, x.healthGeneration,
      x.policyGeneration, x.policyFingerprint, x.compatibility));
    ThenInBytes();
  }

  function WorkerRegistrationBytes(x: WorkerRegistration): seq<U8> {
    Line3(IdBytes(x.workerId), IdBytes(x.bootId), IdBytes(x.nodeId),
    Line2(ResourceInventoryBytes(x.inventory), IdBytes(x.hostedSetGeneration), Word(x.protocolVersion)))
  }

  lemma WorkerRegistrationInBytes(x: WorkerRegistration)
    ensures Enc(WorkerRegistrationVal(x)) == WorkerRegistrationBytes(x)
  {
    ResourceInventoryInBytes(x.inventory);
    ThenInBytes();
  }

  function PromotionRecordBytes(x: PromotionRecord): seq<U8> {
    Line3(IdBytes(x.id), IdBytes(x.replicaId), IdBytes(x.setId),
    Line3(IdBytes(x.replicaGeneration), IdBytes(x.setGeneration), IdBytes(x.epoch),
    Line4(Enc(PromotionStateVal(x.from)), Enc(PromotionStateVal(x.to)), Long(x.whenMono),
          Long(Unsigned64(x.whenWall)), String(x.reason))))
  }

  lemma PromotionRecordInBytes(x: PromotionRecord)
    ensures Enc(PromotionRecordVal(x)) == PromotionRecordBytes(x)
  {
    ThenInBytes();
  }

  function DrainRecordBytes(x: DrainRecord): seq<U8> {
    Line4(IdBytes(x.id), IdBytes(x.replicaId), IdBytes(x.setId), Enc(DrainStateVal(x.state)),
    Line2(Long(x.startedMono), Long(x.completedMono),
    Line2(Flag(x.forceCancelled), Long(x.quiescedRequests), String(x.reason))))
  }

  lemma DrainRecordInBytes(x: DrainRecord)
    ensures Enc(DrainRecordVal(x)) == DrainRecordBytes(x)
  {
    ThenInBytes();
  }

  function FailoverRecordBytes(x: FailoverRecord): seq<U8> {
    Line5(IdBytes(x.id), IdBytes(x.setId), IdBytes(x.failedReplica), IdBytes(x.replacement),
          Enc(FailoverStateVal(x.state)),
    Line4(IdBytes(x.epoch), Long(x.startedMono), Long(x.completedMono), Flag(x.generationPreserved),
    Counted((o: WorkOutcome) => Enc(WorkOutcomeVal(o)), x.ambiguousOutcomes) + String(x.reason)))
  }

  lemma FailoverRecordInBytes(x: FailoverRecord)
    ensures Enc(FailoverRecordVal(x)) == FailoverRecordBytes(x)
  {
    ListInBytes(WorkOutcomeVal, (o: WorkOutcome) => Enc(WorkOutcomeVal(o)), x.ambiguousOutcomes);
    ThenInBytes();
  }

  // ----- The file -----

  // Tables in ascending order of identity, logs as they are, and the epoch.
  ghost function BodyBytes(c: State): seq<U8> {
    Line2(TableBytes(c), LogBytes(c), IdBytes(c.epoch))
  }

  ghost function TableBytes(c: State): seq<U8> {
    Line2(Counted(ReplicaSetStateBytes, InOrder(c.sets)), Counted(ReplicaStateBytes, InOrder(c.replicas)),
          Counted(WorkerRegistrationBytes, InOrder(c.workers)))
  }

  function LogBytes(c: State): seq<U8> {
    Line2(Counted(PromotionRecordBytes, c.promotions), Counted(DrainRecordBytes, c.drains),
          Counted(FailoverRecordBytes, c.failovers))
  }

  lemma SetsInBytes(xs: seq<ReplicaSetState>)
    ensures Enc(VList(MapSeq(ReplicaSetStateVal, xs))) == Counted(ReplicaSetStateBytes, xs)
  {
    forall i | 0 <= i < |xs| ensures Enc(ReplicaSetStateVal(xs[i])) == ReplicaSetStateBytes(xs[i]) {
      ReplicaSetStateInBytes(xs[i]);
    }
    ListInBytes(ReplicaSetStateVal, ReplicaSetStateBytes, xs);
  }

  lemma ReplicasInBytes(xs: seq<ReplicaState>)
    ensures Enc(VList(MapSeq(ReplicaStateVal, xs))) == Counted(ReplicaStateBytes, xs)
  {
    forall i | 0 <= i < |xs| ensures Enc(ReplicaStateVal(xs[i])) == ReplicaStateBytes(xs[i]) {
      ReplicaStateInBytes(xs[i]);
    }
    ListInBytes(ReplicaStateVal, ReplicaStateBytes, xs);
  }

  lemma WorkersInBytes(xs: seq<WorkerRegistration>)
    ensures Enc(VList(MapSeq(WorkerRegistrationVal, xs))) == Counted(WorkerRegistrationBytes, xs)
  {
    forall i | 0 <= i < |xs| { WorkerRegistrationInBytes(xs[i]); }
    ListInBytes(WorkerRegistrationVal, WorkerRegistrationBytes, xs);
  }

  lemma PromotionsInBytes(xs: seq<PromotionRecord>)
    ensures Enc(VList(MapSeq(PromotionRecordVal, xs))) == Counted(PromotionRecordBytes, xs)
  {
    forall i | 0 <= i < |xs| { PromotionRecordInBytes(xs[i]); }
    ListInBytes(PromotionRecordVal, PromotionRecordBytes, xs);
  }

  lemma DrainsInBytes(xs: seq<DrainRecord>)
    ensures Enc(VList(MapSeq(DrainRecordVal, xs))) == Counted(DrainRecordBytes, xs)
  {
    forall i | 0 <= i < |xs| { DrainRecordInBytes(xs[i]); }
    ListInBytes(DrainRecordVal, DrainRecordBytes, xs);
  }

  lemma FailoversInBytes(xs: seq<FailoverRecord>)
    ensures Enc(VList(MapSeq(FailoverRecordVal, xs))) == Counted(FailoverRecordBytes, xs)
  {
    forall i | 0 <= i < |xs| { FailoverRecordInBytes(xs[i]); }
    ListInBytes(FailoverRecordVal, FailoverRecordBytes, xs);
  }

  lemma TablesInBytes(c: State)
    ensures Enc(TablesVal(Contents(c))) == TableBytes(c)
  {
    var b := Contents(c);
    SetsInBytes(b.sets);
    ReplicasInBytes(b.replicas);
    WorkersInBytes(b.workers);
    LineInBytes(VList(MapSeq(ReplicaSetStateVal, b.sets)), VList(MapSeq(ReplicaStateVal, b.replicas)),
                VList(MapSeq(WorkerRegistrationVal, b.workers)),
                Counted(ReplicaSetStateBytes, b.sets), Counted(ReplicaStateBytes, b.replicas),
                Counted(WorkerRegistrationBytes, b.workers));
  }

  lemma LogsInBytes(c: State)
    ensures Enc(LogsVal(Contents(c))) == LogBytes(c)
  {
    PromotionsInBytes(c.promotions);
    DrainsInBytes(c.drains);
    FailoversInBytes(c.failovers);
    LineInBytes(VList(MapSeq(PromotionRecordVal, c.promotions)), VList(MapSeq(DrainRecordVal, c.drains)),
                VList(MapSeq(FailoverRecordVal, c.failovers)),
                Counted(PromotionRecordBytes, c.promotions), Counted(DrainRecordBytes, c.drains),
                Counted(FailoverRecordBytes, c.failovers));
  }

  lemma BodyOfParts(b: Body, tables: seq<U8>, logs: seq<U8>)
    requires Enc(TablesVal(b)) == tables && Enc(LogsVal(b)) == logs
    ensures Enc(BodyVal(b)) == Line2(tables, logs, IdBytes(b.epoch))
  {
    LineInBytes(TablesVal(b), LogsVal(b), VId(b.epoch), tables, logs, IdBytes(b.epoch));
  }

  lemma BodyInBytes(c: State)
    ensures Enc(BodyVal(Contents(c))) == BodyBytes(c)
  {
    TablesInBytes(c);
    LogsInBytes(c);
    BodyOfParts(Contents(c), TableBytes(c), LogBytes(c));
  }

  lemma HeaderInBytes(n: nat)
    ensures Header(n) == [82, 70, 83, 78, 65, 80, 48, 49] + [1, 0, 0, 0] + [1, 0, 0, 0] + LittleEndian(n, 8)
  {
    assert LittleEndian(1, 4) == [1, 0, 0, 0];
  }

  // "RFSNAP01", format 1, schema 1, the length of the body, the body, and the checksum of all that.
  lemma CheckpointInBytes(c: State)
    ensures var body := BodyBytes(c);
      var header := [82, 70, 83, 78, 65, 80, 48, 49] + [1, 0, 0, 0] + [1, 0, 0, 0] + LittleEndian(|body|, 8);
      SnapshotOf(c) == header + body + LittleEndian(Crc.Crc64(header + body), 8)
  {
    var body := BodyBytes(c);
    BodyInBytes(c);
    HeaderInBytes(|body|);
    FileFromHeader(body, Header(|body|));
  }

  lemma FileFromHeader(body: seq<U8>, header: seq<U8>)
    requires header == Header(|body|)
    ensures FileOf(body) == header + body + LittleEndian(Crc.Crc64(header + body), 8)
  {
  }

  // What was written is read back, and refused exactly if two sets or two replicas share an identity
  // or a threshold or a confidence is not a number. Workers and records may repeat themselves.
  lemma WrittenIsReadUnless(b: Body)
    requires |BytesOf(b)| < U64_MOD
    ensures Decoded(BytesOf(b)) == if
      && (forall i, j :: 0 <= i < j < |b.sets| ==> b.sets[i].id != b.sets[j].id)
      && (forall i, j :: 0 <= i < j < |b.replicas| ==> b.replicas[i].id != b.replicas[j].id)
      && (forall i :: 0 <= i < |b.sets| ==> IsNumber(b.sets[i].policies.health.healthThreshold))
      && (forall i :: 0 <= i < |b.replicas| ==> IsNumber(b.replicas[i].healthRecord.confidence))
      then Some(RecoveredOf(b)) else None
  {
    FileReadBack(b);
    WritableInFields(b);
  }

  lemma WritableInFields(b: Body)
    ensures Writable(b) <==>
      && (forall i, j :: 0 <= i < j < |b.sets| ==> b.sets[i].id != b.sets[j].id)
      && (forall i, j :: 0 <= i < j < |b.replicas| ==> b.replicas[i].id != b.replicas[j].id)
      && (forall i :: 0 <= i < |b.sets| ==> IsNumber(b.sets[i].policies.health.healthThreshold))
      && (forall i :: 0 <= i < |b.replicas| ==> IsNumber(b.replicas[i].healthRecord.confidence))
  {
    DistinctInFields(b);
    FiniteInFields(b);
  }

  lemma DistinctInFields(b: Body)
    ensures Distinct(SetKey, b.sets) <==> forall i, j :: 0 <= i < j < |b.sets| ==> b.sets[i].id != b.sets[j].id
    ensures Distinct(ReplicaKey, b.replicas) <==>
            forall i, j :: 0 <= i < j < |b.replicas| ==> b.replicas[i].id != b.replicas[j].id
  {
  }

  lemma FiniteInFields(b: Body)
    ensures FiniteSets(b.sets) <==>
            forall i :: 0 <= i < |b.sets| ==> IsNumber(b.sets[i].policies.health.healthThreshold)
    ensures FiniteReplicas(b.replicas) <==>
            forall i :: 0 <= i < |b.replicas| ==> IsNumber(b.replicas[i].healthRecord.confidence)
  {
    forall d: Double ensures IsFinite(d) <==> IsNumber(d) { FiniteDoubles(d); }
  }

  // ----- The polynomial -----

  // The register holds the generator polynomial of Annex B of ECMA-182, the lowest power in the
  // highest bit; x^64 is implied.
  lemma PolynomialIsEcma()
    ensures Crc.POLY ==
      0x8000_0000_0000_0000 + 0x4000_0000_0000_0000 + 0x800_0000_0000_0000 + 0x100_0000_0000_0000 + // 1, x, x^4, x^7
      0x40_0000_0000_0000 + 0x20_0000_0000_0000 + 0x8_0000_0000_0000 + 0x4_0000_0000_0000 + // x^9, x^10, x^12, x^13
      0x4000_0000_0000 + 0x1000_0000_0000 + 0x400_0000_0000 + 0x200_0000_0000 + // x^17, x^19, x^21, x^22
      0x100_0000_0000 + 0x80_0000_0000 + 0x10_0000_0000 + 0x4_0000_0000 + // x^23, x^24, x^27, x^29
      0x1_0000_0000 + 0x8000_0000 + 0x4000_0000 + 0x1000_0000 + // x^31, x^32, x^33, x^35
      0x400_0000 + 0x200_0000 + 0x100_0000 + 0x80_0000 + // x^37, x^38, x^39, x^40
      0x4_0000 + 0x2_0000 + 0x1_0000 + 0x800 + // x^45, x^46, x^47, x^52
      0x400 + 0x200 + 0x100 + 0x40 + // x^53, x^54, x^55, x^57
      0x2 // x^62
  {
  }

  // The register starts at zero and is given out as it is. A byte enters at the low end: the highest
  // bit of a byte has reached the end of the register after eight turns and brings in the polynomial.
  lemma KnownChecksums()
    ensures Crc.Crc64([]) == 0 && Crc.Crc64([0]) == 0 && Crc.Crc64([0x80]) == 0xC96C_5795_D787_0F42
    ensures Crc.Crc64([0x40]) == 0xC96C_5795_D787_0F42 / 2
  {
    Crc.XorZero(0x80);
    Crc.XorZero(0x40);
    Crc.XorZero(0);
    Crc.XorZero(Crc.POLY);
    TurnsOfOneByte();
    assert Crc.Crc64([0x80]) == Crc.Feed(0, 0x80) by { assert [0x80][1..] == []; }
    assert Crc.Crc64([0x40]) == Crc.Feed(0, 0x40) by { assert [0x40][1..] == []; }
    assert Crc.Crc64([0]) == Crc.Feed(0, 0) by { assert [0][1..] == []; }
  }

  lemma TurnsOfOneByte()
    ensures Crc.Shifts(0, 8) == 0 && Crc.Shifts(0x80, 8) == Crc.POLY && Crc.Shifts(0x40, 8) == Crc.Shift(Crc.POLY)
  {
    Crc.XorZero(Crc.POLY);
    Crc.ShiftsOfZero(8);
    assert Crc.Shift(1) == Crc.POLY;
    assert Crc.Shifts(2, 2) == Crc.POLY && Crc.Shifts(4, 3) == Crc.POLY && Crc.Shifts(8, 4) == Crc.POLY;
    assert Crc.Shifts(0x10, 5) == Crc.POLY && Crc.Shifts(0x20, 6) == Crc.POLY && Crc.Shifts(0x40, 7) == Crc.POLY;
  }
}
