// The value types of include/replicafabric/core and include/replicafabric/model, field for field.
module Records {
  import opened Base
  import opened Identity
  import opened Enums

  // A C++ double, kept as its 64-bit IEEE 754 pattern.
  type Double = U64

  // Neither NaN nor infinite: the 11 exponent bits are not all ones.
  predicate IsFinite(d: Double) {
    d / 0x10_0000_0000_0000 % 0x800 != 0x7FF
  }

  // ----- core/capability.hpp -----

  datatype ComputeCapability = ComputeCapability(major: I32, minor: I32) {
    predicate Less(other: ComputeCapability) {
      if major != other.major then major < other.major else minor < other.minor
    }
  }

  datatype BackendCapability =
    BackendCapability(kind: BackendKind, name: Text, compute: ComputeCapability, numeric: NumericMode)

  datatype DeviceCapability =
    DeviceCapability(kind: AcceleratorKind, deviceId: Text, compute: ComputeCapability, memoryBytes: U64)

  datatype ResourceInventory = ResourceInventory(
    totalMemoryBytes: U64, freeMemoryBytes: U64, acceleratorCount: I32,
    devices: seq<DeviceCapability>, backends: seq<BackendCapability>)

  // ----- core/policies.hpp -----

  datatype HealthPolicy = HealthPolicy(
    enabled: bool, expectedIntervalNs: U64, staleAfterNs: U64, degradeAfterNs: U64,
    unhealthyAfterMisses: U32, quarantineAfterFailures: U32, minHealthyObservations: U32,
    healthThreshold: Double, initial: HealthState)

  datatype WarmingPolicy = WarmingPolicy(
    enabled: bool, requireArtifactLoaded: bool, requireWeightsResident: bool, requireAdaptersActive: bool,
    requireKernelInit: bool, requireGraphInit: bool, requireAllocatorInit: bool, requireDeviceContext: bool,
    requireBoundedWarmup: bool, requireEndpoint: bool, warmupWorkSteps: U64, warmupTimeoutNs: U64)

  datatype DrainingPolicy = DrainingPolicy(
    rejectNewWork: bool, allowExistingToFinish: bool, allowForceCancel: bool,
    gracePeriodNs: U64, forceCancelAfterNs: U64)

  datatype PromotionPolicy = PromotionPolicy(
    requireReady: bool, requireHealthy: bool, minHealth: HealthState, requireCompatible: bool,
    requirePlacementValid: bool, requireResources: bool, requireAuthorityCurrent: bool,
    allowCanary: bool, autoPromoteStandby: bool)

  datatype FailoverPolicy = FailoverPolicy(
    requireDiversity: bool, preferStandbyFirst: bool, maxAttempts: U32,
    preserveGeneration: bool, rejectAmbiguousOutcome: bool)

  datatype PolicyBundle = PolicyBundle(
    health: HealthPolicy, warming: WarmingPolicy, draining: DrainingPolicy,
    promotion: PromotionPolicy, failover: FailoverPolicy)

  // ----- core/compatibility.hpp -----

  datatype CompatibilityRequirements = CompatibilityRequirements(
    modelId: Id, modelRevision: Text, tokenizerVocab: Text, requiredAdapters: seq<Text>,
    backend: BackendKind, runtimeName: Text, architecture: Text, minCompute: ComputeCapability,
    numericMode: NumericMode, artifactGeneration: Generation, kernelAbi: Text, policyFingerprint: Text)

  datatype ReplicaCompatibility = ReplicaCompatibility(
    modelId: Id, modelRevision: Text, tokenizerVocab: Text, adapters: seq<Text>,
    backend: BackendKind, runtimeName: Text, architecture: Text, compute: ComputeCapability,
    numericMode: NumericMode, artifactGeneration: Generation, kernelAbi: Text, policyFingerprint: Text)

  // ----- model/placement_policy.hpp -----

  datatype SyntheticFailureDomain = SyntheticFailureDomain(domainLabel: Text, kind: Text)

  datatype PlacementPolicy = PlacementPolicy(
    antiAffinityDomains: seq<Text>, syntheticDomains: seq<SyntheticFailureDomain>, requireDiversity: bool,
    preferredHost: Text, preferredNuma: Text, preferredDevice: Text, preferredFailureDomain: Text,
    tieBreakStrategy: U32)

  // ----- model/replica_set.hpp -----

  datatype ReplicaSetState = ReplicaSetState(
    id: ReplicaSetId, modelId: Id, workloadId: Id, tenantId: Id,
    desiredCount: U32, minHealthy: U32, maxReplicas: U32,
    artifactId: Id, artifactGeneration: Generation, generation: Generation, policyGeneration: Generation,
    lifecycle: ReplicaSetLifecycle,
    compatibility: CompatibilityRequirements, policies: PolicyBundle, placementPolicy: PlacementPolicy,
    backend: BackendKind, runtimeName: Text, minCompute: ComputeCapability,
    memoryRequirementBytes: U64, acceleratorRequirement: U32)

  // ----- model/health.hpp, model/readiness.hpp, model/warming.hpp -----

  datatype HealthEvidence = HealthEvidence(
    state: HealthState, kind: HealthEvidenceKind, source: Text, observedAtMono: U64, observedAtWall: I64,
    freshnessNs: U64, confidence: Double, generation: Generation, message: Text)

  datatype HealthRecord = HealthRecord(
    state: HealthState, kind: HealthEvidenceKind, source: Text, updatedAtMono: U64, updatedAtWall: I64,
    confidence: Double, generation: Generation, reason: Text, consecutiveStale: U32, consecutiveFailures: U32)

  datatype ReadinessFactors = ReadinessFactors(
    modelLoaded: bool, artifactValidated: bool, adaptersPresent: bool, kernelPrepared: bool,
    graphPrepared: bool, memoryAvailable: bool, deviceContextInitialized: bool, warmupComplete: bool,
    dependenciesReady: bool, endpointRegistered: bool, policyCurrent: bool)
  {
    predicate AllSet() {
      modelLoaded && artifactValidated && adaptersPresent && kernelPrepared && graphPrepared && memoryAvailable &&
      deviceContextInitialized && warmupComplete && dependenciesReady && endpointRegistered && policyCurrent
    }
  }

  datatype ReadinessRecord = ReadinessRecord(
    state: ReadinessState, factors: ReadinessFactors, updatedAtMono: U64, updatedAtWall: I64, reason: Text)

  datatype WarmingRecord = WarmingRecord(
    state: WarmthState, stepsCompleted: U64, stepsRequired: U64,
    artifactLoadingDone: bool, weightsResident: bool, adaptersActive: bool, kernelInitDone: bool,
    graphInitDone: bool, allocatorInitDone: bool, deviceContextDone: bool, warmupExecutionDone: bool,
    endpointRegistered: bool,
    startedWarmingMono: U64, becameWarmMono: U64, becameWarmWall: I64, message: Text)

  // ----- model/replica.hpp -----

  datatype ReplicaState = ReplicaState(
    id: ReplicaId, setId: ReplicaSetId, generation: Generation,
    nodeId: Id, workerId: WorkerId, bootId: WorkerBootId,
    artifactId: Id, artifactGeneration: Generation,
    backend: BackendKind, backendIdentity: Text, deviceIdentity: Text, accelerator: AcceleratorKind,
    computeCapability: ComputeCapability,
    memoryResidency: MemoryResidencyState, warmth: WarmthState, readiness: ReadinessState,
    health: HealthState, lifecycle: ReplicaLifecycle,
    placementId: Id, placement: PlacementState, promotion: PromotionState, role: ReplicaRole,
    servingEligible: bool,
    activeRequests: U64, reservedCapacity: U64, capacityTotal: U64,
    startTimeMono: U64, startTimeWall: I64,
    healthRecord: HealthRecord, readinessRecord: ReadinessRecord, warmingRecord: WarmingRecord,
    coordinatorEpoch: Epoch, setGeneration: Generation, healthGeneration: Generation,
    policyGeneration: Generation, policyFingerprint: Text, compatibility: ReplicaCompatibility)

  // ----- core/replica_set_controller.hpp -----

  datatype WorkerRegistration = WorkerRegistration(
    workerId: WorkerId, bootId: WorkerBootId, nodeId: Id, inventory: ResourceInventory,
    hostedSetGeneration: Generation, protocolVersion: U32)

  datatype PromotionRecord = PromotionRecord(
    id: Id, replicaId: ReplicaId, setId: ReplicaSetId, replicaGeneration: Generation,
    setGeneration: Generation, epoch: Epoch, from: PromotionState, to: PromotionState,
    whenMono: U64, whenWall: I64, reason: Text)

  datatype DrainRecord = DrainRecord(
    id: Id, replicaId: ReplicaId, setId: ReplicaSetId, state: DrainState,
    startedMono: U64, completedMono: U64, forceCancelled: bool, quiescedRequests: U64, reason: Text)

  datatype FailoverRecord = FailoverRecord(
    id: Id, setId: ReplicaSetId, failedReplica: ReplicaId, replacement: ReplicaId, state: FailoverState,
    epoch: Epoch, startedMono: U64, completedMono: U64, generationPreserved: bool,
    ambiguousOutcomes: seq<WorkOutcome>, reason: Text)

  // ----- Values of freshly constructed records -----

  const EMPTY_FACTORS: ReadinessFactors :=
    ReadinessFactors(false, false, false, false, false, false, false, false, false, false, false)
  const EVERY_FACTOR: ReadinessFactors :=
    ReadinessFactors(true, true, true, true, true, true, true, true, true, true, true)
  const EMPTY_HEALTH_RECORD: HealthRecord :=
    HealthRecord(HealthState.Unknown, HealthEvidenceKind.Unknown, [], 0, 0, 0, NULL_ID, [], 0, 0)
  const EMPTY_READINESS_RECORD: ReadinessRecord :=
    ReadinessRecord(ReadinessState.Unknown, EMPTY_FACTORS, 0, 0, [])
  const EMPTY_WARMING_RECORD: WarmingRecord :=
    WarmingRecord(WarmthState.Cold, 0, 0, false, false, false, false, false, false, false, false, false, 0, 0, 0, [])
}
