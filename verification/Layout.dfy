// What src/snapshot.cpp writes for each record and what it demands when reading one back, in the
// order of its write_* and read_* functions. `XVal` transcribes the writer, `X` in capitals and `XOf`
// the reader: the lemma about a record states that the two agree in both directions.
module Layout {
  import opened Base
  import opened Identity
  import opened Enums
  import opened Records
  import opened Wire

  // One source line of fields, followed by the rest of the record.
  function V2(a: Val, b: Val, rest: Val): Val {
    VThen(a, VThen(b, rest))
  }

  function S2(a: Shape, b: Shape, rest: Shape): Shape {
    SThen(a, SThen(b, rest))
  }

  function V3(a: Val, b: Val, c: Val, rest: Val): Val {
    VThen(a, VThen(b, VThen(c, rest)))
  }

  function S3(a: Shape, b: Shape, c: Shape, rest: Shape): Shape {
    SThen(a, SThen(b, SThen(c, rest)))
  }

  function V4(a: Val, b: Val, c: Val, d: Val, rest: Val): Val {
    VThen(a, VThen(b, VThen(c, VThen(d, rest))))
  }

  function S4(a: Shape, b: Shape, c: Shape, d: Shape, rest: Shape): Shape {
    SThen(a, SThen(b, SThen(c, SThen(d, rest))))
  }

  function V5(a: Val, b: Val, c: Val, d: Val, e: Val, rest: Val): Val {
    VThen(a, VThen(b, VThen(c, VThen(d, VThen(e, rest)))))
  }

  function S5(a: Shape, b: Shape, c: Shape, d: Shape, e: Shape, rest: Shape): Shape {
    SThen(a, SThen(b, SThen(c, SThen(d, SThen(e, rest)))))
  }

  // ----- Reasoning about a record a few fields at a time -----

  lemma Next2(s: Shape, v: Val) returns (ss: Shape, vv: Val)
    requires s.SThen? && s.rest.SThen?
    ensures ss == s.rest.rest
    ensures Shaped(s, v) ==> v.VThen? && v.rest.VThen?
    ensures v.VThen? && v.rest.VThen? ==> (
              && vv == v.rest.rest
              && (Shaped(s, v) <==>
                    Shaped(s.first, v.first) && Shaped(s.rest.first, v.rest.first) && Shaped(ss, vv))
              && (Finite(s, v) <==>
                    Finite(s.first, v.first) && Finite(s.rest.first, v.rest.first) && Finite(ss, vv)))
  {
    ss := s.rest.rest;
    vv := if v.VThen? && v.rest.VThen? then v.rest.rest else v;
    if v.VThen? { assert Shaped(s.rest, v.rest) ==> v.rest.VThen?; }
  }

  lemma Next3(s: Shape, v: Val) returns (ss: Shape, vv: Val)
    requires s.SThen? && s.rest.SThen? && s.rest.rest.SThen?
    ensures ss == s.rest.rest.rest
    ensures Shaped(s, v) ==> v.VThen? && v.rest.VThen? && v.rest.rest.VThen?
    ensures v.VThen? && v.rest.VThen? && v.rest.rest.VThen? ==> (
              && vv == v.rest.rest.rest
              && (Shaped(s, v) <==>
                    && Shaped(s.first, v.first) && Shaped(s.rest.first, v.rest.first)
                    && Shaped(s.rest.rest.first, v.rest.rest.first) && Shaped(ss, vv))
              && (Finite(s, v) <==>
                    && Finite(s.first, v.first) && Finite(s.rest.first, v.rest.first)
                    && Finite(s.rest.rest.first, v.rest.rest.first) && Finite(ss, vv)))
  {
    var s2, v2 := Next2(s, v);
    ss := s2.rest;
    vv := if v2.VThen? then v2.rest else v;
  }

  lemma ListReads<T>(e: Shape, put: T -> Val, get: Val -> T, xs: seq<T>)
    requires forall i :: 0 <= i < |xs| ==> get(put(xs[i])) == xs[i] && Shaped(e, put(xs[i]))
    ensures MapSeq(get, MapSeq(put, xs)) == xs
    ensures ShapedItems(e, MapSeq(put, xs))
    ensures FiniteItems(e, MapSeq(put, xs)) <==> forall i :: 0 <= i < |xs| ==> Finite(e, put(xs[i]))
  {
    ItemsByIndex(e, MapSeq(put, xs));
  }

  lemma ListWrites<T>(put: T -> Val, get: Val -> T, vs: seq<Val>)
    requires forall i :: 0 <= i < |vs| ==> put(get(vs[i])) == vs[i]
    ensures MapSeq(put, MapSeq(get, vs)) == vs
  {
  }

  // What is left after the first `k` fields: the last field, when it is the last.
  function Tail(v: Val, k: nat): Val
    decreases k
  {
    if k == 0 || !v.VThen? then v else Tail(v.rest, k - 1)
  }

  // The field at position `k`, when it is not the last.
  function Field(v: Val, k: nat): Val
    decreases k
  {
    if !v.VThen? then v else if k == 0 then v.first else Field(v.rest, k - 1)
  }

  function BoolOf(v: Val): bool { v.VBool? && v.flag }
  function CodeOf(v: Val): U8 { if v.VCode? then v.code else 0 }
  function WordOf(v: Val): U32 { if v.VWord? then v.word else 0 }
  function LongOf(v: Val): U64 { if v.VLong? then v.long else 0 }
  function RealOf(v: Val): Double { if v.VReal? then v.bits else 0 }
  function IdOf(v: Val): Id { if v.VId? then v.id else NULL_ID }
  function TextOf(v: Val): Text { if v.VText? then v.text else [] }
  function ElemsOf(v: Val): seq<Val> { if v.VList? then v.elems else [] }

  function TextVal(t: Text): Val { VText(t) }

  // ----- Enumerations, by position (include/replicafabric/core/enums.hpp) -----

  const S_REPLICA_SET_LIFECYCLE: Shape := SChoice(7)

  function ReplicaSetLifecycleVal(x: ReplicaSetLifecycle): (v: Val)
    ensures v.VCode? && v.code < 7
  {
    VCode(match x
          case Created => 0 case Provisioning => 1 case Available => 2 case Degraded => 3 case Draining => 4
          case Retired => 5 case Failed => 6)
  }

  function ReplicaSetLifecycleOf(v: Val): (x: ReplicaSetLifecycle)
    ensures v.VCode? && v.code < 7 ==> ReplicaSetLifecycleVal(x) == v
  {
    match CodeOf(v)
    case 0 => Created case 1 => Provisioning case 2 => Available
    case 3 => ReplicaSetLifecycle.Degraded case 4 => ReplicaSetLifecycle.Draining case 5 => ReplicaSetLifecycle.Retired
    case _ => ReplicaSetLifecycle.Failed
  }

  const S_REPLICA_LIFECYCLE: Shape := SChoice(10)

  function ReplicaLifecycleVal(x: ReplicaLifecycle): (v: Val)
    ensures v.VCode? && v.code < 10
  {
    VCode(match x
          case Declared => 0 case Allocating => 1 case Starting => 2 case Warming => 3 case Ready => 4
          case Serving => 5 case Draining => 6 case Quiesced => 7 case Failed => 8 case Retired => 9)
  }

  function ReplicaLifecycleOf(v: Val): (x: ReplicaLifecycle)
    ensures v.VCode? && v.code < 10 ==> ReplicaLifecycleVal(x) == v
  {
    match CodeOf(v)
    case 0 => Declared case 1 => Allocating case 2 => ReplicaLifecycle.Starting
    case 3 => ReplicaLifecycle.Warming case 4 => ReplicaLifecycle.Ready case 5 => Serving
    case 6 => ReplicaLifecycle.Draining case 7 => ReplicaLifecycle.Quiesced case 8 => ReplicaLifecycle.Failed
    case _ => ReplicaLifecycle.Retired
  }

  const S_HEALTH_STATE: Shape := SChoice(7)

  function HealthStateVal(x: HealthState): (v: Val)
    ensures v.VCode? && v.code < 7
  {
    VCode(match x
          case Unknown => 0 case Starting => 1 case Healthy => 2 case Degraded => 3 case Unhealthy => 4
          case Failed => 5 case Quarantined => 6)
  }

  function HealthStateOf(v: Val): (x: HealthState)
    ensures v.VCode? && v.code < 7 ==> HealthStateVal(x) == v
  {
    match CodeOf(v)
    case 0 => HealthState.Unknown case 1 => HealthState.Starting case 2 => Healthy
    case 3 => HealthState.Degraded case 4 => Unhealthy case 5 => HealthState.Failed
    case _ => Quarantined
  }

  const S_HEALTH_EVIDENCE_KIND: Shape := SChoice(5)

  function HealthEvidenceKindVal(x: HealthEvidenceKind): (v: Val)
    ensures v.VCode? && v.code < 5
  {
    VCode(match x
          case Unknown => 0 case Measured => 1 case Reported => 2 case Derived => 3 case Heuristic => 4)
  }

  function HealthEvidenceKindOf(v: Val): (x: HealthEvidenceKind)
    ensures v.VCode? && v.code < 5 ==> HealthEvidenceKindVal(x) == v
  {
    match CodeOf(v)
    case 0 => HealthEvidenceKind.Unknown case 1 => Measured case 2 => Reported
    case 3 => Derived
    case _ => Heuristic
  }

  const S_WARMTH_STATE: Shape := SChoice(5)

  function WarmthStateVal(x: WarmthState): (v: Val)
    ensures v.VCode? && v.code < 5
  {
    VCode(match x
          case Cold => 0 case Warming => 1 case Warm => 2 case StaleWarmth => 3 case Invalidated => 4)
  }

  function WarmthStateOf(v: Val): (x: WarmthState)
    ensures v.VCode? && v.code < 5 ==> WarmthStateVal(x) == v
  {
    match CodeOf(v)
    case 0 => Cold case 1 => WarmthState.Warming case 2 => Warm
    case 3 => StaleWarmth
    case _ => WarmthState.Invalidated
  }

  const S_READINESS_STATE: Shape := SChoice(3)

  function ReadinessStateVal(x: ReadinessState): (v: Val)
    ensures v.VCode? && v.code < 3
  {
    VCode(match x
          case Unknown => 0 case NotReady => 1 case Ready => 2)
  }

  function ReadinessStateOf(v: Val): (x: ReadinessState)
    ensures v.VCode? && v.code < 3 ==> ReadinessStateVal(x) == v
  {
    match CodeOf(v)
    case 0 => ReadinessState.Unknown case 1 => NotReady
    case _ => ReadinessState.Ready
  }

  const S_PROMOTION_STATE: Shape := SChoice(6)

  function PromotionStateVal(x: PromotionState): (v: Val)
    ensures v.VCode? && v.code < 6
  {
    VCode(match x
          case NotPromoted => 0 case Standby => 1 case Canary => 2 case Replacement => 3 case Recovered => 4
          case Primary => 5)
  }

  function PromotionStateOf(v: Val): (x: PromotionState)
    ensures v.VCode? && v.code < 6 ==> PromotionStateVal(x) == v
  {
    match CodeOf(v)
    case 0 => NotPromoted case 1 => PromotionState.Standby case 2 => PromotionState.Canary
    case 3 => Replacement case 4 => Recovered
    case _ => PromotionState.Primary
  }

  const S_REPLICA_ROLE: Shape := SChoice(5)

  function ReplicaRoleVal(x: ReplicaRole): (v: Val)
    ensures v.VCode? && v.code < 5
  {
    VCode(match x
          case Nobody => 0 case Primary => 1 case Secondary => 2 case Standby => 3 case Canary => 4)
  }

  function ReplicaRoleOf(v: Val): (x: ReplicaRole)
    ensures v.VCode? && v.code < 5 ==> ReplicaRoleVal(x) == v
  {
    match CodeOf(v)
    case 0 => Nobody case 1 => ReplicaRole.Primary case 2 => Secondary
    case 3 => ReplicaRole.Standby
    case _ => ReplicaRole.Canary
  }

  const S_DRAIN_STATE: Shape := SChoice(6)

  function DrainStateVal(x: DrainState): (v: Val)
    ensures v.VCode? && v.code < 6
  {
    VCode(match x
          case NotDraining => 0 case Draining => 1 case Quiescing => 2 case Quiesced => 3 case Complete => 4
          case Cancelled => 5)
  }

  function DrainStateOf(v: Val): (x: DrainState)
    ensures v.VCode? && v.code < 6 ==> DrainStateVal(x) == v
  {
    match CodeOf(v)
    case 0 => NotDraining case 1 => DrainState.Draining case 2 => Quiescing
    case 3 => DrainState.Quiesced case 4 => DrainState.Complete
    case _ => Cancelled
  }

  const S_FAILOVER_STATE: Shape := SChoice(6)

  function FailoverStateVal(x: FailoverState): (v: Val)
    ensures v.VCode? && v.code < 6
  {
    VCode(match x
          case Idle => 0 case Triggered => 1 case Selecting => 2 case Promoting => 3 case Complete => 4
          case Failed => 5)
  }

  function FailoverStateOf(v: Val): (x: FailoverState)
    ensures v.VCode? && v.code < 6 ==> FailoverStateVal(x) == v
  {
    match CodeOf(v)
    case 0 => Idle case 1 => Triggered case 2 => Selecting
    case 3 => Promoting case 4 => FailoverState.Complete
    case _ => FailoverState.Failed
  }

  const S_WORK_OUTCOME: Shape := SChoice(4)

  function WorkOutcomeVal(x: WorkOutcome): (v: Val)
    ensures v.VCode? && v.code < 4
  {
    VCode(match x
          case Unknown => 0 case Succeeded => 1 case Failed => 2 case Ambiguous => 3)
  }

  function WorkOutcomeOf(v: Val): (x: WorkOutcome)
    ensures v.VCode? && v.code < 4 ==> WorkOutcomeVal(x) == v
  {
    match CodeOf(v)
    case 0 => WorkOutcome.Unknown case 1 => Succeeded case 2 => WorkOutcome.Failed
    case _ => Ambiguous
  }

  const S_MEMORY_RESIDENCY_STATE: Shape := SChoice(4)

  function MemoryResidencyStateVal(x: MemoryResidencyState): (v: Val)
    ensures v.VCode? && v.code < 4
  {
    VCode(match x
          case Unknown => 0 case NotResident => 1 case Resident => 2 case Evicted => 3)
  }

  function MemoryResidencyStateOf(v: Val): (x: MemoryResidencyState)
    ensures v.VCode? && v.code < 4 ==> MemoryResidencyStateVal(x) == v
  {
    match CodeOf(v)
    case 0 => MemoryResidencyState.Unknown case 1 => NotResident case 2 => Resident
    case _ => Evicted
  }

  const S_PLACEMENT_STATE: Shape := SChoice(4)

  function PlacementStateVal(x: PlacementState): (v: Val)
    ensures v.VCode? && v.code < 4
  {
    VCode(match x
          case Pending => 0 case Assigned => 1 case Failed => 2 case Invalidated => 3)
  }

  function PlacementStateOf(v: Val): (x: PlacementState)
    ensures v.VCode? && v.code < 4 ==> PlacementStateVal(x) == v
  {
    match CodeOf(v)
    case 0 => Pending case 1 => Assigned case 2 => PlacementState.Failed
    case _ => PlacementState.Invalidated
  }

  const S_ACCELERATOR_KIND: Shape := SChoice(6)

  function AcceleratorKindVal(x: AcceleratorKind): (v: Val)
    ensures v.VCode? && v.code < 6
  {
    VCode(match x
          case NoAccelerator => 0 case Cpu => 1 case Cuda => 2 case Rocm => 3 case Sycl => 4
          case Custom => 5)
  }

  function AcceleratorKindOf(v: Val): (x: AcceleratorKind)
    ensures v.VCode? && v.code < 6 ==> AcceleratorKindVal(x) == v
  {
    match CodeOf(v)
    case 0 => NoAccelerator case 1 => Cpu case 2 => Cuda
    case 3 => Rocm case 4 => Sycl
    case _ => AcceleratorKind.Custom
  }

  const S_BACKEND_KIND: Shape := SChoice(6)

  function BackendKindVal(x: BackendKind): (v: Val)
    ensures v.VCode? && v.code < 6
  {
    VCode(match x
          case NoBackend => 0 case Triton => 1 case TensorRt => 2 case Onnx => 3 case Vllm => 4
          case Custom => 5)
  }

  function BackendKindOf(v: Val): (x: BackendKind)
    ensures v.VCode? && v.code < 6 ==> BackendKindVal(x) == v
  {
    match CodeOf(v)
    case 0 => NoBackend case 1 => Triton case 2 => TensorRt
    case 3 => Onnx case 4 => Vllm
    case _ => BackendKind.Custom
  }

  const S_NUMERIC_MODE: Shape := SChoice(7)

  function NumericModeVal(x: NumericMode): (v: Val)
    ensures v.VCode? && v.code < 7
  {
    VCode(match x
          case Unknown => 0 case Fp32 => 1 case Fp16 => 2 case Bf16 => 3 case Fp8 => 4
          case Int8 => 5 case Mixed => 6)
  }

  function NumericModeOf(v: Val): (x: NumericMode)
    ensures v.VCode? && v.code < 7 ==> NumericModeVal(x) == v
  {
    match CodeOf(v)
    case 0 => NumericMode.Unknown case 1 => Fp32 case 2 => Fp16
    case 3 => Bf16 case 4 => Fp8 case 5 => Int8
    case _ => Mixed
  }

  // ----- Lines 94-95 -----

  function ComputeCapabilityVal(x: ComputeCapability): Val {
    VThen(VWord(Unsigned32(x.major)), VWord(Unsigned32(x.minor)))
  }

  const COMPUTE_CAPABILITY: Shape :=
    SThen(SWord, SWord)

  function ComputeCapabilityOf(v: Val): ComputeCapability {
    ComputeCapability(
      Signed32(WordOf(Field(v, 0))), Signed32(WordOf(Tail(v, 1))))
  }

  lemma ComputeCapabilityReads(x: ComputeCapability)
    ensures ComputeCapabilityOf(ComputeCapabilityVal(x)) == x
    ensures Shaped(COMPUTE_CAPABILITY, ComputeCapabilityVal(x))
    ensures Finite(COMPUTE_CAPABILITY, ComputeCapabilityVal(x))
  {
  }

  lemma ComputeCapabilityWrites(v: Val)
    requires Shaped(COMPUTE_CAPABILITY, v)
    ensures ComputeCapabilityVal(ComputeCapabilityOf(v)) == v
  {
  }

  // ----- Lines 96, 103 -----

  function DeviceCapabilityVal(x: DeviceCapability): Val {
    V3(AcceleratorKindVal(x.kind), VText(x.deviceId), ComputeCapabilityVal(x.compute), VLong(x.memoryBytes))
  }

  const DEVICE_CAPABILITY: Shape :=
    S3(S_ACCELERATOR_KIND, SText, COMPUTE_CAPABILITY, SLong)

  function DeviceCapabilityOf(v: Val): DeviceCapability {
    DeviceCapability(
      AcceleratorKindOf(Field(v, 0)), TextOf(Field(v, 1)), ComputeCapabilityOf(Field(v, 2)), LongOf(Tail(v, 3)))
  }

  lemma DeviceCapabilityReads(x: DeviceCapability)
    ensures DeviceCapabilityOf(DeviceCapabilityVal(x)) == x
    ensures Shaped(DEVICE_CAPABILITY, DeviceCapabilityVal(x))
    ensures Finite(DEVICE_CAPABILITY, DeviceCapabilityVal(x))
  {
    ComputeCapabilityReads(x.compute);
    var (s, w) := (DEVICE_CAPABILITY, DeviceCapabilityVal(x));
    s, w := Next3(s, w);
  }

  lemma DeviceCapabilityWrites(v: Val)
    requires Shaped(DEVICE_CAPABILITY, v)
    ensures DeviceCapabilityVal(DeviceCapabilityOf(v)) == v
  {
    var (s, w) := (DEVICE_CAPABILITY, v);
    s, w := Next3(s, w);
    ComputeCapabilityWrites(Field(v, 2));
  }

  // ----- Lines 97, 104 -----

  function BackendCapabilityVal(x: BackendCapability): Val {
    V3(BackendKindVal(x.kind), VText(x.name), ComputeCapabilityVal(x.compute), NumericModeVal(x.numeric))
  }

  const BACKEND_CAPABILITY: Shape :=
    S3(S_BACKEND_KIND, SText, COMPUTE_CAPABILITY, S_NUMERIC_MODE)

  function BackendCapabilityOf(v: Val): BackendCapability {
    BackendCapability(
      BackendKindOf(Field(v, 0)), TextOf(Field(v, 1)), ComputeCapabilityOf(Field(v, 2)),
      NumericModeOf(Tail(v, 3)))
  }

  lemma BackendCapabilityReads(x: BackendCapability)
    ensures BackendCapabilityOf(BackendCapabilityVal(x)) == x
    ensures Shaped(BACKEND_CAPABILITY, BackendCapabilityVal(x))
    ensures Finite(BACKEND_CAPABILITY, BackendCapabilityVal(x))
  {
    ComputeCapabilityReads(x.compute);
    var (s, w) := (BACKEND_CAPABILITY, BackendCapabilityVal(x));
    s, w := Next3(s, w);
  }

  lemma BackendCapabilityWrites(v: Val)
    requires Shaped(BACKEND_CAPABILITY, v)
    ensures BackendCapabilityVal(BackendCapabilityOf(v)) == v
  {
    var (s, w) := (BACKEND_CAPABILITY, v);
    s, w := Next3(s, w);
    ComputeCapabilityWrites(Field(v, 2));
  }

  // ----- Lines 98-102, 105-113 -----

  function ResourceInventoryVal(x: ResourceInventory): Val {
    V3(VLong(x.totalMemoryBytes), VLong(x.freeMemoryBytes), VWord(Unsigned32(x.acceleratorCount)),
    VThen(VList(MapSeq(DeviceCapabilityVal, x.devices)), VList(MapSeq(BackendCapabilityVal, x.backends))))
  }

  const RESOURCE_INVENTORY: Shape :=
    S3(SLong, SLong, SWord,
    SThen(SList(DEVICE_CAPABILITY), SList(BACKEND_CAPABILITY)))

  function ResourceInventoryOf(v: Val): ResourceInventory {
    ResourceInventory(
      LongOf(Field(v, 0)), LongOf(Field(v, 1)), Signed32(WordOf(Field(v, 2))),
      MapSeq(DeviceCapabilityOf, ElemsOf(Field(v, 3))), MapSeq(BackendCapabilityOf, ElemsOf(Tail(v, 4))))
  }

  lemma ResourceInventoryReads(x: ResourceInventory)
    ensures ResourceInventoryOf(ResourceInventoryVal(x)) == x
    ensures Shaped(RESOURCE_INVENTORY, ResourceInventoryVal(x))
    ensures Finite(RESOURCE_INVENTORY, ResourceInventoryVal(x))
  {
    forall i | 0 <= i < |x.devices| { DeviceCapabilityReads(x.devices[i]); }
    ListReads(DEVICE_CAPABILITY, DeviceCapabilityVal, DeviceCapabilityOf, x.devices);
    forall i | 0 <= i < |x.backends| { BackendCapabilityReads(x.backends[i]); }
    ListReads(BACKEND_CAPABILITY, BackendCapabilityVal, BackendCapabilityOf, x.backends);
    var (s, w) := (RESOURCE_INVENTORY, ResourceInventoryVal(x));
    s, w := Next2(s, w); s, w := Next2(s, w);
  }

  lemma ResourceInventoryWrites(v: Val)
    requires Shaped(RESOURCE_INVENTORY, v)
    ensures ResourceInventoryVal(ResourceInventoryOf(v)) == v
  {
    var (s, w) := (RESOURCE_INVENTORY, v);
    s, w := Next2(s, w); s, w := Next2(s, w);
    var devices := ElemsOf(Field(v, 3));
    assert MapSeq(DeviceCapabilityVal, MapSeq(DeviceCapabilityOf, devices)) == devices by {
      ItemsByIndex(DEVICE_CAPABILITY, devices);
      forall i | 0 <= i < |devices| { DeviceCapabilityWrites(devices[i]); }
      ListWrites(DeviceCapabilityVal, DeviceCapabilityOf, devices);
    }
    var backends := ElemsOf(Tail(v, 4));
    assert MapSeq(BackendCapabilityVal, MapSeq(BackendCapabilityOf, backends)) == backends by {
      ItemsByIndex(BACKEND_CAPABILITY, backends);
      forall i | 0 <= i < |backends| { BackendCapabilityWrites(backends[i]); }
      ListWrites(BackendCapabilityVal, BackendCapabilityOf, backends);
    }
  }

  // ----- Lines 133-141 -----

  function HealthPolicyVal(x: HealthPolicy): Val {
    V4(VBool(x.enabled), VLong(x.expectedIntervalNs), VLong(x.staleAfterNs), VLong(x.degradeAfterNs),
    V3(VWord(x.unhealthyAfterMisses), VWord(x.quarantineAfterFailures), VWord(x.minHealthyObservations),
    VThen(VReal(x.healthThreshold), HealthStateVal(x.initial))))
  }

  const HEALTH_POLICY: Shape :=
    S4(SBool, SLong, SLong, SLong,
    S3(SWord, SWord, SWord,
    SThen(SReal, S_HEALTH_STATE)))

  function HealthPolicyOf(v: Val): HealthPolicy {
    HealthPolicy(
      BoolOf(Field(v, 0)), LongOf(Field(v, 1)), LongOf(Field(v, 2)), LongOf(Field(v, 3)), WordOf(Field(v, 4)),
      WordOf(Field(v, 5)), WordOf(Field(v, 6)), RealOf(Field(v, 7)), HealthStateOf(Tail(v, 8)))
  }

  lemma HealthPolicyReads(x: HealthPolicy)
    ensures HealthPolicyOf(HealthPolicyVal(x)) == x
    ensures Shaped(HEALTH_POLICY, HealthPolicyVal(x))
    ensures Finite(HEALTH_POLICY, HealthPolicyVal(x)) <==> IsFinite(x.healthThreshold)
  {
    var (s, w) := (HEALTH_POLICY, HealthPolicyVal(x));
    s, w := Next3(s, w); s, w := Next3(s, w); s, w := Next2(s, w);
  }

  lemma HealthPolicyWrites(v: Val)
    requires Shaped(HEALTH_POLICY, v)
    ensures HealthPolicyVal(HealthPolicyOf(v)) == v
  {
    var (s, w) := (HEALTH_POLICY, v);
    s, w := Next3(s, w); s, w := Next3(s, w); s, w := Next2(s, w);
  }

  // ----- Lines 142-152 -----

  function WarmingPolicyVal(x: WarmingPolicy): Val {
    V4(VBool(x.enabled), VBool(x.requireArtifactLoaded), VBool(x.requireWeightsResident),
       VBool(x.requireAdaptersActive),
    V4(VBool(x.requireKernelInit), VBool(x.requireGraphInit), VBool(x.requireAllocatorInit),
       VBool(x.requireDeviceContext),
    V3(VBool(x.requireBoundedWarmup), VBool(x.requireEndpoint), VLong(x.warmupWorkSteps), VLong(x.warmupTimeoutNs))))
  }

  const WARMING_POLICY: Shape :=
    S4(SBool, SBool, SBool, SBool,
    S4(SBool, SBool, SBool, SBool,
    S3(SBool, SBool, SLong, SLong)))

  function WarmingPolicyOf(v: Val): WarmingPolicy {
    WarmingPolicy(
      BoolOf(Field(v, 0)), BoolOf(Field(v, 1)), BoolOf(Field(v, 2)), BoolOf(Field(v, 3)), BoolOf(Field(v, 4)),
      BoolOf(Field(v, 5)), BoolOf(Field(v, 6)), BoolOf(Field(v, 7)), BoolOf(Field(v, 8)), BoolOf(Field(v, 9)),
      LongOf(Field(v, 10)), LongOf(Tail(v, 11)))
  }

  lemma WarmingPolicyReads(x: WarmingPolicy)
    ensures WarmingPolicyOf(WarmingPolicyVal(x)) == x
    ensures Shaped(WARMING_POLICY, WarmingPolicyVal(x))
    ensures Finite(WARMING_POLICY, WarmingPolicyVal(x))
  {
    var (s, w) := (WARMING_POLICY, WarmingPolicyVal(x));
    s, w := Next3(s, w); s, w := Next3(s, w); s, w := Next3(s, w); s, w := Next2(s, w);
  }

  lemma WarmingPolicyWrites(v: Val)
    requires Shaped(WARMING_POLICY, v)
    ensures WarmingPolicyVal(WarmingPolicyOf(v)) == v
  {
    var (s, w) := (WARMING_POLICY, v);
    s, w := Next3(s, w); s, w := Next3(s, w); s, w := Next3(s, w); s, w := Next2(s, w);
  }

  // ----- Lines 153-159 -----

  function DrainingPolicyVal(x: DrainingPolicy): Val {
    V3(VBool(x.rejectNewWork), VBool(x.allowExistingToFinish), VBool(x.allowForceCancel),
    VThen(VLong(x.gracePeriodNs), VLong(x.forceCancelAfterNs)))
  }

  const DRAINING_POLICY: Shape :=
    S3(SBool, SBool, SBool,
    SThen(SLong, SLong))

  function DrainingPolicyOf(v: Val): DrainingPolicy {
    DrainingPolicy(
      BoolOf(Field(v, 0)), BoolOf(Field(v, 1)), BoolOf(Field(v, 2)), LongOf(Field(v, 3)), LongOf(Tail(v, 4)))
  }

  lemma DrainingPolicyReads(x: DrainingPolicy)
    ensures DrainingPolicyOf(DrainingPolicyVal(x)) == x
    ensures Shaped(DRAINING_POLICY, DrainingPolicyVal(x))
    ensures Finite(DRAINING_POLICY, DrainingPolicyVal(x))
  {
    var (s, w) := (DRAINING_POLICY, DrainingPolicyVal(x));
    s, w := Next2(s, w); s, w := Next2(s, w);
  }

  lemma DrainingPolicyWrites(v: Val)
    requires Shaped(DRAINING_POLICY, v)
    ensures DrainingPolicyVal(DrainingPolicyOf(v)) == v
  {
    var (s, w) := (DRAINING_POLICY, v);
    s, w := Next2(s, w); s, w := Next2(s, w);
  }

  // ----- Lines 160-168 -----

  function PromotionPolicyVal(x: PromotionPolicy): Val {
    V4(VBool(x.requireReady), VBool(x.requireHealthy), HealthStateVal(x.minHealth), VBool(x.requireCompatible),
    V3(VBool(x.requirePlacementValid), VBool(x.requireResources), VBool(x.requireAuthorityCurrent),
    VThen(VBool(x.allowCanary), VBool(x.autoPromoteStandby))))
  }

  const PROMOTION_POLICY: Shape :=
    S4(SBool, SBool, S_HEALTH_STATE, SBool,
    S3(SBool, SBool, SBool,
    SThen(SBool, SBool)))

  function PromotionPolicyOf(v: Val): PromotionPolicy {
    PromotionPolicy(
      BoolOf(Field(v, 0)), BoolOf(Field(v, 1)), HealthStateOf(Field(v, 2)), BoolOf(Field(v, 3)),
      BoolOf(Field(v, 4)), BoolOf(Field(v, 5)), BoolOf(Field(v, 6)), BoolOf(Field(v, 7)), BoolOf(Tail(v, 8)))
  }

  lemma PromotionPolicyReads(x: PromotionPolicy)
    ensures PromotionPolicyOf(PromotionPolicyVal(x)) == x
    ensures Shaped(PROMOTION_POLICY, PromotionPolicyVal(x))
    ensures Finite(PROMOTION_POLICY, PromotionPolicyVal(x))
  {
    var (s, w) := (PROMOTION_POLICY, PromotionPolicyVal(x));
    s, w := Next3(s, w); s, w := Next3(s, w); s, w := Next2(s, w);
  }

  lemma PromotionPolicyWrites(v: Val)
    requires Shaped(PROMOTION_POLICY, v)
    ensures PromotionPolicyVal(PromotionPolicyOf(v)) == v
  {
    var (s, w) := (PROMOTION_POLICY, v);
    s, w := Next3(s, w); s, w := Next3(s, w); s, w := Next2(s, w);
  }

  // ----- Lines 169-170 -----

  function FailoverPolicyVal(x: FailoverPolicy): Val {
    V3(VBool(x.requireDiversity), VBool(x.preferStandbyFirst), VWord(x.maxAttempts),
    VThen(VBool(x.preserveGeneration), VBool(x.rejectAmbiguousOutcome)))
  }

  const FAILOVER_POLICY: Shape :=
    S3(SBool, SBool, SWord,
    SThen(SBool, SBool))

  function FailoverPolicyOf(v: Val): FailoverPolicy {
    FailoverPolicy(
      BoolOf(Field(v, 0)), BoolOf(Field(v, 1)), WordOf(Field(v, 2)), BoolOf(Field(v, 3)), BoolOf(Tail(v, 4)))
  }

  lemma FailoverPolicyReads(x: FailoverPolicy)
    ensures FailoverPolicyOf(FailoverPolicyVal(x)) == x
    ensures Shaped(FAILOVER_POLICY, FailoverPolicyVal(x))
    ensures Finite(FAILOVER_POLICY, FailoverPolicyVal(x))
  {
    var (s, w) := (FAILOVER_POLICY, FailoverPolicyVal(x));
    s, w := Next2(s, w); s, w := Next2(s, w);
  }

  lemma FailoverPolicyWrites(v: Val)
    requires Shaped(FAILOVER_POLICY, v)
    ensures FailoverPolicyVal(FailoverPolicyOf(v)) == v
  {
    var (s, w) := (FAILOVER_POLICY, v);
    s, w := Next2(s, w); s, w := Next2(s, w);
  }

  // ----- Lines 171-172 -----

  function PolicyBundleVal(x: PolicyBundle): Val {
    V3(HealthPolicyVal(x.health), WarmingPolicyVal(x.warming), DrainingPolicyVal(x.draining),
    VThen(PromotionPolicyVal(x.promotion), FailoverPolicyVal(x.failover)))
  }

  const POLICY_BUNDLE: Shape :=
    S3(HEALTH_POLICY, WARMING_POLICY, DRAINING_POLICY,
    SThen(PROMOTION_POLICY, FAILOVER_POLICY))

  function PolicyBundleOf(v: Val): PolicyBundle {
    PolicyBundle(
      HealthPolicyOf(Field(v, 0)), WarmingPolicyOf(Field(v, 1)), DrainingPolicyOf(Field(v, 2)),
      PromotionPolicyOf(Field(v, 3)), FailoverPolicyOf(Tail(v, 4)))
  }

  lemma PolicyBundleReads(x: PolicyBundle)
    ensures PolicyBundleOf(PolicyBundleVal(x)) == x
    ensures Shaped(POLICY_BUNDLE, PolicyBundleVal(x))
    ensures Finite(POLICY_BUNDLE, PolicyBundleVal(x)) <==> IsFinite(x.health.healthThreshold)
  {
    HealthPolicyReads(x.health);
    WarmingPolicyReads(x.warming);
    DrainingPolicyReads(x.draining);
    PromotionPolicyReads(x.promotion);
    FailoverPolicyReads(x.failover);
    var (s, w) := (POLICY_BUNDLE, PolicyBundleVal(x));
    s, w := Next2(s, w); s, w := Next2(s, w);
  }

  lemma PolicyBundleWrites(v: Val)
    requires Shaped(POLICY_BUNDLE, v)
    ensures PolicyBundleVal(PolicyBundleOf(v)) == v
  {
    var (s, w) := (POLICY_BUNDLE, v);
    s, w := Next2(s, w); s, w := Next2(s, w);
    HealthPolicyWrites(Field(v, 0));
    WarmingPolicyWrites(Field(v, 1));
    DrainingPolicyWrites(Field(v, 2));
    PromotionPolicyWrites(Field(v, 3));
    FailoverPolicyWrites(Tail(v, 4));
  }

  // ----- Lines 176, 182 -----

  function SyntheticFailureDomainVal(x: SyntheticFailureDomain): Val {
    VThen(VText(x.domainLabel), VText(x.kind))
  }

  const SYNTHETIC_FAILURE_DOMAIN: Shape :=
    SThen(SText, SText)

  function SyntheticFailureDomainOf(v: Val): SyntheticFailureDomain {
    SyntheticFailureDomain(
      TextOf(Field(v, 0)), TextOf(Tail(v, 1)))
  }

  lemma SyntheticFailureDomainReads(x: SyntheticFailureDomain)
    ensures SyntheticFailureDomainOf(SyntheticFailureDomainVal(x)) == x
    ensures Shaped(SYNTHETIC_FAILURE_DOMAIN, SyntheticFailureDomainVal(x))
    ensures Finite(SYNTHETIC_FAILURE_DOMAIN, SyntheticFailureDomainVal(x))
  {
  }

  lemma SyntheticFailureDomainWrites(v: Val)
    requires Shaped(SYNTHETIC_FAILURE_DOMAIN, v)
    ensures SyntheticFailureDomainVal(SyntheticFailureDomainOf(v)) == v
  {
  }

  // ----- Lines 174-185 -----

  function PlacementPolicyVal(x: PlacementPolicy): Val {
    V3(VList(MapSeq(TextVal, x.antiAffinityDomains)), VList(MapSeq(SyntheticFailureDomainVal, x.syntheticDomains)),
       VBool(x.requireDiversity),
    V3(VText(x.preferredHost), VText(x.preferredNuma), VText(x.preferredDevice),
    VThen(VText(x.preferredFailureDomain), VWord(x.tieBreakStrategy))))
  }

  const PLACEMENT_POLICY: Shape :=
    S3(SList(SText), SList(SYNTHETIC_FAILURE_DOMAIN), SBool,
    S3(SText, SText, SText,
    SThen(SText, SWord)))

  function PlacementPolicyOf(v: Val): PlacementPolicy {
    PlacementPolicy(
      MapSeq(TextOf, ElemsOf(Field(v, 0))), MapSeq(SyntheticFailureDomainOf, ElemsOf(Field(v, 1))),
      BoolOf(Field(v, 2)), TextOf(Field(v, 3)), TextOf(Field(v, 4)), TextOf(Field(v, 5)), TextOf(Field(v, 6)),
      WordOf(Tail(v, 7)))
  }

  lemma PlacementPolicyReads(x: PlacementPolicy)
    ensures PlacementPolicyOf(PlacementPolicyVal(x)) == x
    ensures Shaped(PLACEMENT_POLICY, PlacementPolicyVal(x))
    ensures Finite(PLACEMENT_POLICY, PlacementPolicyVal(x))
  {
    ListReads(SText, TextVal, TextOf, x.antiAffinityDomains);
    forall i | 0 <= i < |x.syntheticDomains| { SyntheticFailureDomainReads(x.syntheticDomains[i]); }
    ListReads(SYNTHETIC_FAILURE_DOMAIN, SyntheticFailureDomainVal, SyntheticFailureDomainOf, x.syntheticDomains);
    var (s, w) := (PLACEMENT_POLICY, PlacementPolicyVal(x));
    s, w := Next3(s, w); s, w := Next2(s, w); s, w := Next2(s, w);
  }

  lemma PlacementPolicyWrites(v: Val)
    requires Shaped(PLACEMENT_POLICY, v)
    ensures PlacementPolicyVal(PlacementPolicyOf(v)) == v
  {
    var (s, w) := (PLACEMENT_POLICY, v);
    s, w := Next3(s, w); s, w := Next2(s, w); s, w := Next2(s, w);
    var antiAffinityDomains := ElemsOf(Field(v, 0));
    assert MapSeq(TextVal, MapSeq(TextOf, antiAffinityDomains)) == antiAffinityDomains by {
      ItemsByIndex(SText, antiAffinityDomains);
      ListWrites(TextVal, TextOf, antiAffinityDomains);
    }
    var syntheticDomains := ElemsOf(Field(v, 1));
    assert MapSeq(SyntheticFailureDomainVal, MapSeq(SyntheticFailureDomainOf,
        syntheticDomains)) == syntheticDomains by {
      ItemsByIndex(SYNTHETIC_FAILURE_DOMAIN, syntheticDomains);
      forall i | 0 <= i < |syntheticDomains| { SyntheticFailureDomainWrites(syntheticDomains[i]); }
      ListWrites(SyntheticFailureDomainVal, SyntheticFailureDomainOf, syntheticDomains);
    }
  }

  // ----- Lines 187-198 -----

  function CompatibilityRequirementsVal(x: CompatibilityRequirements): Val {
    V4(VId(x.modelId), VText(x.modelRevision), VText(x.tokenizerVocab), VList(MapSeq(TextVal, x.requiredAdapters)),
    V4(BackendKindVal(x.backend), VText(x.runtimeName), VText(x.architecture), ComputeCapabilityVal(x.minCompute),
    V3(NumericModeVal(x.numericMode), VId(x.artifactGeneration), VText(x.kernelAbi), VText(x.policyFingerprint))))
  }

  const COMPATIBILITY_REQUIREMENTS: Shape :=
    S4(SId, SText, SText, SList(SText),
    S4(S_BACKEND_KIND, SText, SText, COMPUTE_CAPABILITY,
    S3(S_NUMERIC_MODE, SId, SText, SText)))

  function CompatibilityRequirementsOf(v: Val): CompatibilityRequirements {
    CompatibilityRequirements(
      IdOf(Field(v, 0)), TextOf(Field(v, 1)), TextOf(Field(v, 2)), MapSeq(TextOf, ElemsOf(Field(v, 3))),
      BackendKindOf(Field(v, 4)), TextOf(Field(v, 5)), TextOf(Field(v, 6)), ComputeCapabilityOf(Field(v, 7)),
      NumericModeOf(Field(v, 8)), IdOf(Field(v, 9)), TextOf(Field(v, 10)), TextOf(Tail(v, 11)))
  }

  lemma CompatibilityRequirementsReads(x: CompatibilityRequirements)
    ensures CompatibilityRequirementsOf(CompatibilityRequirementsVal(x)) == x
    ensures Shaped(COMPATIBILITY_REQUIREMENTS, CompatibilityRequirementsVal(x))
    ensures Finite(COMPATIBILITY_REQUIREMENTS, CompatibilityRequirementsVal(x))
  {
    ComputeCapabilityReads(x.minCompute);
    ListReads(SText, TextVal, TextOf, x.requiredAdapters);
    var (s, w) := (COMPATIBILITY_REQUIREMENTS, CompatibilityRequirementsVal(x));
    s, w := Next3(s, w); s, w := Next3(s, w); s, w := Next3(s, w); s, w := Next2(s, w);
  }

  lemma CompatibilityRequirementsWrites(v: Val)
    requires Shaped(COMPATIBILITY_REQUIREMENTS, v)
    ensures CompatibilityRequirementsVal(CompatibilityRequirementsOf(v)) == v
  {
    var (s, w) := (COMPATIBILITY_REQUIREMENTS, v);
    s, w := Next3(s, w); s, w := Next3(s, w); s, w := Next3(s, w); s, w := Next2(s, w);
    ComputeCapabilityWrites(Field(v, 7));
    var requiredAdapters := ElemsOf(Field(v, 3));
    ItemsByIndex(SText, requiredAdapters);
    ListWrites(TextVal, TextOf, requiredAdapters);
  }

  // ----- Lines 199-210 -----

  function ReplicaCompatibilityVal(x: ReplicaCompatibility): Val {
    V4(VId(x.modelId), VText(x.modelRevision), VText(x.tokenizerVocab), VList(MapSeq(TextVal, x.adapters)),
    V4(BackendKindVal(x.backend), VText(x.runtimeName), VText(x.architecture), ComputeCapabilityVal(x.compute),
    V3(NumericModeVal(x.numericMode), VId(x.artifactGeneration), VText(x.kernelAbi), VText(x.policyFingerprint))))
  }

  const REPLICA_COMPATIBILITY: Shape :=
    S4(SId, SText, SText, SList(SText),
    S4(S_BACKEND_KIND, SText, SText, COMPUTE_CAPABILITY,
    S3(S_NUMERIC_MODE, SId, SText, SText)))

  function ReplicaCompatibilityOf(v: Val): ReplicaCompatibility {
    ReplicaCompatibility(
      IdOf(Field(v, 0)), TextOf(Field(v, 1)), TextOf(Field(v, 2)), MapSeq(TextOf, ElemsOf(Field(v, 3))),
      BackendKindOf(Field(v, 4)), TextOf(Field(v, 5)), TextOf(Field(v, 6)), ComputeCapabilityOf(Field(v, 7)),
      NumericModeOf(Field(v, 8)), IdOf(Field(v, 9)), TextOf(Field(v, 10)), TextOf(Tail(v, 11)))
  }

  lemma ReplicaCompatibilityReads(x: ReplicaCompatibility)
    ensures ReplicaCompatibilityOf(ReplicaCompatibilityVal(x)) == x
    ensures Shaped(REPLICA_COMPATIBILITY, ReplicaCompatibilityVal(x))
    ensures Finite(REPLICA_COMPATIBILITY, ReplicaCompatibilityVal(x))
  {
    ComputeCapabilityReads(x.compute);
    ListReads(SText, TextVal, TextOf, x.adapters);
    var (s, w) := (REPLICA_COMPATIBILITY, ReplicaCompatibilityVal(x));
    s, w := Next3(s, w); s, w := Next3(s, w); s, w := Next3(s, w); s, w := Next2(s, w);
  }

  lemma ReplicaCompatibilityWrites(v: Val)
    requires Shaped(REPLICA_COMPATIBILITY, v)
    ensures ReplicaCompatibilityVal(ReplicaCompatibilityOf(v)) == v
  {
    var (s, w) := (REPLICA_COMPATIBILITY, v);
    s, w := Next3(s, w); s, w := Next3(s, w); s, w := Next3(s, w); s, w := Next2(s, w);
    ComputeCapabilityWrites(Field(v, 7));
    var adapters := ElemsOf(Field(v, 3));
    ItemsByIndex(SText, adapters);
    ListWrites(TextVal, TextOf, adapters);
  }

  // ----- Lines 212-220 -----

  function HealthRecordVal(x: HealthRecord): Val {
    V5(HealthStateVal(x.state), HealthEvidenceKindVal(x.kind), VText(x.source), VLong(x.updatedAtMono),
       VLong(Unsigned64(x.updatedAtWall)),
    V3(VReal(x.confidence), VId(x.generation), VText(x.reason),
    VThen(VWord(x.consecutiveStale), VWord(x.consecutiveFailures))))
  }

  const HEALTH_RECORD: Shape :=
    S5(S_HEALTH_STATE, S_HEALTH_EVIDENCE_KIND, SText, SLong, SLong,
    S3(SReal, SId, SText,
    SThen(SWord, SWord)))

  function HealthRecordOf(v: Val): HealthRecord {
    HealthRecord(
      HealthStateOf(Field(v, 0)), HealthEvidenceKindOf(Field(v, 1)), TextOf(Field(v, 2)), LongOf(Field(v, 3)),
      Signed64(LongOf(Field(v, 4))), RealOf(Field(v, 5)), IdOf(Field(v, 6)), TextOf(Field(v, 7)),
      WordOf(Field(v, 8)), WordOf(Tail(v, 9)))
  }

  lemma HealthRecordReads(x: HealthRecord)
    ensures HealthRecordOf(HealthRecordVal(x)) == x
    ensures Shaped(HEALTH_RECORD, HealthRecordVal(x))
    ensures Finite(HEALTH_RECORD, HealthRecordVal(x)) <==> IsFinite(x.confidence)
  {
    var (s, w) := (HEALTH_RECORD, HealthRecordVal(x));
    s, w := Next3(s, w); s, w := Next3(s, w); s, w := Next3(s, w);
  }

  lemma HealthRecordWrites(v: Val)
    requires Shaped(HEALTH_RECORD, v)
    ensures HealthRecordVal(HealthRecordOf(v)) == v
  {
    var (s, w) := (HEALTH_RECORD, v);
    s, w := Next3(s, w); s, w := Next3(s, w); s, w := Next3(s, w);
  }

  // ----- Lines 223-225, 230-232: a record of 11 fields, in 3 groups of consecutive lines -----

  datatype ArtifactFactors = ArtifactFactors(
    modelLoaded: bool, artifactValidated: bool, adaptersPresent: bool, kernelPrepared: bool)

  datatype DeviceFactors = DeviceFactors(
    graphPrepared: bool, memoryAvailable: bool, deviceContextInitialized: bool, warmupComplete: bool)

  datatype EndpointFactors = EndpointFactors(
    dependenciesReady: bool, endpointRegistered: bool, policyCurrent: bool)

  // ----- Lines 223, 230 -----

  function ArtifactFactorsVal(x: ArtifactFactors): Val {
    V3(VBool(x.modelLoaded), VBool(x.artifactValidated), VBool(x.adaptersPresent), VBool(x.kernelPrepared))
  }

  const ARTIFACT_FACTORS: Shape :=
    S3(SBool, SBool, SBool, SBool)

  function ArtifactFactorsOf(v: Val): ArtifactFactors {
    ArtifactFactors(
      BoolOf(Field(v, 0)), BoolOf(Field(v, 1)), BoolOf(Field(v, 2)), BoolOf(Tail(v, 3)))
  }

  lemma ArtifactFactorsReads(x: ArtifactFactors)
    ensures ArtifactFactorsOf(ArtifactFactorsVal(x)) == x
    ensures Shaped(ARTIFACT_FACTORS, ArtifactFactorsVal(x))
    ensures Finite(ARTIFACT_FACTORS, ArtifactFactorsVal(x))
  {
    var (s, w) := (ARTIFACT_FACTORS, ArtifactFactorsVal(x));
    s, w := Next3(s, w);
  }

  lemma ArtifactFactorsWrites(v: Val)
    requires Shaped(ARTIFACT_FACTORS, v)
    ensures ArtifactFactorsVal(ArtifactFactorsOf(v)) == v
  {
    var (s, w) := (ARTIFACT_FACTORS, v);
    s, w := Next3(s, w);
  }

  // ----- Lines 224, 231 -----

  function DeviceFactorsVal(x: DeviceFactors): Val {
    V3(VBool(x.graphPrepared), VBool(x.memoryAvailable), VBool(x.deviceContextInitialized), VBool(x.warmupComplete))
  }

  const DEVICE_FACTORS: Shape :=
    S3(SBool, SBool, SBool, SBool)

  function DeviceFactorsOf(v: Val): DeviceFactors {
    DeviceFactors(
      BoolOf(Field(v, 0)), BoolOf(Field(v, 1)), BoolOf(Field(v, 2)), BoolOf(Tail(v, 3)))
  }

  lemma DeviceFactorsReads(x: DeviceFactors)
    ensures DeviceFactorsOf(DeviceFactorsVal(x)) == x
    ensures Shaped(DEVICE_FACTORS, DeviceFactorsVal(x))
    ensures Finite(DEVICE_FACTORS, DeviceFactorsVal(x))
  {
    var (s, w) := (DEVICE_FACTORS, DeviceFactorsVal(x));
    s, w := Next3(s, w);
  }

  lemma DeviceFactorsWrites(v: Val)
    requires Shaped(DEVICE_FACTORS, v)
    ensures DeviceFactorsVal(DeviceFactorsOf(v)) == v
  {
    var (s, w) := (DEVICE_FACTORS, v);
    s, w := Next3(s, w);
  }

  // ----- Lines 225, 232 -----

  function EndpointFactorsVal(x: EndpointFactors): Val {
    V2(VBool(x.dependenciesReady), VBool(x.endpointRegistered), VBool(x.policyCurrent))
  }

  const ENDPOINT_FACTORS: Shape :=
    S2(SBool, SBool, SBool)

  function EndpointFactorsOf(v: Val): EndpointFactors {
    EndpointFactors(
      BoolOf(Field(v, 0)), BoolOf(Field(v, 1)), BoolOf(Tail(v, 2)))
  }

  lemma EndpointFactorsReads(x: EndpointFactors)
    ensures EndpointFactorsOf(EndpointFactorsVal(x)) == x
    ensures Shaped(ENDPOINT_FACTORS, EndpointFactorsVal(x))
    ensures Finite(ENDPOINT_FACTORS, EndpointFactorsVal(x))
  {
    var (s, w) := (ENDPOINT_FACTORS, EndpointFactorsVal(x));
    s, w := Next2(s, w);
  }

  lemma EndpointFactorsWrites(v: Val)
    requires Shaped(ENDPOINT_FACTORS, v)
    ensures EndpointFactorsVal(EndpointFactorsOf(v)) == v
  {
    var (s, w) := (ENDPOINT_FACTORS, v);
    s, w := Next2(s, w);
  }

  function ReadinessFactorsVal(x: ReadinessFactors): Val {
    V2(
      ArtifactFactorsVal(ArtifactFactors(x.modelLoaded, x.artifactValidated, x.adaptersPresent, x.kernelPrepared)),
      DeviceFactorsVal(DeviceFactors(x.graphPrepared, x.memoryAvailable, x.deviceContextInitialized,
        x.warmupComplete)),
      EndpointFactorsVal(EndpointFactors(x.dependenciesReady, x.endpointRegistered, x.policyCurrent)))
  }

  const READINESS_FACTORS: Shape :=
    S2(ARTIFACT_FACTORS, DEVICE_FACTORS, ENDPOINT_FACTORS)

  function ReadinessFactorsOf(v: Val): ReadinessFactors {
    var a := ArtifactFactorsOf(Field(v, 0));
    var b := DeviceFactorsOf(Field(v, 1));
    var c := EndpointFactorsOf(Tail(v, 2));
    ReadinessFactors(
      a.modelLoaded, a.artifactValidated, a.adaptersPresent, a.kernelPrepared, b.graphPrepared,
      b.memoryAvailable, b.deviceContextInitialized, b.warmupComplete, c.dependenciesReady,
      c.endpointRegistered, c.policyCurrent)
  }

  lemma ReadinessFactorsReads(x: ReadinessFactors)
    ensures ReadinessFactorsOf(ReadinessFactorsVal(x)) == x
    ensures Shaped(READINESS_FACTORS, ReadinessFactorsVal(x))
    ensures Finite(READINESS_FACTORS, ReadinessFactorsVal(x))
  {
    ArtifactFactorsReads(ArtifactFactors(x.modelLoaded, x.artifactValidated, x.adaptersPresent, x.kernelPrepared));
    DeviceFactorsReads(DeviceFactors(x.graphPrepared, x.memoryAvailable, x.deviceContextInitialized,
      x.warmupComplete));
    EndpointFactorsReads(EndpointFactors(x.dependenciesReady, x.endpointRegistered, x.policyCurrent));
    var (s, w) := (READINESS_FACTORS, ReadinessFactorsVal(x));
    s, w := Next2(s, w);
  }

  lemma ReadinessFactorsWrites(v: Val)
    requires Shaped(READINESS_FACTORS, v)
    ensures ReadinessFactorsVal(ReadinessFactorsOf(v)) == v
  {
    var (s, w) := (READINESS_FACTORS, v);
    s, w := Next2(s, w);
    ArtifactFactorsWrites(Field(v, 0));
    DeviceFactorsWrites(Field(v, 1));
    EndpointFactorsWrites(Tail(v, 2));
  }

  // ----- Lines 221-234 -----

  function ReadinessRecordVal(x: ReadinessRecord): Val {
    V2(ReadinessStateVal(x.state), ReadinessFactorsVal(x.factors),
    V2(VLong(x.updatedAtMono), VLong(Unsigned64(x.updatedAtWall)), VText(x.reason)))
  }

  const READINESS_RECORD: Shape :=
    S2(S_READINESS_STATE, READINESS_FACTORS,
    S2(SLong, SLong, SText))

  function ReadinessRecordOf(v: Val): ReadinessRecord {
    ReadinessRecord(
      ReadinessStateOf(Field(v, 0)), ReadinessFactorsOf(Field(v, 1)), LongOf(Field(v, 2)),
      Signed64(LongOf(Field(v, 3))), TextOf(Tail(v, 4)))
  }

  lemma ReadinessRecordReads(x: ReadinessRecord)
    ensures ReadinessRecordOf(ReadinessRecordVal(x)) == x
    ensures Shaped(READINESS_RECORD, ReadinessRecordVal(x))
    ensures Finite(READINESS_RECORD, ReadinessRecordVal(x))
  {
    ReadinessFactorsReads(x.factors);
    var (s, w) := (READINESS_RECORD, ReadinessRecordVal(x));
    s, w := Next2(s, w); s, w := Next2(s, w);
  }

  lemma ReadinessRecordWrites(v: Val)
    requires Shaped(READINESS_RECORD, v)
    ensures ReadinessRecordVal(ReadinessRecordOf(v)) == v
  {
    var (s, w) := (READINESS_RECORD, v);
    s, w := Next2(s, w); s, w := Next2(s, w);
    ReadinessFactorsWrites(Field(v, 1));
  }

  // ----- Lines 235-247: a record of 16 fields, in 2 groups of consecutive lines -----

  datatype WarmingSteps = WarmingSteps(
    state: WarmthState, stepsCompleted: U64, stepsRequired: U64, artifactLoadingDone: bool,
    weightsResident: bool, adaptersActive: bool, kernelInitDone: bool)

  datatype WarmingEnd = WarmingEnd(
    graphInitDone: bool, allocatorInitDone: bool, deviceContextDone: bool, warmupExecutionDone: bool,
    endpointRegistered: bool, startedWarmingMono: U64, becameWarmMono: U64, becameWarmWall: I64,
    message: Text)

  // ----- Lines 236-237 -----

  function WarmingStepsVal(x: WarmingSteps): Val {
    V3(WarmthStateVal(x.state), VLong(x.stepsCompleted), VLong(x.stepsRequired),
    V3(VBool(x.artifactLoadingDone), VBool(x.weightsResident), VBool(x.adaptersActive), VBool(x.kernelInitDone)))
  }

  const WARMING_STEPS: Shape :=
    S3(S_WARMTH_STATE, SLong, SLong,
    S3(SBool, SBool, SBool, SBool))

  function WarmingStepsOf(v: Val): WarmingSteps {
    WarmingSteps(
      WarmthStateOf(Field(v, 0)), LongOf(Field(v, 1)), LongOf(Field(v, 2)), BoolOf(Field(v, 3)),
      BoolOf(Field(v, 4)), BoolOf(Field(v, 5)), BoolOf(Tail(v, 6)))
  }

  lemma WarmingStepsReads(x: WarmingSteps)
    ensures WarmingStepsOf(WarmingStepsVal(x)) == x
    ensures Shaped(WARMING_STEPS, WarmingStepsVal(x))
    ensures Finite(WARMING_STEPS, WarmingStepsVal(x))
  {
    var (s, w) := (WARMING_STEPS, WarmingStepsVal(x));
    s, w := Next3(s, w); s, w := Next3(s, w);
  }

  lemma WarmingStepsWrites(v: Val)
    requires Shaped(WARMING_STEPS, v)
    ensures WarmingStepsVal(WarmingStepsOf(v)) == v
  {
    var (s, w) := (WARMING_STEPS, v);
    s, w := Next3(s, w); s, w := Next3(s, w);
  }

  // ----- Lines 238-239 -----

  function WarmingEndVal(x: WarmingEnd): Val {
    V5(VBool(x.graphInitDone), VBool(x.allocatorInitDone), VBool(x.deviceContextDone), VBool(x.warmupExecutionDone),
       VBool(x.endpointRegistered),
    V3(VLong(x.startedWarmingMono), VLong(x.becameWarmMono), VLong(Unsigned64(x.becameWarmWall)), VText(x.message)))
  }

  const WARMING_END: Shape :=
    S5(SBool, SBool, SBool, SBool, SBool,
    S3(SLong, SLong, SLong, SText))

  function WarmingEndOf(v: Val): WarmingEnd {
    WarmingEnd(
      BoolOf(Field(v, 0)), BoolOf(Field(v, 1)), BoolOf(Field(v, 2)), BoolOf(Field(v, 3)), BoolOf(Field(v, 4)),
      LongOf(Field(v, 5)), LongOf(Field(v, 6)), Signed64(LongOf(Field(v, 7))), TextOf(Tail(v, 8)))
  }

  lemma WarmingEndReads(x: WarmingEnd)
    ensures WarmingEndOf(WarmingEndVal(x)) == x
    ensures Shaped(WARMING_END, WarmingEndVal(x))
    ensures Finite(WARMING_END, WarmingEndVal(x))
  {
    var (s, w) := (WARMING_END, WarmingEndVal(x));
    s, w := Next3(s, w); s, w := Next3(s, w); s, w := Next2(s, w);
  }

  lemma WarmingEndWrites(v: Val)
    requires Shaped(WARMING_END, v)
    ensures WarmingEndVal(WarmingEndOf(v)) == v
  {
    var (s, w) := (WARMING_END, v);
    s, w := Next3(s, w); s, w := Next3(s, w); s, w := Next2(s, w);
  }

  function WarmingRecordVal(x: WarmingRecord): Val {
    VThen(
      WarmingStepsVal(WarmingSteps(x.state, x.stepsCompleted, x.stepsRequired, x.artifactLoadingDone,
        x.weightsResident, x.adaptersActive, x.kernelInitDone)),
      WarmingEndVal(WarmingEnd(x.graphInitDone, x.allocatorInitDone, x.deviceContextDone, x.warmupExecutionDone,
        x.endpointRegistered, x.startedWarmingMono, x.becameWarmMono, x.becameWarmWall, x.message)))
  }

  const WARMING_RECORD: Shape :=
    SThen(WARMING_STEPS, WARMING_END)

  function WarmingRecordOf(v: Val): WarmingRecord {
    var a := WarmingStepsOf(Field(v, 0));
    var b := WarmingEndOf(Tail(v, 1));
    WarmingRecord(
      a.state, a.stepsCompleted, a.stepsRequired, a.artifactLoadingDone, a.weightsResident, a.adaptersActive,
      a.kernelInitDone, b.graphInitDone, b.allocatorInitDone, b.deviceContextDone, b.warmupExecutionDone,
      b.endpointRegistered, b.startedWarmingMono, b.becameWarmMono, b.becameWarmWall, b.message)
  }

  lemma WarmingRecordReads(x: WarmingRecord)
    ensures WarmingRecordOf(WarmingRecordVal(x)) == x
    ensures Shaped(WARMING_RECORD, WarmingRecordVal(x))
    ensures Finite(WARMING_RECORD, WarmingRecordVal(x))
  {
    WarmingStepsReads(WarmingSteps(x.state, x.stepsCompleted, x.stepsRequired, x.artifactLoadingDone,
      x.weightsResident, x.adaptersActive, x.kernelInitDone));
    WarmingEndReads(WarmingEnd(x.graphInitDone, x.allocatorInitDone, x.deviceContextDone, x.warmupExecutionDone,
      x.endpointRegistered, x.startedWarmingMono, x.becameWarmMono, x.becameWarmWall, x.message));
  }

  lemma WarmingRecordWrites(v: Val)
    requires Shaped(WARMING_RECORD, v)
    ensures WarmingRecordVal(WarmingRecordOf(v)) == v
  {
    WarmingStepsWrites(Field(v, 0));
    WarmingEndWrites(Tail(v, 1));
  }

  // ----- Lines 249-265: a record of 20 fields, in 3 groups of consecutive lines -----

  datatype SetIdentity = SetIdentity(
    id: ReplicaSetId, modelId: Id, workloadId: Id, tenantId: Id, desiredCount: U32, minHealthy: U32,
    maxReplicas: U32, artifactId: Id, artifactGeneration: Generation, generation: Generation,
    policyGeneration: Generation)

  datatype SetPolicy = SetPolicy(
    lifecycle: ReplicaSetLifecycle, compatibility: CompatibilityRequirements, policies: PolicyBundle,
    placementPolicy: PlacementPolicy)

  datatype SetDemand = SetDemand(
    backend: BackendKind, runtimeName: Text, minCompute: ComputeCapability,
    memoryRequirementBytes: U64, acceleratorRequirement: U32)

  // ----- Lines 249-252 -----

  function SetIdentityVal(x: SetIdentity): Val {
    V4(VId(x.id), VId(x.modelId), VId(x.workloadId), VId(x.tenantId),
    V3(VWord(x.desiredCount), VWord(x.minHealthy), VWord(x.maxReplicas),
    V3(VId(x.artifactId), VId(x.artifactGeneration), VId(x.generation), VId(x.policyGeneration))))
  }

  const SET_IDENTITY: Shape :=
    S4(SId, SId, SId, SId,
    S3(SWord, SWord, SWord,
    S3(SId, SId, SId, SId)))

  function SetIdentityOf(v: Val): SetIdentity {
    SetIdentity(
      IdOf(Field(v, 0)), IdOf(Field(v, 1)), IdOf(Field(v, 2)), IdOf(Field(v, 3)), WordOf(Field(v, 4)),
      WordOf(Field(v, 5)), WordOf(Field(v, 6)), IdOf(Field(v, 7)), IdOf(Field(v, 8)), IdOf(Field(v, 9)),
      IdOf(Tail(v, 10)))
  }

  lemma SetIdentityReads(x: SetIdentity)
    ensures SetIdentityOf(SetIdentityVal(x)) == x
    ensures Shaped(SET_IDENTITY, SetIdentityVal(x))
    ensures Finite(SET_IDENTITY, SetIdentityVal(x))
  {
    var (s, w) := (SET_IDENTITY, SetIdentityVal(x));
    s, w := Next3(s, w); s, w := Next3(s, w); s, w := Next2(s, w); s, w := Next2(s, w);
  }

  lemma SetIdentityWrites(v: Val)
    requires Shaped(SET_IDENTITY, v)
    ensures SetIdentityVal(SetIdentityOf(v)) == v
  {
    var (s, w) := (SET_IDENTITY, v);
    s, w := Next3(s, w); s, w := Next3(s, w); s, w := Next2(s, w); s, w := Next2(s, w);
  }

  // ----- Lines 253-254 -----

  function SetPolicyVal(x: SetPolicy): Val {
    V3(ReplicaSetLifecycleVal(x.lifecycle), CompatibilityRequirementsVal(x.compatibility),
       PolicyBundleVal(x.policies), PlacementPolicyVal(x.placementPolicy))
  }

  const SET_POLICY: Shape :=
    S3(S_REPLICA_SET_LIFECYCLE, COMPATIBILITY_REQUIREMENTS, POLICY_BUNDLE, PLACEMENT_POLICY)

  function SetPolicyOf(v: Val): SetPolicy {
    SetPolicy(
      ReplicaSetLifecycleOf(Field(v, 0)), CompatibilityRequirementsOf(Field(v, 1)), PolicyBundleOf(Field(v, 2)),
      PlacementPolicyOf(Tail(v, 3)))
  }

  lemma SetPolicyReads(x: SetPolicy)
    ensures SetPolicyOf(SetPolicyVal(x)) == x
    ensures Shaped(SET_POLICY, SetPolicyVal(x))
    ensures Finite(SET_POLICY, SetPolicyVal(x)) <==> IsFinite(x.policies.health.healthThreshold)
  {
    CompatibilityRequirementsReads(x.compatibility);
    PolicyBundleReads(x.policies);
    PlacementPolicyReads(x.placementPolicy);
    var (s, w) := (SET_POLICY, SetPolicyVal(x));
    s, w := Next3(s, w);
  }

  lemma SetPolicyWrites(v: Val)
    requires Shaped(SET_POLICY, v)
    ensures SetPolicyVal(SetPolicyOf(v)) == v
  {
    var (s, w) := (SET_POLICY, v);
    s, w := Next3(s, w);
    CompatibilityRequirementsWrites(Field(v, 1));
    PolicyBundleWrites(Field(v, 2));
    PlacementPolicyWrites(Tail(v, 3));
  }

  // ----- Line 255 -----

  function SetDemandVal(x: SetDemand): Val {
    V3(BackendKindVal(x.backend), VText(x.runtimeName), ComputeCapabilityVal(x.minCompute),
    VThen(VLong(x.memoryRequirementBytes), VWord(x.acceleratorRequirement)))
  }

  const SET_DEMAND: Shape :=
    S3(S_BACKEND_KIND, SText, COMPUTE_CAPABILITY,
    SThen(SLong, SWord))

  function SetDemandOf(v: Val): SetDemand {
    SetDemand(
      BackendKindOf(Field(v, 0)), TextOf(Field(v, 1)), ComputeCapabilityOf(Field(v, 2)), LongOf(Field(v, 3)),
      WordOf(Tail(v, 4)))
  }

  lemma SetDemandReads(x: SetDemand)
    ensures SetDemandOf(SetDemandVal(x)) == x
    ensures Shaped(SET_DEMAND, SetDemandVal(x))
    ensures Finite(SET_DEMAND, SetDemandVal(x))
  {
    ComputeCapabilityReads(x.minCompute);
    var (s, w) := (SET_DEMAND, SetDemandVal(x));
    s, w := Next2(s, w); s, w := Next2(s, w);
  }

  lemma SetDemandWrites(v: Val)
    requires Shaped(SET_DEMAND, v)
    ensures SetDemandVal(SetDemandOf(v)) == v
  {
    var (s, w) := (SET_DEMAND, v);
    s, w := Next2(s, w); s, w := Next2(s, w);
    ComputeCapabilityWrites(Field(v, 2));
  }

  function ReplicaSetStateVal(x: ReplicaSetState): Val {
    V2(
      SetIdentityVal(SetIdentity(x.id, x.modelId, x.workloadId, x.tenantId, x.desiredCount, x.minHealthy,
        x.maxReplicas, x.artifactId, x.artifactGeneration, x.generation, x.policyGeneration)),
      SetPolicyVal(SetPolicy(x.lifecycle, x.compatibility, x.policies, x.placementPolicy)),
      SetDemandVal(SetDemand(x.backend, x.runtimeName, x.minCompute, x.memoryRequirementBytes,
        x.acceleratorRequirement)))
  }

  const REPLICA_SET_STATE: Shape :=
    S2(SET_IDENTITY, SET_POLICY, SET_DEMAND)

  function ReplicaSetStateOf(v: Val): ReplicaSetState {
    var a := SetIdentityOf(Field(v, 0));
    var b := SetPolicyOf(Field(v, 1));
    var c := SetDemandOf(Tail(v, 2));
    ReplicaSetState(
      a.id, a.modelId, a.workloadId, a.tenantId, a.desiredCount, a.minHealthy, a.maxReplicas, a.artifactId,
      a.artifactGeneration, a.generation, a.policyGeneration, b.lifecycle, b.compatibility, b.policies,
      b.placementPolicy, c.backend, c.runtimeName, c.minCompute, c.memoryRequirementBytes,
      c.acceleratorRequirement)
  }

  lemma ReplicaSetStateReads(x: ReplicaSetState)
    ensures ReplicaSetStateOf(ReplicaSetStateVal(x)) == x
    ensures Shaped(REPLICA_SET_STATE, ReplicaSetStateVal(x))
    ensures Finite(REPLICA_SET_STATE, ReplicaSetStateVal(x)) <==> IsFinite(x.policies.health.healthThreshold)
  {
    SetIdentityReads(SetIdentity(x.id, x.modelId, x.workloadId, x.tenantId, x.desiredCount, x.minHealthy,
      x.maxReplicas, x.artifactId, x.artifactGeneration, x.generation, x.policyGeneration));
    SetPolicyReads(SetPolicy(x.lifecycle, x.compatibility, x.policies, x.placementPolicy));
    SetDemandReads(SetDemand(x.backend, x.runtimeName, x.minCompute, x.memoryRequirementBytes,
      x.acceleratorRequirement));
    var (s, w) := (REPLICA_SET_STATE, ReplicaSetStateVal(x));
    s, w := Next2(s, w);
  }

  lemma ReplicaSetStateWrites(v: Val)
    requires Shaped(REPLICA_SET_STATE, v)
    ensures ReplicaSetStateVal(ReplicaSetStateOf(v)) == v
  {
    var (s, w) := (REPLICA_SET_STATE, v);
    s, w := Next2(s, w);
    SetIdentityWrites(Field(v, 0));
    SetPolicyWrites(Field(v, 1));
    SetDemandWrites(Tail(v, 2));
  }

  // ----- Lines 267-306: a record of 37 fields, in 6 groups of consecutive lines -----

  datatype ReplicaIdentity = ReplicaIdentity(
    id: ReplicaId, setId: ReplicaSetId, generation: Generation, nodeId: Id, workerId: WorkerId,
    bootId: WorkerBootId, artifactId: Id, artifactGeneration: Generation)

  datatype ReplicaDevice = ReplicaDevice(
    backend: BackendKind, backendIdentity: Text, deviceIdentity: Text, accelerator: AcceleratorKind,
    computeCapability: ComputeCapability)

  datatype ReplicaCondition = ReplicaCondition(
    memoryResidency: MemoryResidencyState, warmth: WarmthState, readiness: ReadinessState,
    health: HealthState, lifecycle: ReplicaLifecycle, placementId: Id, placement: PlacementState,
    promotion: PromotionState, role: ReplicaRole)

  datatype ReplicaLoad = ReplicaLoad(
    servingEligible: bool, activeRequests: U64, reservedCapacity: U64, capacityTotal: U64,
    startTimeMono: U64, startTimeWall: I64)

  datatype ReplicaReports = ReplicaReports(
    healthRecord: HealthRecord, readinessRecord: ReadinessRecord, warmingRecord: WarmingRecord)

  datatype ReplicaAuthority = ReplicaAuthority(
    coordinatorEpoch: Epoch, setGeneration: Generation, healthGeneration: Generation,
    policyGeneration: Generation, policyFingerprint: Text, compatibility: ReplicaCompatibility)

  // ----- Lines 268-270 -----

  function ReplicaIdentityVal(x: ReplicaIdentity): Val {
    V3(VId(x.id), VId(x.setId), VId(x.generation),
    V3(VId(x.nodeId), VId(x.workerId), VId(x.bootId),
    VThen(VId(x.artifactId), VId(x.artifactGeneration))))
  }

  const REPLICA_IDENTITY: Shape :=
    S3(SId, SId, SId,
    S3(SId, SId, SId,
    SThen(SId, SId)))

  function ReplicaIdentityOf(v: Val): ReplicaIdentity {
    ReplicaIdentity(
      IdOf(Field(v, 0)), IdOf(Field(v, 1)), IdOf(Field(v, 2)), IdOf(Field(v, 3)), IdOf(Field(v, 4)),
      IdOf(Field(v, 5)), IdOf(Field(v, 6)), IdOf(Tail(v, 7)))
  }

  lemma ReplicaIdentityReads(x: ReplicaIdentity)
    ensures ReplicaIdentityOf(ReplicaIdentityVal(x)) == x
    ensures Shaped(REPLICA_IDENTITY, ReplicaIdentityVal(x))
    ensures Finite(REPLICA_IDENTITY, ReplicaIdentityVal(x))
  {
    var (s, w) := (REPLICA_IDENTITY, ReplicaIdentityVal(x));
    s, w := Next3(s, w); s, w := Next2(s, w); s, w := Next2(s, w);
  }

  lemma ReplicaIdentityWrites(v: Val)
    requires Shaped(REPLICA_IDENTITY, v)
    ensures ReplicaIdentityVal(ReplicaIdentityOf(v)) == v
  {
    var (s, w) := (REPLICA_IDENTITY, v);
    s, w := Next3(s, w); s, w := Next2(s, w); s, w := Next2(s, w);
  }

  // ----- Line 271 -----

  function ReplicaDeviceVal(x: ReplicaDevice): Val {
    V3(BackendKindVal(x.backend), VText(x.backendIdentity), VText(x.deviceIdentity),
    VThen(AcceleratorKindVal(x.accelerator), ComputeCapabilityVal(x.computeCapability)))
  }

  const REPLICA_DEVICE: Shape :=
    S3(S_BACKEND_KIND, SText, SText,
    SThen(S_ACCELERATOR_KIND, COMPUTE_CAPABILITY))

  function ReplicaDeviceOf(v: Val): ReplicaDevice {
    ReplicaDevice(
      BackendKindOf(Field(v, 0)), TextOf(Field(v, 1)), TextOf(Field(v, 2)), AcceleratorKindOf(Field(v, 3)),
      ComputeCapabilityOf(Tail(v, 4)))
  }

  lemma ReplicaDeviceReads(x: ReplicaDevice)
    ensures ReplicaDeviceOf(ReplicaDeviceVal(x)) == x
    ensures Shaped(REPLICA_DEVICE, ReplicaDeviceVal(x))
    ensures Finite(REPLICA_DEVICE, ReplicaDeviceVal(x))
  {
    ComputeCapabilityReads(x.computeCapability);
    var (s, w) := (REPLICA_DEVICE, ReplicaDeviceVal(x));
    s, w := Next2(s, w); s, w := Next2(s, w);
  }

  lemma ReplicaDeviceWrites(v: Val)
    requires Shaped(REPLICA_DEVICE, v)
    ensures ReplicaDeviceVal(ReplicaDeviceOf(v)) == v
  {
    var (s, w) := (REPLICA_DEVICE, v);
    s, w := Next2(s, w); s, w := Next2(s, w);
    ComputeCapabilityWrites(Tail(v, 4));
  }

  // ----- Lines 272-273 -----

  function ReplicaConditionVal(x: ReplicaCondition): Val {
    V5(MemoryResidencyStateVal(x.memoryResidency), WarmthStateVal(x.warmth), ReadinessStateVal(x.readiness),
       HealthStateVal(x.health), ReplicaLifecycleVal(x.lifecycle),
    V3(VId(x.placementId), PlacementStateVal(x.placement), PromotionStateVal(x.promotion), ReplicaRoleVal(x.role)))
  }

  const REPLICA_CONDITION: Shape :=
    S5(S_MEMORY_RESIDENCY_STATE, S_WARMTH_STATE, S_READINESS_STATE, S_HEALTH_STATE, S_REPLICA_LIFECYCLE,
    S3(SId, S_PLACEMENT_STATE, S_PROMOTION_STATE, S_REPLICA_ROLE))

  function ReplicaConditionOf(v: Val): ReplicaCondition {
    ReplicaCondition(
      MemoryResidencyStateOf(Field(v, 0)), WarmthStateOf(Field(v, 1)), ReadinessStateOf(Field(v, 2)),
      HealthStateOf(Field(v, 3)), ReplicaLifecycleOf(Field(v, 4)), IdOf(Field(v, 5)),
      PlacementStateOf(Field(v, 6)), PromotionStateOf(Field(v, 7)), ReplicaRoleOf(Tail(v, 8)))
  }

  lemma ReplicaConditionReads(x: ReplicaCondition)
    ensures ReplicaConditionOf(ReplicaConditionVal(x)) == x
    ensures Shaped(REPLICA_CONDITION, ReplicaConditionVal(x))
    ensures Finite(REPLICA_CONDITION, ReplicaConditionVal(x))
  {
    var (s, w) := (REPLICA_CONDITION, ReplicaConditionVal(x));
    s, w := Next3(s, w); s, w := Next3(s, w); s, w := Next2(s, w);
  }

  lemma ReplicaConditionWrites(v: Val)
    requires Shaped(REPLICA_CONDITION, v)
    ensures ReplicaConditionVal(ReplicaConditionOf(v)) == v
  {
    var (s, w) := (REPLICA_CONDITION, v);
    s, w := Next3(s, w); s, w := Next3(s, w); s, w := Next2(s, w);
  }

  // ----- Lines 274-275 -----

  function ReplicaLoadVal(x: ReplicaLoad): Val {
    V4(VBool(x.servingEligible), VLong(x.activeRequests), VLong(x.reservedCapacity), VLong(x.capacityTotal),
    VThen(VLong(x.startTimeMono), VLong(Unsigned64(x.startTimeWall))))
  }

  const REPLICA_LOAD: Shape :=
    S4(SBool, SLong, SLong, SLong,
    SThen(SLong, SLong))

  function ReplicaLoadOf(v: Val): ReplicaLoad {
    ReplicaLoad(
      BoolOf(Field(v, 0)), LongOf(Field(v, 1)), LongOf(Field(v, 2)), LongOf(Field(v, 3)), LongOf(Field(v, 4)),
      Signed64(LongOf(Tail(v, 5))))
  }

  lemma ReplicaLoadReads(x: ReplicaLoad)
    ensures ReplicaLoadOf(ReplicaLoadVal(x)) == x
    ensures Shaped(REPLICA_LOAD, ReplicaLoadVal(x))
    ensures Finite(REPLICA_LOAD, ReplicaLoadVal(x))
  {
    var (s, w) := (REPLICA_LOAD, ReplicaLoadVal(x));
    s, w := Next3(s, w); s, w := Next2(s, w);
  }

  lemma ReplicaLoadWrites(v: Val)
    requires Shaped(REPLICA_LOAD, v)
    ensures ReplicaLoadVal(ReplicaLoadOf(v)) == v
  {
    var (s, w) := (REPLICA_LOAD, v);
    s, w := Next3(s, w); s, w := Next2(s, w);
  }

  // ----- Line 276 -----

  function ReplicaReportsVal(x: ReplicaReports): Val {
    V2(HealthRecordVal(x.healthRecord), ReadinessRecordVal(x.readinessRecord), WarmingRecordVal(x.warmingRecord))
  }

  const REPLICA_REPORTS: Shape :=
    S2(HEALTH_RECORD, READINESS_RECORD, WARMING_RECORD)

  function ReplicaReportsOf(v: Val): ReplicaReports {
    ReplicaReports(
      HealthRecordOf(Field(v, 0)), ReadinessRecordOf(Field(v, 1)), WarmingRecordOf(Tail(v, 2)))
  }

  lemma ReplicaReportsReads(x: ReplicaReports)
    ensures ReplicaReportsOf(ReplicaReportsVal(x)) == x
    ensures Shaped(REPLICA_REPORTS, ReplicaReportsVal(x))
    ensures Finite(REPLICA_REPORTS, ReplicaReportsVal(x)) <==> IsFinite(x.healthRecord.confidence)
  {
    HealthRecordReads(x.healthRecord);
    ReadinessRecordReads(x.readinessRecord);
    WarmingRecordReads(x.warmingRecord);
    var (s, w) := (REPLICA_REPORTS, ReplicaReportsVal(x));
    s, w := Next2(s, w);
  }

  lemma ReplicaReportsWrites(v: Val)
    requires Shaped(REPLICA_REPORTS, v)
    ensures ReplicaReportsVal(ReplicaReportsOf(v)) == v
  {
    var (s, w) := (REPLICA_REPORTS, v);
    s, w := Next2(s, w);
    HealthRecordWrites(Field(v, 0));
    ReadinessRecordWrites(Field(v, 1));
    WarmingRecordWrites(Tail(v, 2));
  }

  // ----- Lines 277-278 -----

  function ReplicaAuthorityVal(x: ReplicaAuthority): Val {
    V4(VId(x.coordinatorEpoch), VId(x.setGeneration), VId(x.healthGeneration), VId(x.policyGeneration),
    VThen(VText(x.policyFingerprint), ReplicaCompatibilityVal(x.compatibility)))
  }

  const REPLICA_AUTHORITY: Shape :=
    S4(SId, SId, SId, SId,
    SThen(SText, REPLICA_COMPATIBILITY))

  function ReplicaAuthorityOf(v: Val): ReplicaAuthority {
    ReplicaAuthority(
      IdOf(Field(v, 0)), IdOf(Field(v, 1)), IdOf(Field(v, 2)), IdOf(Field(v, 3)), TextOf(Field(v, 4)),
      ReplicaCompatibilityOf(Tail(v, 5)))
  }

  lemma ReplicaAuthorityReads(x: ReplicaAuthority)
    ensures ReplicaAuthorityOf(ReplicaAuthorityVal(x)) == x
    ensures Shaped(REPLICA_AUTHORITY, ReplicaAuthorityVal(x))
    ensures Finite(REPLICA_AUTHORITY, ReplicaAuthorityVal(x))
  {
    ReplicaCompatibilityReads(x.compatibility);
    var (s, w) := (REPLICA_AUTHORITY, ReplicaAuthorityVal(x));
    s, w := Next3(s, w); s, w := Next2(s, w);
  }

  lemma ReplicaAuthorityWrites(v: Val)
    requires Shaped(REPLICA_AUTHORITY, v)
    ensures ReplicaAuthorityVal(ReplicaAuthorityOf(v)) == v
  {
    var (s, w) := (REPLICA_AUTHORITY, v);
    s, w := Next3(s, w); s, w := Next2(s, w);
    ReplicaCompatibilityWrites(Tail(v, 5));
  }

  function ReplicaStateVal(x: ReplicaState): Val {
    V5(
      ReplicaIdentityVal(ReplicaIdentity(x.id, x.setId, x.generation, x.nodeId, x.workerId, x.bootId, x.artifactId,
        x.artifactGeneration)),
      ReplicaDeviceVal(ReplicaDevice(x.backend, x.backendIdentity, x.deviceIdentity, x.accelerator,
        x.computeCapability)),
      ReplicaConditionVal(ReplicaCondition(x.memoryResidency, x.warmth, x.readiness, x.health, x.lifecycle,
        x.placementId, x.placement, x.promotion, x.role)),
      ReplicaLoadVal(ReplicaLoad(x.servingEligible, x.activeRequests, x.reservedCapacity, x.capacityTotal,
        x.startTimeMono, x.startTimeWall)),
      ReplicaReportsVal(ReplicaReports(x.healthRecord, x.readinessRecord, x.warmingRecord)),
      ReplicaAuthorityVal(ReplicaAuthority(x.coordinatorEpoch, x.setGeneration, x.healthGeneration,
        x.policyGeneration, x.policyFingerprint, x.compatibility)))
  }

  const REPLICA_STATE: Shape :=
    S5(REPLICA_IDENTITY, REPLICA_DEVICE, REPLICA_CONDITION, REPLICA_LOAD, REPLICA_REPORTS, REPLICA_AUTHORITY)

  function ReplicaStateOf(v: Val): ReplicaState {
    var a := ReplicaIdentityOf(Field(v, 0));
    var b := ReplicaDeviceOf(Field(v, 1));
    var c := ReplicaConditionOf(Field(v, 2));
    var d := ReplicaLoadOf(Field(v, 3));
    var e := ReplicaReportsOf(Field(v, 4));
    var f := ReplicaAuthorityOf(Tail(v, 5));
    ReplicaState(
      a.id, a.setId, a.generation, a.nodeId, a.workerId, a.bootId, a.artifactId, a.artifactGeneration,
      b.backend, b.backendIdentity, b.deviceIdentity, b.accelerator, b.computeCapability, c.memoryResidency,
      c.warmth, c.readiness, c.health, c.lifecycle, c.placementId, c.placement, c.promotion, c.role,
      d.servingEligible, d.activeRequests, d.reservedCapacity, d.capacityTotal, d.startTimeMono,
      d.startTimeWall, e.healthRecord, e.readinessRecord, e.warmingRecord, f.coordinatorEpoch, f.setGeneration,
      f.healthGeneration, f.policyGeneration, f.policyFingerprint, f.compatibility)
  }

  lemma ReplicaStateReads(x: ReplicaState)
    ensures ReplicaStateOf(ReplicaStateVal(x)) == x
    ensures Shaped(REPLICA_STATE, ReplicaStateVal(x))
    ensures Finite(REPLICA_STATE, ReplicaStateVal(x)) <==> IsFinite(x.healthRecord.confidence)
  {
    ReplicaIdentityReads(ReplicaIdentity(x.id, x.setId, x.generation, x.nodeId, x.workerId, x.bootId, x.artifactId,
      x.artifactGeneration));
    ReplicaDeviceReads(ReplicaDevice(x.backend, x.backendIdentity, x.deviceIdentity, x.accelerator,
      x.computeCapability));
    ReplicaConditionReads(ReplicaCondition(x.memoryResidency, x.warmth, x.readiness, x.health, x.lifecycle,
      x.placementId, x.placement, x.promotion, x.role));
    ReplicaLoadReads(ReplicaLoad(x.servingEligible, x.activeRequests, x.reservedCapacity, x.capacityTotal,
      x.startTimeMono, x.startTimeWall));
    ReplicaReportsReads(ReplicaReports(x.healthRecord, x.readinessRecord, x.warmingRecord));
    ReplicaAuthorityReads(ReplicaAuthority(x.coordinatorEpoch, x.setGeneration, x.healthGeneration,
      x.policyGeneration, x.policyFingerprint, x.compatibility));
    var (s, w) := (REPLICA_STATE, ReplicaStateVal(x));
    s, w := Next3(s, w); s, w := Next2(s, w);
  }

  lemma ReplicaStateWrites(v: Val)
    requires Shaped(REPLICA_STATE, v)
    ensures ReplicaStateVal(ReplicaStateOf(v)) == v
  {
    var (s, w) := (REPLICA_STATE, v);
    s, w := Next3(s, w); s, w := Next2(s, w);
    ReplicaIdentityWrites(Field(v, 0));
    ReplicaDeviceWrites(Field(v, 1));
    ReplicaConditionWrites(Field(v, 2));
    ReplicaLoadWrites(Field(v, 3));
    ReplicaReportsWrites(Field(v, 4));
    ReplicaAuthorityWrites(Tail(v, 5));
  }

  // ----- Lines 308-316 -----

  function WorkerRegistrationVal(x: WorkerRegistration): Val {
    V3(VId(x.workerId), VId(x.bootId), VId(x.nodeId),
    V2(ResourceInventoryVal(x.inventory), VId(x.hostedSetGeneration), VWord(x.protocolVersion)))
  }

  const WORKER_REGISTRATION: Shape :=
    S3(SId, SId, SId,
    S2(RESOURCE_INVENTORY, SId, SWord))

  function WorkerRegistrationOf(v: Val): WorkerRegistration {
    WorkerRegistration(
      IdOf(Field(v, 0)), IdOf(Field(v, 1)), IdOf(Field(v, 2)), ResourceInventoryOf(Field(v, 3)),
      IdOf(Field(v, 4)), WordOf(Tail(v, 5)))
  }

  lemma WorkerRegistrationReads(x: WorkerRegistration)
    ensures WorkerRegistrationOf(WorkerRegistrationVal(x)) == x
    ensures Shaped(WORKER_REGISTRATION, WorkerRegistrationVal(x))
    ensures Finite(WORKER_REGISTRATION, WorkerRegistrationVal(x))
  {
    ResourceInventoryReads(x.inventory);
    var (s, w) := (WORKER_REGISTRATION, WorkerRegistrationVal(x));
    s, w := Next3(s, w); s, w := Next2(s, w);
  }

  lemma WorkerRegistrationWrites(v: Val)
    requires Shaped(WORKER_REGISTRATION, v)
    ensures WorkerRegistrationVal(WorkerRegistrationOf(v)) == v
  {
    var (s, w) := (WORKER_REGISTRATION, v);
    s, w := Next3(s, w); s, w := Next2(s, w);
    ResourceInventoryWrites(Field(v, 3));
  }

  // ----- Lines 317-326 -----

  function PromotionRecordVal(x: PromotionRecord): Val {
    V3(VId(x.id), VId(x.replicaId), VId(x.setId),
    V3(VId(x.replicaGeneration), VId(x.setGeneration), VId(x.epoch),
    V4(PromotionStateVal(x.from), PromotionStateVal(x.to), VLong(x.whenMono), VLong(Unsigned64(x.whenWall)),
       VText(x.reason))))
  }

  const PROMOTION_RECORD: Shape :=
    S3(SId, SId, SId,
    S3(SId, SId, SId,
    S4(S_PROMOTION_STATE, S_PROMOTION_STATE, SLong, SLong, SText)))

  function PromotionRecordOf(v: Val): PromotionRecord {
    PromotionRecord(
      IdOf(Field(v, 0)), IdOf(Field(v, 1)), IdOf(Field(v, 2)), IdOf(Field(v, 3)), IdOf(Field(v, 4)),
      IdOf(Field(v, 5)), PromotionStateOf(Field(v, 6)), PromotionStateOf(Field(v, 7)), LongOf(Field(v, 8)),
      Signed64(LongOf(Field(v, 9))), TextOf(Tail(v, 10)))
  }

  lemma PromotionRecordReads(x: PromotionRecord)
    ensures PromotionRecordOf(PromotionRecordVal(x)) == x
    ensures Shaped(PROMOTION_RECORD, PromotionRecordVal(x))
    ensures Finite(PROMOTION_RECORD, PromotionRecordVal(x))
  {
    var (s, w) := (PROMOTION_RECORD, PromotionRecordVal(x));
    s, w := Next3(s, w); s, w := Next3(s, w); s, w := Next2(s, w); s, w := Next2(s, w);
  }

  lemma PromotionRecordWrites(v: Val)
    requires Shaped(PROMOTION_RECORD, v)
    ensures PromotionRecordVal(PromotionRecordOf(v)) == v
  {
    var (s, w) := (PROMOTION_RECORD, v);
    s, w := Next3(s, w); s, w := Next3(s, w); s, w := Next2(s, w); s, w := Next2(s, w);
  }

  // ----- Lines 327-335 -----

  function DrainRecordVal(x: DrainRecord): Val {
    V4(VId(x.id), VId(x.replicaId), VId(x.setId), DrainStateVal(x.state),
    V2(VLong(x.startedMono), VLong(x.completedMono),
    V2(VBool(x.forceCancelled), VLong(x.quiescedRequests), VText(x.reason))))
  }

  const DRAIN_RECORD: Shape :=
    S4(SId, SId, SId, S_DRAIN_STATE,
    S2(SLong, SLong,
    S2(SBool, SLong, SText)))

  function DrainRecordOf(v: Val): DrainRecord {
    DrainRecord(
      IdOf(Field(v, 0)), IdOf(Field(v, 1)), IdOf(Field(v, 2)), DrainStateOf(Field(v, 3)), LongOf(Field(v, 4)),
      LongOf(Field(v, 5)), BoolOf(Field(v, 6)), LongOf(Field(v, 7)), TextOf(Tail(v, 8)))
  }

  lemma DrainRecordReads(x: DrainRecord)
    ensures DrainRecordOf(DrainRecordVal(x)) == x
    ensures Shaped(DRAIN_RECORD, DrainRecordVal(x))
    ensures Finite(DRAIN_RECORD, DrainRecordVal(x))
  {
    var (s, w) := (DRAIN_RECORD, DrainRecordVal(x));
    s, w := Next3(s, w); s, w := Next3(s, w); s, w := Next2(s, w);
  }

  lemma DrainRecordWrites(v: Val)
    requires Shaped(DRAIN_RECORD, v)
    ensures DrainRecordVal(DrainRecordOf(v)) == v
  {
    var (s, w) := (DRAIN_RECORD, v);
    s, w := Next3(s, w); s, w := Next3(s, w); s, w := Next2(s, w);
  }

  // ----- Lines 336-350 -----

  function FailoverRecordVal(x: FailoverRecord): Val {
    V5(VId(x.id), VId(x.setId), VId(x.failedReplica), VId(x.replacement), FailoverStateVal(x.state),
    V4(VId(x.epoch), VLong(x.startedMono), VLong(x.completedMono), VBool(x.generationPreserved),
    VThen(VList(MapSeq(WorkOutcomeVal, x.ambiguousOutcomes)), VText(x.reason))))
  }

  const FAILOVER_RECORD: Shape :=
    S5(SId, SId, SId, SId, S_FAILOVER_STATE,
    S4(SId, SLong, SLong, SBool,
    SThen(SList(S_WORK_OUTCOME), SText)))

  function FailoverRecordOf(v: Val): FailoverRecord {
    FailoverRecord(
      IdOf(Field(v, 0)), IdOf(Field(v, 1)), IdOf(Field(v, 2)), IdOf(Field(v, 3)), FailoverStateOf(Field(v, 4)),
      IdOf(Field(v, 5)), LongOf(Field(v, 6)), LongOf(Field(v, 7)), BoolOf(Field(v, 8)),
      MapSeq(WorkOutcomeOf, ElemsOf(Field(v, 9))), TextOf(Tail(v, 10)))
  }

  lemma FailoverRecordReads(x: FailoverRecord)
    ensures FailoverRecordOf(FailoverRecordVal(x)) == x
    ensures Shaped(FAILOVER_RECORD, FailoverRecordVal(x))
    ensures Finite(FAILOVER_RECORD, FailoverRecordVal(x))
  {
    ListReads(S_WORK_OUTCOME, WorkOutcomeVal, WorkOutcomeOf, x.ambiguousOutcomes);
    var (s, w) := (FAILOVER_RECORD, FailoverRecordVal(x));
    s, w := Next3(s, w); s, w := Next3(s, w); s, w := Next2(s, w); s, w := Next2(s, w);
  }

  lemma FailoverRecordWrites(v: Val)
    requires Shaped(FAILOVER_RECORD, v)
    ensures FailoverRecordVal(FailoverRecordOf(v)) == v
  {
    var (s, w) := (FAILOVER_RECORD, v);
    s, w := Next3(s, w); s, w := Next3(s, w); s, w := Next2(s, w); s, w := Next2(s, w);
    var ambiguousOutcomes := ElemsOf(Field(v, 9));
    ItemsByIndex(S_WORK_OUTCOME, ambiguousOutcomes);
    ListWrites(WorkOutcomeVal, WorkOutcomeOf, ambiguousOutcomes);
  }
}
