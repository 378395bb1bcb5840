// The enumerations of include/replicafabric/core/enums.hpp, members in declaration order.
module Enums {
  datatype ReplicaSetLifecycle = Created | Provisioning | Available | Degraded | Draining | Retired | Failed

  datatype ReplicaLifecycle =
    Declared | Allocating | Starting | Warming | Ready | Serving | Draining | Quiesced | Failed | Retired

  datatype HealthState = Unknown | Starting | Healthy | Degraded | Unhealthy | Failed | Quarantined

  datatype HealthEvidenceKind = Unknown | Measured | Reported | Derived | Heuristic

  datatype WarmthState = Cold | Warming | Warm | StaleWarmth | Invalidated

  datatype ReadinessState = Unknown | NotReady | Ready

  datatype PromotionState = NotPromoted | Standby | Canary | Replacement | Recovered | Primary

  datatype ReplicaRole = Nobody | Primary | Secondary | Standby | Canary

  datatype DrainState = NotDraining | Draining | Quiescing | Quiesced | Complete | Cancelled

  datatype FailoverState = Idle | Triggered | Selecting | Promoting | Complete | Failed

  datatype WorkOutcome = Unknown | Succeeded | Failed | Ambiguous

  datatype MemoryResidencyState = Unknown | NotResident | Resident | Evicted

  datatype PlacementState = Pending | Assigned | Failed | Invalidated

  datatype AcceleratorKind = NoAccelerator | Cpu | Cuda | Rocm | Sycl | Custom

  datatype BackendKind = NoBackend | Triton | TensorRt | Onnx | Vllm | Custom

  datatype NumericMode = Unknown | Fp32 | Fp16 | Bf16 | Fp8 | Int8 | Mixed
}
