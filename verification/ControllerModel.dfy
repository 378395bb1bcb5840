// The replica-set controller as a state machine on values: one function for each public
// operation of src/replica_set_controller.cpp, giving the next state and the reported status.
module ControllerModel {
  import opened Base
  import opened Identity
  import opened Enums
  import opened Records
  import opened Transition
  import opened Compatibility
  import opened Authority
  import Order = FailoverOrder

  // `source` is the stream of random identities and `drawn` how many have been consumed.
  datatype State = State(
    sets: map<ReplicaSetId, ReplicaSetState>,
    replicas: map<ReplicaId, ReplicaState>,
    workers: map<WorkerId, WorkerRegistration>,
    promotions: seq<PromotionRecord>,
    drains: seq<DrainRecord>,
    failovers: seq<FailoverRecord>,
    epoch: Epoch,
    source: nat -> Id,
    drawn: nat)

  datatype OpStatus = Ok | Rejected | Invalid

  datatype Outcome = Outcome(state: State, status: OpStatus)

  function Init(source: nat -> Id): State {
    State(map[], map[], map[], [], [], [], NULL_ID, source, 0)
  }

  function Fresh(c: State, k: nat): Id {
    c.source(c.drawn + k)
  }

  // The human-readable texts that end up in records; their wording is not modelled.
  const WORKER_RESTARTED: Text
  const WORKER_DISCONNECTED: Text
  const DRAIN_REQUESTED: Text
  const FAILOVER_REPLACEMENT: Text
  const NO_REPLACEMENT_SUFFIX: Text
  const PROMOTED_SUFFIX: Text
  const PROMOTED_TO: Text
  const PROMOTION_NAMES: map<PromotionState, Text>

  function PromotionText(target: PromotionState): Text {
    PROMOTED_TO + if target in PROMOTION_NAMES then PROMOTION_NAMES[target] else []
  }

  // ----- Workers -----

  // What a worker's restart does to a replica it was serving (lines 39-46).
  function Restarted(r: ReplicaState): ReplicaState {
    r.(servingEligible := false, health := HealthState.Failed,
       healthRecord := r.healthRecord.(state := HealthState.Failed, reason := WORKER_RESTARTED),
       lifecycle := ReplicaLifecycle.Failed, promotion := NotPromoted, role := Nobody, activeRequests := 0)
  }

  predicate HitByRestart(c: State, wr: WorkerRegistration, r: ReplicaState) {
    && wr.workerId in c.workers && c.workers[wr.workerId].bootId != wr.bootId
    && r.workerId == wr.workerId && r.lifecycle.Serving?
  }

  function RegisterWorker(c: State, wr: WorkerRegistration): Outcome {
    Outcome(c.(replicas := map rid | rid in c.replicas ::
                 if HitByRestart(c, wr, c.replicas[rid]) then Restarted(c.replicas[rid]) else c.replicas[rid],
               workers := c.workers[wr.workerId := wr]),
            Ok)
  }

  predicate HadAuthority(r: ReplicaState) {
    r.servingEligible || r.lifecycle.Serving? || r.lifecycle.Ready? || r.lifecycle.Draining?
  }

  function Disconnected(r: ReplicaState): ReplicaState {
    r.(servingEligible := false, health := HealthState.Failed,
       healthRecord := r.healthRecord.(state := HealthState.Failed, reason := WORKER_DISCONNECTED),
       lifecycle := ReplicaLifecycle.Failed, promotion := NotPromoted, role := Nobody)
  }

  function UnregisterWorker(c: State, workerId: WorkerId): Outcome {
    if workerId !in c.workers then Outcome(c, Rejected) else
      Outcome(c.(replicas := map rid | rid in c.replicas ::
                   if c.replicas[rid].workerId == workerId && HadAuthority(c.replicas[rid])
                   then Disconnected(c.replicas[rid]) else c.replicas[rid],
                 workers := c.workers - {workerId}),
              Ok)
  }

  // ----- Replica sets -----

  predicate CountsValid(s: ReplicaSetState) {
    s.maxReplicas != 0 && s.desiredCount != 0 && s.minHealthy != 0 &&
    s.minHealthy <= s.maxReplicas && s.desiredCount <= s.maxReplicas
  }

  function CreateReplicaSet(c: State, s: ReplicaSetState, epoch: Epoch): Outcome {
    if s.id in c.sets then Outcome(c, Rejected)
    else if !CountsValid(s) then Outcome(c, Invalid)
    else Outcome(c.(sets := c.sets[s.id := s], epoch := epoch), Ok)
  }

  function TransitionReplicaSet(c: State, setId: ReplicaSetId, to: ReplicaSetLifecycle): Outcome {
    if setId !in c.sets then Outcome(c, Rejected)
    else if !CanTransitionSet(c.sets[setId].lifecycle, to) then Outcome(c, Invalid)
    else Outcome(c.(sets := c.sets[setId := c.sets[setId].(lifecycle := to)]), Ok)
  }

  // ----- Replicas -----

  ghost function Members(replicas: map<ReplicaId, ReplicaState>, setId: ReplicaSetId): set<ReplicaId> {
    set rid | rid in replicas && replicas[rid].setId == setId
  }

  function Provisioned(c: State, replicaId: ReplicaId, setId: ReplicaSetId, workerId: WorkerId,
                       compat: ReplicaCompatibility, device: DeviceCapability, capacity: U64,
                       mono: U64, wall: I64): ReplicaState
    requires setId in c.sets && workerId in c.workers
  {
    var (s, reg) := (c.sets[setId], c.workers[workerId]);
    ReplicaState(
      replicaId, setId, Fresh(c, 0),
      reg.nodeId, workerId, reg.bootId,
      s.artifactId, s.artifactGeneration,
      compat.backend, compat.runtimeName, device.deviceId, device.kind, device.compute,
      NotResident, Cold, ReadinessState.Unknown, HealthState.Unknown, Declared,
      NULL_ID, Pending, NotPromoted, Nobody,
      false,
      0, 0, capacity,
      mono, wall,
      EMPTY_HEALTH_RECORD, EMPTY_READINESS_RECORD, EMPTY_WARMING_RECORD,
      c.epoch, s.generation, Fresh(c, 1), s.policyGeneration, s.compatibility.policyFingerprint, compat)
  }

  ghost function ProvisionReplica(c: State, replicaId: ReplicaId, setId: ReplicaSetId, workerId: WorkerId,
                                  compat: ReplicaCompatibility, device: DeviceCapability, capacity: U64,
                                  mono: U64, wall: I64): Outcome {
    if setId !in c.sets then Outcome(c, Rejected) else
      var s := c.sets[setId];
      if s.lifecycle.Retired? || s.lifecycle.Failed? then Outcome(c, Rejected)
      else if workerId !in c.workers then Outcome(c, Rejected)
      else if |Members(c.replicas, setId)| % U32_MOD >= s.maxReplicas then Outcome(c, Rejected)
      else
        var started := if s.lifecycle.Created? then s.(lifecycle := Provisioning) else s;
        var r := Provisioned(c, replicaId, setId, workerId, compat, device, capacity, mono, wall);
        Outcome(c.(sets := c.sets[setId := started], replicas := c.replicas[replicaId := r], drawn := c.drawn + 2), Ok)
  }

  function Put(c: State, rid: ReplicaId, r: ReplicaState): State {
    c.(replicas := c.replicas[rid := r])
  }

  function Allocated(r: ReplicaState, placementId: Id): ReplicaState {
    r.(lifecycle := Allocating, placementId := placementId,
       placement := if placementId.IsNull() then Pending else Assigned, memoryResidency := NotResident)
  }

  function SetAllocating(c: State, rid: ReplicaId, placementId: Id): Outcome {
    if rid !in c.replicas then Outcome(c, Rejected)
    else if !CanTransition(c.replicas[rid].lifecycle, Allocating) then Outcome(c, Invalid)
    else Outcome(Put(c, rid, Allocated(c.replicas[rid], placementId)), Ok)
  }

  function Started(r: ReplicaState, mono: U64, wall: I64): ReplicaState {
    r.(lifecycle := ReplicaLifecycle.Starting, health := HealthState.Starting,
       healthRecord := r.healthRecord.(state := HealthState.Starting, updatedAtMono := mono, updatedAtWall := wall))
  }

  function SetStarting(c: State, rid: ReplicaId, mono: U64, wall: I64): Outcome {
    if rid !in c.replicas then Outcome(c, Rejected)
    else if !CanTransition(c.replicas[rid].lifecycle, ReplicaLifecycle.Starting) then Outcome(c, Invalid)
    else Outcome(Put(c, rid, Started(c.replicas[rid], mono, wall)), Ok)
  }

  // The message comes from the worker incarnation the replica was provisioned on.
  predicate BootMatches(r: ReplicaState, worker: WorkerId, boot: WorkerBootId) {
    r.workerId == worker && r.bootId == boot
  }

  predicate AcceptsWarming(l: ReplicaLifecycle) {
    CanTransition(l, ReplicaLifecycle.Warming) || l.Warming?
  }

  // Anything but a bounded warmup still under way counts as fully warm.
  predicate IsFullWarm(w: WarmingRecord) {
    !(!w.warmupExecutionDone && w.stepsRequired > 0 && w.stepsCompleted > 0)
  }

  function Warmed(r: ReplicaState, w: WarmingRecord, mono: U64): ReplicaState {
    r.(lifecycle := ReplicaLifecycle.Warming,
       warmingRecord := if w.startedWarmingMono == 0 then w.(startedWarmingMono := mono) else w,
       warmth := if IsFullWarm(w) then Warm else WarmthState.Warming)
  }

  function WarmReplica(c: State, rid: ReplicaId, w: WarmingRecord, worker: WorkerId, boot: WorkerBootId,
                       mono: U64): Outcome {
    if rid !in c.replicas then Outcome(c, Rejected)
    else if !BootMatches(c.replicas[rid], worker, boot) then Outcome(c, Rejected)
    else if !AcceptsWarming(c.replicas[rid].lifecycle) then Outcome(c, Invalid)
    else Outcome(Put(c, rid, Warmed(c.replicas[rid], w, mono)), Ok)
  }

  predicate Terminated(l: ReplicaLifecycle) {
    l.Failed? || l.Retired? || l.Quiesced?
  }

  predicate Failing(h: HealthState) {
    h.Failed? || h.Unhealthy?
  }

  function Observed(r: ReplicaState, ev: HealthEvidence, mono: U64): ReplicaState {
    var record := HealthRecord(
      ev.state, ev.kind, ev.source, mono, ev.observedAtWall, ev.confidence, ev.generation, ev.message,
      r.healthRecord.consecutiveStale,
      if Failing(ev.state) then (r.healthRecord.consecutiveFailures + 1) % U32_MOD else 0);
    var updated := r.(health := ev.state, healthRecord := record);
    if r.servingEligible && Failing(ev.state)
    then updated.(servingEligible := false, role := Secondary, promotion := PromotionState.Standby)
    else updated
  }

  function ReportHealth(c: State, rid: ReplicaId, ev: HealthEvidence, worker: WorkerId, boot: WorkerBootId,
                        mono: U64): Outcome {
    if rid !in c.replicas then Outcome(c, Rejected) else
      var r := c.replicas[rid];
      if !BootMatches(r, worker, boot) then Outcome(c, Rejected)
      else if r.coordinatorEpoch != c.epoch then Outcome(c, Rejected)
      else if ev.generation != r.healthGeneration then Outcome(c, Rejected)
      else if Terminated(r.lifecycle) then Outcome(c, Rejected)
      else Outcome(Put(c, rid, Observed(r, ev, mono)), Ok)
  }

  function Readied(r: ReplicaState, rr: ReadinessRecord): ReplicaState {
    r.(readinessRecord := rr,
       readiness := if rr.factors.AllSet() then ReadinessState.Ready else NotReady,
       lifecycle := if rr.factors.AllSet() && (r.lifecycle.Warming? || r.lifecycle.Starting?)
                    then ReplicaLifecycle.Ready else r.lifecycle)
  }

  function ReportReadiness(c: State, rid: ReplicaId, rr: ReadinessRecord, worker: WorkerId,
                           boot: WorkerBootId): Outcome {
    if rid !in c.replicas then Outcome(c, Rejected) else
      var r := c.replicas[rid];
      if !BootMatches(r, worker, boot) then Outcome(c, Rejected)
      else if r.coordinatorEpoch != c.epoch then Outcome(c, Rejected)
      else if Terminated(r.lifecycle) then Outcome(c, Rejected)
      else Outcome(Put(c, rid, Readied(r, rr)), Ok)
  }

  predicate ReadyToPromote(l: ReplicaLifecycle) {
    l.Ready? || l.Serving?
  }

  // The gates of promote_replica that depend on the replica and its set (lines 355-400).
  predicate Promotable(r: ReplicaState, s: ReplicaSetState, epoch: Epoch, target: PromotionState) {
    var pol := s.policies.promotion;
    && r.coordinatorEpoch == epoch
    && r.setGeneration == s.generation
    && r.policyGeneration == s.policyGeneration
    && r.artifactGeneration == s.artifactGeneration
    && (pol.requireReady ==> ReadyToPromote(r.lifecycle))
    && r.readiness.Ready?
    && (pol.requireHealthy ==> !r.health.Unknown? && !r.health.Starting? && !r.health.Unhealthy?)
    && (pol.requireCompatible ==> Compatible(s.compatibility, r.compatibility))
    && (pol.requirePlacementValid ==> r.placement.Assigned?)
    && (pol.requireResources ==> r.capacityTotal != 0)
    && (target.Primary? ==> ReadyToPromote(r.lifecycle))
  }

  function Promoted(r: ReplicaState, target: PromotionState, round: Id): ReplicaState {
    if target.Primary? then
      r.(lifecycle := Serving, promotion := PromotionState.Primary, role := ReplicaRole.Primary,
         servingEligible := true, healthGeneration := round,
         healthRecord := r.healthRecord.(generation := round),
         health := if r.health.Unknown? then Healthy else r.health)
    else
      r.(promotion := target, role := if target.Recovered? then Secondary else ReplicaRole.Standby,
         servingEligible := false)
  }

  ghost function HealthyMembers(replicas: map<ReplicaId, ReplicaState>, setId: ReplicaSetId): set<ReplicaId> {
    set rid | rid in replicas && replicas[rid].setId == setId && replicas[rid].health.Healthy?
  }

  // The set's lifecycle after its HEALTHY replicas are counted into a 32-bit counter.
  function DerivedSet(s: ReplicaSetState, healthy: nat): ReplicaSetState {
    if healthy % U32_MOD < s.minHealthy && CanTransitionSet(s.lifecycle, ReplicaSetLifecycle.Degraded)
    then s.(lifecycle := ReplicaSetLifecycle.Degraded)
    else if healthy % U32_MOD >= s.minHealthy && CanTransitionSet(s.lifecycle, Available)
    then s.(lifecycle := Available)
    else s
  }

  ghost function Rederived(c: State, setId: ReplicaSetId): State
    requires setId in c.sets
  {
    c.(sets := c.sets[setId := DerivedSet(c.sets[setId], |HealthyMembers(c.replicas, setId)|)])
  }

  ghost function PromoteReplica(c: State, rid: ReplicaId, target: PromotionState, worker: WorkerId,
                                boot: WorkerBootId, mono: U64, wall: I64): Outcome {
    if rid !in c.replicas then Outcome(c, Rejected) else
      var r := c.replicas[rid];
      if !BootMatches(r, worker, boot) || r.setId !in c.sets then Outcome(c, Rejected)
      else if !Promotable(r, c.sets[r.setId], c.epoch, target) then Outcome(c, Rejected)
      else
        Outcome(Rederived(PromotionRecorded(c, rid, target, mono, wall), r.setId), Ok)
  }

  // The replica promoted and the promotion logged, before the set's lifecycle is derived again.
  function PromotionRecorded(c: State, rid: ReplicaId, target: PromotionState, mono: U64, wall: I64): State
    requires rid in c.replicas
  {
    var r := c.replicas[rid];
    var k := if target.Primary? then 1 else 0;
    var promoted := Put(c, rid, Promoted(r, target, Fresh(c, 0)));
    var record := PromotionRecord(Fresh(c, k), r.id, r.setId, r.generation, r.setGeneration, c.epoch,
                                  r.promotion, target, mono, wall, PromotionText(target));
    promoted.(promotions := c.promotions + [record], drawn := c.drawn + k + 1)
  }

  function Drained(r: ReplicaState): ReplicaState {
    r.(servingEligible := false, role := Secondary, promotion := PromotionState.Standby,
       lifecycle := ReplicaLifecycle.Draining)
  }

  function DrainReplica(c: State, rid: ReplicaId, worker: WorkerId, boot: WorkerBootId, mono: U64): Outcome {
    if rid !in c.replicas then Outcome(c, Rejected) else
      var r := c.replicas[rid];
      if !BootMatches(r, worker, boot) || r.coordinatorEpoch != c.epoch then Outcome(c, Rejected)
      else if !ReadyToPromote(r.lifecycle) then Outcome(c, Rejected)
      else
        var record := DrainRecord(Fresh(c, 0), r.id, r.setId, DrainState.Draining, mono, 0, false, 0, DRAIN_REQUESTED);
        Outcome(Put(c, rid, Drained(r)).(drains := c.drains + [record], drawn := c.drawn + 1), Ok)
  }

  predicate OpenDrain(d: DrainRecord, rid: ReplicaId) {
    d.replicaId == rid && d.state.Draining?
  }

  function ClosedRecord(d: DrainRecord, quiesced: U64, force: bool, mono: U64): DrainRecord {
    d.(state := DrainState.Quiesced, completedMono := mono, quiescedRequests := quiesced, forceCancelled := force)
  }

  // The first open drain record of `rid` is closed; the others stay as they are.
  function Closed(drains: seq<DrainRecord>, rid: ReplicaId, quiesced: U64, force: bool, mono: U64):
    (closed: seq<DrainRecord>)
    ensures |closed| == |drains|
  {
    if drains == [] then []
    else if OpenDrain(drains[0], rid) then
      [ClosedRecord(drains[0], quiesced, force, mono)] + drains[1..]
    else [drains[0]] + Closed(drains[1..], rid, quiesced, force, mono)
  }

  function QuiescedReplica(r: ReplicaState): ReplicaState {
    r.(lifecycle := ReplicaLifecycle.Quiesced, activeRequests := 0, servingEligible := false)
  }

  function CompleteDrain(c: State, rid: ReplicaId, quiesced: U64, force: bool, mono: U64): Outcome {
    if rid !in c.replicas then Outcome(c, Rejected) else
      var r := c.replicas[rid];
      if !r.lifecycle.Draining? then Outcome(c, Rejected)
      else if !force && r.activeRequests != 0 then Outcome(c, Rejected)
      else Outcome(Put(c, rid, QuiescedReplica(r)).(drains := Closed(c.drains, r.id, quiesced, force, mono)), Ok)
  }

  function FailedReplica(r: ReplicaState, reason: Text, mono: U64): ReplicaState {
    r.(servingEligible := false, health := HealthState.Failed,
       healthRecord := r.healthRecord.(state := HealthState.Failed, updatedAtMono := mono, reason := reason),
       promotion := NotPromoted, role := Nobody, reservedCapacity := 0,
       lifecycle := if CanTransition(r.lifecycle, ReplicaLifecycle.Failed)
                    then ReplicaLifecycle.Failed else r.lifecycle)
  }

  // A rejection past the boot check has already stripped the replica (lines 524-534).
  function FailReplica(c: State, rid: ReplicaId, worker: WorkerId, boot: WorkerBootId, reason: Text,
                       mono: U64): Outcome {
    if rid !in c.replicas then Outcome(c, Rejected) else
      var r := c.replicas[rid];
      if !BootMatches(r, worker, boot) then Outcome(c, Rejected)
      else Outcome(Put(c, rid, FailedReplica(r, reason, mono)),
                   if CanTransition(r.lifecycle, ReplicaLifecycle.Failed) then Ok else Rejected)
  }

  function RetiredReplica(r: ReplicaState): ReplicaState {
    r.(lifecycle := ReplicaLifecycle.Retired, servingEligible := false, promotion := NotPromoted, role := Nobody,
       reservedCapacity := 0, activeRequests := 0, memoryResidency := Evicted, warmth := WarmthState.Invalidated)
  }

  function RetireReplica(c: State, rid: ReplicaId): Outcome {
    if rid !in c.replicas then Outcome(c, Rejected)
    else if !CanTransition(c.replicas[rid].lifecycle, ReplicaLifecycle.Retired) then Outcome(c, Rejected)
    else Outcome(Put(c, rid, RetiredReplica(c.replicas[rid])), Ok)
  }

  // ----- Failover -----

  function Obsolete(r: ReplicaState, reason: Text): ReplicaState {
    r.(servingEligible := false, health := HealthState.Failed,
       healthRecord := r.healthRecord.(state := HealthState.Failed, reason := reason),
       promotion := NotPromoted, role := Nobody, reservedCapacity := 0,
       lifecycle := if CanTransition(r.lifecycle, ReplicaLifecycle.Failed)
                    then ReplicaLifecycle.Failed else r.lifecycle)
  }

  // The checks a replacement must pass (lines 588-594).
  predicate IsCandidate(r: ReplicaState, s: ReplicaSetState) {
    && ReadyToPromote(r.lifecycle)
    && r.readiness.Ready?
    && HealthOk(r.health)
    && Compatible(s.compatibility, r.compatibility)
    && r.placement.Assigned?
    && r.setGeneration == s.generation
  }

  ghost function Candidates(c: State, setId: ReplicaSetId, failed: ReplicaId): set<Order.Candidate>
    requires setId in c.sets
  {
    set rid | rid in c.replicas && rid != failed && c.replicas[rid].setId == setId
              && IsCandidate(c.replicas[rid], c.sets[setId]) :: Order.CandidateOf(rid, c.replicas[rid])
  }

  // The replacement a failover would promote.
  ghost function Chosen(c: State, setId: ReplicaSetId, failed: ReplicaId): (chosen: ReplicaId)
    requires setId in c.sets && failed in c.replicas
    requires Candidates(c, setId, failed) != {}
    ensures chosen in c.replicas && chosen != failed && c.replicas[chosen].setId == setId
    ensures IsCandidate(c.replicas[chosen], c.sets[setId])
  {
    Order.First(c.sets[setId].policies.failover, c.replicas[failed].workerId, Candidates(c, setId, failed)).id
  }

  function TakenOver(r: ReplicaState, round: Id): ReplicaState {
    r.(lifecycle := Serving, promotion := PromotionState.Primary, role := ReplicaRole.Primary,
       servingEligible := true, healthGeneration := round, healthRecord := r.healthRecord.(generation := round))
  }

  function AmbiguousWork(r: ReplicaState): seq<WorkOutcome> {
    if r.activeRequests > 0 then [Ambiguous] else []
  }

  predicate FailoverApplies(c: State, setId: ReplicaSetId, failed: ReplicaId) {
    setId in c.sets && failed in c.replicas && c.replicas[failed].setId == setId
  }

  ghost predicate FailoverSucceeds(c: State, setId: ReplicaSetId, failed: ReplicaId) {
    FailoverApplies(c, setId, failed) && Candidates(c, setId, failed) != {}
  }

  // The state once `chosen` has taken over from the already marked replica `failed`.
  ghost function TakeOverState(c: State, setId: ReplicaSetId, failed: ReplicaId, chosen: ReplicaId, reason: Text,
                               mono: U64, wall: I64): State
    requires setId in c.sets && failed in c.replicas && chosen in c.replicas
  {
    Rederived(TakeOverRecorded(c, setId, failed, chosen, reason, mono, wall), setId)
  }

  function TakeOverRecorded(c: State, setId: ReplicaSetId, failed: ReplicaId, chosen: ReplicaId, reason: Text,
                               mono: U64, wall: I64): State
    requires setId in c.sets && failed in c.replicas && chosen in c.replicas
  {
    var r := TakenOver(c.replicas[chosen], Fresh(c, 0));
    var record := FailoverRecord(Fresh(c, 1), setId, failed, chosen, FailoverState.Complete, c.epoch, mono, mono,
                                 c.sets[setId].policies.failover.preserveGeneration,
                                 AmbiguousWork(c.replicas[failed]), reason + PROMOTED_SUFFIX + IdText(chosen));
    var promotion := PromotionRecord(Fresh(c, 2), chosen, setId, r.generation, r.setGeneration, c.epoch,
                                     PromotionState.Standby, PromotionState.Primary, mono, wall,
                                     FAILOVER_REPLACEMENT);
    Put(c, chosen, r).(failovers := c.failovers + [record], promotions := c.promotions + [promotion],
                       drawn := c.drawn + 3)
  }

  // Without a candidate the failed replica still loses its authority and the attempt is recorded.
  ghost function TriggerFailover(c: State, setId: ReplicaSetId, failed: ReplicaId, reason: Text,
                                 mono: U64, wall: I64): Outcome {
    if !FailoverApplies(c, setId, failed) then Outcome(c, Rejected) else
      var fr := Obsolete(c.replicas[failed], reason);
      var marked := Put(c, failed, fr);
      if Candidates(c, setId, failed) == {} then
        var record := FailoverRecord(Fresh(c, 0), setId, failed, NULL_ID, FailoverState.Failed, c.epoch, mono, mono,
                                     c.sets[setId].policies.failover.preserveGeneration, AmbiguousWork(fr),
                                     reason + NO_REPLACEMENT_SUFFIX);
        Outcome(marked.(failovers := c.failovers + [record], drawn := c.drawn + 1), Rejected)
      else
        Outcome(TakeOverState(marked, setId, failed, Chosen(c, setId, failed), reason, mono, wall), Ok)
  }

  // ----- The gate -----

  function CurrentBootFor(c: State, rid: ReplicaId): WorkerBootId {
    if rid in c.replicas && c.replicas[rid].workerId in c.workers
    then c.workers[c.replicas[rid].workerId].bootId else NULL_ID
  }

  function ContextFor(c: State, rid: ReplicaId): AuthorityContext
    requires rid in c.replicas && c.replicas[rid].setId in c.sets
  {
    var (r, s) := (c.replicas[rid], c.sets[c.replicas[rid].setId]);
    AuthorityContext(c.epoch, s.generation, s.policyGeneration, s.artifactGeneration, r.healthGeneration,
                     CurrentBootFor(c, rid), s.compatibility.policyFingerprint)
  }

  // May this replica serve work now?
  ghost predicate Servable(c: State, rid: ReplicaId) {
    && rid in c.replicas && c.replicas[rid].setId in c.sets
    && Authorised(c.replicas[rid], c.sets[c.replicas[rid].setId], ContextFor(c, rid))
  }

  // ----- Recovery (src/snapshot.cpp:454-491) and re-linking (apps/cli/rf_cli.cpp:46-57) -----

  datatype RecoveredState = RecoveredState(
    sets: map<ReplicaSetId, ReplicaSetState>,
    replicas: map<ReplicaId, ReplicaState>,
    workers: seq<WorkerRegistration>,
    promotions: seq<PromotionRecord>,
    drains: seq<DrainRecord>,
    failovers: seq<FailoverRecord>)

  ghost predicate ValidRecovered(rec: RecoveredState) {
    && (forall rid :: rid in rec.replicas ==>
          var r := rec.replicas[rid];
          !r.id.IsNull() && !r.setId.IsNull() && !r.generation.IsNull() && r.setId in rec.sets)
    && (forall sid :: sid in rec.sets ==> !rec.sets[sid].id.IsNull() && CountsValid(rec.sets[sid]))
  }

  // A recovered replica keeps its lifecycle and history but no authority.
  function Cleared(r: ReplicaState): ReplicaState {
    r.(servingEligible := false, bootId := NULL_ID, health := HealthState.Starting,
       healthRecord := r.healthRecord.(state := HealthState.Starting), readiness := ReadinessState.Unknown,
       warmth := Cold, promotion := NotPromoted, role := Nobody, activeRequests := 0, reservedCapacity := 0)
  }

  function WorkerKey(w: WorkerRegistration): WorkerId {
    w.workerId
  }

  function Installed(c: State, rec: RecoveredState): State {
    c.(sets := rec.sets,
       replicas := map rid | rid in rec.replicas :: Cleared(rec.replicas[rid]),
       workers := Table(WorkerKey, rec.workers),
       promotions := rec.promotions, drains := rec.drains, failovers := rec.failovers)
  }

  ghost function Recover(c: State, rec: RecoveredState): Outcome {
    if ValidRecovered(rec) then Outcome(Installed(c, rec), Ok) else Outcome(c, Rejected)
  }

  function Relinked(workers: map<WorkerId, WorkerRegistration>, r: ReplicaState): ReplicaState {
    if r.workerId in workers then r.(bootId := workers[r.workerId].bootId) else r
  }

  ghost function RelinkAuthority(c: State): Outcome {
    Outcome(c.(replicas := map rid | rid in c.replicas :: Relinked(c.workers, c.replicas[rid]),
               epoch := if c.replicas == map[] then c.epoch
                        else c.replicas[Least(c.replicas.Keys)].coordinatorEpoch),
            Ok)
  }

  // ----- Runs -----

  datatype Op =
    | RegisterWorkerOp(wr: WorkerRegistration)
    | UnregisterWorkerOp(workerId: WorkerId)
    | CreateSetOp(newSet: ReplicaSetState, newEpoch: Epoch)
    | TransitionSetOp(setId: ReplicaSetId, to: ReplicaSetLifecycle)
    | ProvisionOp(replicaId: ReplicaId, setId: ReplicaSetId, workerId: WorkerId, compat: ReplicaCompatibility,
                  device: DeviceCapability, capacity: U64, mono: U64, wall: I64)
    | AllocateOp(replicaId: ReplicaId, placementId: Id)
    | StartOp(replicaId: ReplicaId, mono: U64, wall: I64)
    | WarmOp(replicaId: ReplicaId, warming: WarmingRecord, worker: WorkerId, boot: WorkerBootId, mono: U64)
    | HealthOp(replicaId: ReplicaId, evidence: HealthEvidence, worker: WorkerId, boot: WorkerBootId, mono: U64)
    | ReadinessOp(replicaId: ReplicaId, readiness: ReadinessRecord, worker: WorkerId, boot: WorkerBootId)
    | PromoteOp(replicaId: ReplicaId, target: PromotionState, worker: WorkerId, boot: WorkerBootId,
                mono: U64, wall: I64)
    | DrainOp(replicaId: ReplicaId, worker: WorkerId, boot: WorkerBootId, mono: U64)
    | CompleteDrainOp(replicaId: ReplicaId, quiesced: U64, force: bool, mono: U64)
    | FailOp(replicaId: ReplicaId, worker: WorkerId, boot: WorkerBootId, reason: Text, mono: U64)
    | RetireOp(replicaId: ReplicaId)
    | FailoverOp(setId: ReplicaSetId, failed: ReplicaId, reason: Text, mono: U64, wall: I64)
    | SetEpochOp(newEpoch: Epoch)
    | RecoverOp(rec: RecoveredState)
    | RelinkOp

  ghost function Step(c: State, op: Op): Outcome {
    match op
    case RegisterWorkerOp(wr) => RegisterWorker(c, wr)
    case UnregisterWorkerOp(w) => UnregisterWorker(c, w)
    case CreateSetOp(s, e) => CreateReplicaSet(c, s, e)
    case TransitionSetOp(sid, to) => TransitionReplicaSet(c, sid, to)
    case ProvisionOp(rid, sid, w, compat, device, capacity, mono, wall) =>
      ProvisionReplica(c, rid, sid, w, compat, device, capacity, mono, wall)
    case AllocateOp(rid, p) => SetAllocating(c, rid, p)
    case StartOp(rid, mono, wall) => SetStarting(c, rid, mono, wall)
    case WarmOp(rid, rec, w, b, mono) => WarmReplica(c, rid, rec, w, b, mono)
    case HealthOp(rid, ev, w, b, mono) => ReportHealth(c, rid, ev, w, b, mono)
    case ReadinessOp(rid, rr, w, b) => ReportReadiness(c, rid, rr, w, b)
    case PromoteOp(rid, target, w, b, mono, wall) => PromoteReplica(c, rid, target, w, b, mono, wall)
    case DrainOp(rid, w, b, mono) => DrainReplica(c, rid, w, b, mono)
    case CompleteDrainOp(rid, quiesced, force, mono) => CompleteDrain(c, rid, quiesced, force, mono)
    case FailOp(rid, w, b, reason, mono) => FailReplica(c, rid, w, b, reason, mono)
    case RetireOp(rid) => RetireReplica(c, rid)
    case FailoverOp(sid, failed, reason, mono, wall) => TriggerFailover(c, sid, failed, reason, mono, wall)
    case SetEpochOp(e) => Outcome(c.(epoch := e), Ok)
    case RecoverOp(rec) => Recover(c, rec)
    case RelinkOp => RelinkAuthority(c)
  }

  ghost function Run(c: State, ops: seq<Op>): State {
    if ops == [] then c else Step(Run(c, ops[..|ops| - 1]), ops[|ops| - 1]).state
  }
}
