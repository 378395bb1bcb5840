// The replica-set controller itself: an object whose methods update its maps, logs and epoch in
// place, each proved to do exactly what the transition function of the same name does.
module Controller {
  import opened Base
  import opened Identity
  import opened Enums
  import opened Records
  import opened Transition
  import opened Compatibility
  import opened Authority
  import opened ControllerModel
  import Order = FailoverOrder

  class ReplicaSetController {
    var sets: map<ReplicaSetId, ReplicaSetState>
    var replicas: map<ReplicaId, ReplicaState>
    var workers: map<WorkerId, WorkerRegistration>
    var promotions: seq<PromotionRecord>
    var drains: seq<DrainRecord>
    var failovers: seq<FailoverRecord>
    var epoch: Epoch
    var drawn: nat
    const source: nat -> Id

    ghost function View(): State
      reads this
    {
      State(sets, replicas, workers, promotions, drains, failovers, epoch, source, drawn)
    }

    constructor (source: nat -> Id)
      ensures View() == Init(source)
    {
      sets, replicas, workers := map[], map[], map[];
      promotions, drains, failovers := [], [], [];
      epoch, drawn := NULL_ID, 0;
      this.source := source;
    }

    // The next identity of the random stream.
    method RandomId() returns (id: Id)
      modifies this`drawn
      ensures id == source(old(drawn)) && drawn == old(drawn) + 1
    {
      id := source(drawn);
      drawn := drawn + 1;
    }

    // Fails every replica the worker was serving (lines 37-49).
    method FailServing(workerId: WorkerId)
      modifies this`replicas
      ensures replicas == map rid | rid in old(replicas) ::
        var r := old(replicas)[rid];
        if r.workerId == workerId && r.lifecycle.Serving? then Restarted(r) else r
    {
      var todo := replicas.Keys;
      while todo != {}
        invariant todo <= replicas.Keys == old(replicas.Keys)
        invariant forall k :: k in todo ==> replicas[k] == old(replicas)[k]
        invariant forall k :: k in replicas && k !in todo ==>
          var r := old(replicas)[k];
          replicas[k] == if r.workerId == workerId && r.lifecycle.Serving? then Restarted(r) else r
      {
        var rid :| rid in todo;
        todo := todo - {rid};
        var r := replicas[rid];
        if r.workerId == workerId && r.lifecycle.Serving? {
          replicas := replicas[rid := Restarted(r)];
        }
      }
    }

    method RegisterWorker(wr: WorkerRegistration) returns (status: OpStatus)
      modifies this
      ensures Outcome(View(), status) == ControllerModel.RegisterWorker(old(View()), wr)
    {
      var restart := wr.workerId in workers && workers[wr.workerId].bootId != wr.bootId;
      if restart {
        FailServing(wr.workerId);
      }
      assert replicas == ControllerModel.RegisterWorker(old(View()), wr).state.replicas;
      workers := workers[wr.workerId := wr];
      status := Ok;
    }

    // Fails every replica of the worker that had any authority (lines 60-76).
    method FailHosted(workerId: WorkerId)
      modifies this`replicas
      ensures replicas == map rid | rid in old(replicas) ::
        var r := old(replicas)[rid];
        if r.workerId == workerId && HadAuthority(r) then Disconnected(r) else r
    {
      var todo := replicas.Keys;
      while todo != {}
        invariant todo <= replicas.Keys == old(replicas.Keys)
        invariant forall k :: k in todo ==> replicas[k] == old(replicas)[k]
        invariant forall k :: k in replicas && k !in todo ==>
          var r := old(replicas)[k];
          replicas[k] == if r.workerId == workerId && HadAuthority(r) then Disconnected(r) else r
      {
        var rid :| rid in todo;
        todo := todo - {rid};
        var r := replicas[rid];
        if r.workerId == workerId {
          if r.servingEligible || r.lifecycle.Serving? || r.lifecycle.Ready? || r.lifecycle.Draining? {
            replicas := replicas[rid := Disconnected(r)];
          }
        }
      }
    }

    method UnregisterWorker(workerId: WorkerId) returns (status: OpStatus)
      modifies this
      ensures Outcome(View(), status) == ControllerModel.UnregisterWorker(old(View()), workerId)
    {
      if workerId !in workers {
        return Rejected;
      }
      FailHosted(workerId);
      workers := workers - {workerId};
      status := Ok;
    }

    method CreateReplicaSet(s: ReplicaSetState, newEpoch: Epoch) returns (status: OpStatus)
      modifies this
      ensures Outcome(View(), status) == ControllerModel.CreateReplicaSet(old(View()), s, newEpoch)
    {
      if s.id in sets {
        return Rejected;
      }
      if s.maxReplicas == 0 || s.desiredCount == 0 || s.minHealthy == 0 ||
         s.minHealthy > s.maxReplicas || s.desiredCount > s.maxReplicas {
        return Invalid;
      }
      sets := sets[s.id := s];
      epoch := newEpoch;
      status := Ok;
    }

    method TransitionReplicaSet(setId: ReplicaSetId, to: ReplicaSetLifecycle) returns (status: OpStatus)
      modifies this
      ensures Outcome(View(), status) == ControllerModel.TransitionReplicaSet(old(View()), setId, to)
    {
      if setId !in sets {
        return Rejected;
      }
      if !CanTransitionSet(sets[setId].lifecycle, to) {
        return Invalid;
      }
      sets := sets[setId := sets[setId].(lifecycle := to)];
      status := Ok;
    }

    // Counts the replicas of a set into a 32-bit counter, HEALTHY ones only if asked.
    method CountReplicas(setId: ReplicaSetId, healthyOnly: bool) returns (count: U32)
      ensures count == |if healthyOnly then HealthyMembers(replicas, setId) else Members(replicas, setId)| % U32_MOD
    {
      count := 0;
      var todo := replicas.Keys;
      ghost var counted: set<ReplicaId> := {};
      while todo != {}
        invariant todo <= replicas.Keys
        invariant forall k :: k in counted <==>
          k in replicas && k !in todo && replicas[k].setId == setId && (healthyOnly ==> replicas[k].health.Healthy?)
        invariant count == |counted| % U32_MOD
      {
        var rid :| rid in todo;
        todo := todo - {rid};
        if replicas[rid].setId == setId && (healthyOnly ==> replicas[rid].health.Healthy?) {
          count := (count + 1) % U32_MOD;
          counted := counted + {rid};
        }
      }
      assert counted == if healthyOnly then HealthyMembers(replicas, setId) else Members(replicas, setId);
    }

    method ProvisionReplica(replicaId: ReplicaId, setId: ReplicaSetId, workerId: WorkerId,
                            compat: ReplicaCompatibility, device: DeviceCapability, capacity: U64,
                            mono: U64, wall: I64) returns (status: OpStatus)
      modifies this
      ensures Outcome(View(), status) ==
        ControllerModel.ProvisionReplica(old(View()), replicaId, setId, workerId, compat, device, capacity, mono, wall)
    {
      if setId !in sets {
        return Rejected;
      }
      var s := sets[setId];
      if s.lifecycle.Retired? || s.lifecycle.Failed? {
        return Rejected;
      }
      if workerId !in workers {
        return Rejected;
      }
      var reg := workers[workerId];
      var count := CountReplicas(setId, false);
      if count >= s.maxReplicas {
        return Rejected;
      }
      if s.lifecycle.Created? {
        sets := sets[setId := s.(lifecycle := Provisioning)];
      } else {
        sets := sets[setId := s];
      }
      var generation := RandomId();
      var healthGeneration := RandomId();
      var r := ReplicaState(
        replicaId, setId, generation, reg.nodeId, workerId, reg.bootId, s.artifactId, s.artifactGeneration,
        compat.backend, compat.runtimeName, device.deviceId, device.kind, device.compute,
        NotResident, Cold, ReadinessState.Unknown, HealthState.Unknown, Declared,
        NULL_ID, Pending, NotPromoted, Nobody, false, 0, 0, capacity, mono, wall,
        EMPTY_HEALTH_RECORD, EMPTY_READINESS_RECORD, EMPTY_WARMING_RECORD,
        epoch, s.generation, healthGeneration, s.policyGeneration, s.compatibility.policyFingerprint, compat);
      replicas := replicas[replicaId := r];
      status := Ok;
    }

    method SetAllocating(rid: ReplicaId, placementId: Id) returns (status: OpStatus)
      modifies this
      ensures Outcome(View(), status) == ControllerModel.SetAllocating(old(View()), rid, placementId)
    {
      if rid !in replicas {
        return Rejected;
      }
      var r := replicas[rid];
      if !CanTransition(r.lifecycle, Allocating) {
        return Invalid;
      }
      var placed := !placementId.IsNull();
      r := r.(lifecycle := Allocating, placementId := placementId);
      r := r.(placement := if placed then Assigned else Pending, memoryResidency := NotResident);
      replicas := replicas[rid := r];
      status := Ok;
    }

    method SetStarting(rid: ReplicaId, mono: U64, wall: I64) returns (status: OpStatus)
      modifies this
      ensures Outcome(View(), status) == ControllerModel.SetStarting(old(View()), rid, mono, wall)
    {
      if rid !in replicas {
        return Rejected;
      }
      var r := replicas[rid];
      if !CanTransition(r.lifecycle, ReplicaLifecycle.Starting) {
        return Invalid;
      }
      var record := r.healthRecord.(state := HealthState.Starting, updatedAtMono := mono, updatedAtWall := wall);
      r := r.(lifecycle := ReplicaLifecycle.Starting, health := HealthState.Starting, healthRecord := record);
      replicas := replicas[rid := r];
      status := Ok;
    }

    method WarmReplica(rid: ReplicaId, warm: WarmingRecord, worker: WorkerId, boot: WorkerBootId, mono: U64)
      returns (status: OpStatus)
      modifies this
      ensures Outcome(View(), status) == ControllerModel.WarmReplica(old(View()), rid, warm, worker, boot, mono)
    {
      if rid !in replicas {
        return Rejected;
      }
      var r := replicas[rid];
      if !BootMatches(r, worker, boot) {
        return Rejected;
      }
      if !CanTransition(r.lifecycle, ReplicaLifecycle.Warming) && !r.lifecycle.Warming? {
        return Invalid;
      }
      r := r.(lifecycle := ReplicaLifecycle.Warming, warmingRecord := warm);
      if !warm.warmupExecutionDone && warm.stepsRequired > 0 && warm.stepsCompleted > 0 {
        r := r.(warmth := WarmthState.Warming);
      } else {
        r := r.(warmth := Warm);
      }
      if r.warmingRecord.startedWarmingMono == 0 {
        r := r.(warmingRecord := r.warmingRecord.(startedWarmingMono := mono));
      }
      replicas := replicas[rid := r];
      status := Ok;
    }

    method ReportHealth(rid: ReplicaId, ev: HealthEvidence, worker: WorkerId, boot: WorkerBootId, mono: U64)
      returns (status: OpStatus)
      modifies this
      ensures Outcome(View(), status) == ControllerModel.ReportHealth(old(View()), rid, ev, worker, boot, mono)
    {
      if rid !in replicas {
        return Rejected;
      }
      var r := replicas[rid];
      if !BootMatches(r, worker, boot) {
        return Rejected;
      }
      if r.coordinatorEpoch != epoch {
        return Rejected;
      }
      if ev.generation != r.healthGeneration {
        return Rejected;
      }
      if r.lifecycle.Failed? || r.lifecycle.Retired? || r.lifecycle.Quiesced? {
        return Rejected;
      }
      var record := r.healthRecord.(state := ev.state, kind := ev.kind, source := ev.source, updatedAtMono := mono);
      record := record.(updatedAtWall := ev.observedAtWall, confidence := ev.confidence);
      record := record.(generation := ev.generation, reason := ev.message);
      if ev.state.Failed? || ev.state.Unhealthy? {
        record := record.(consecutiveFailures := (record.consecutiveFailures + 1) % U32_MOD);
      } else {
        record := record.(consecutiveFailures := 0);
      }
      r := r.(health := ev.state, healthRecord := record);
      if r.servingEligible && (ev.state.Failed? || ev.state.Unhealthy?) {
        r := r.(servingEligible := false, role := Secondary, promotion := PromotionState.Standby);
      }
      replicas := replicas[rid := r];
      status := Ok;
    }

    method ReportReadiness(rid: ReplicaId, rr: ReadinessRecord, worker: WorkerId, boot: WorkerBootId)
      returns (status: OpStatus)
      modifies this
      ensures Outcome(View(), status) == ControllerModel.ReportReadiness(old(View()), rid, rr, worker, boot)
    {
      if rid !in replicas {
        return Rejected;
      }
      var r := replicas[rid];
      if !BootMatches(r, worker, boot) {
        return Rejected;
      }
      if r.coordinatorEpoch != epoch {
        return Rejected;
      }
      if r.lifecycle.Failed? || r.lifecycle.Retired? || r.lifecycle.Quiesced? {
        return Rejected;
      }
      r := r.(readinessRecord := rr, readiness := rr.state);
      if rr.factors.AllSet() {
        var canReady := r.lifecycle.Warming? || r.lifecycle.Starting?;
        if canReady && CanTransition(r.lifecycle, ReplicaLifecycle.Ready) {
          r := r.(lifecycle := ReplicaLifecycle.Ready);
        }
        r := r.(readiness := ReadinessState.Ready);
      } else {
        r := r.(readiness := NotReady);
      }
      replicas := replicas[rid := r];
      status := Ok;
    }

    // The replica set's lifecycle follows its healthy count (lines 441-451 and 677-687).
    method DeriveSetLifecycle(setId: ReplicaSetId)
      requires setId in sets
      modifies this`sets
      ensures View() == Rederived(old(View()), setId)
    {
      var s := sets[setId];
      var healthy := CountReplicas(setId, true);
      if healthy < s.minHealthy && CanTransitionSet(s.lifecycle, ReplicaSetLifecycle.Degraded) {
        s := s.(lifecycle := ReplicaSetLifecycle.Degraded);
      } else if healthy >= s.minHealthy && CanTransitionSet(s.lifecycle, Available) {
        s := s.(lifecycle := Available);
      }
      sets := sets[setId := s];
    }

    // The gates of a promotion, in order (lines 363-400); `pol.requireReady` and the final gate
    // both ask for READY or SERVING, the latter whatever the policy says.
    method PassesGates(r: ReplicaState, s: ReplicaSetState, target: PromotionState) returns (passes: bool)
      ensures passes <==> Promotable(r, s, epoch, target)
    {
      if r.coordinatorEpoch != epoch || r.setGeneration != s.generation ||
         r.policyGeneration != s.policyGeneration || r.artifactGeneration != s.artifactGeneration {
        return false;
      }
      var pol := s.policies.promotion;
      if pol.requireReady && !ReadyToPromote(r.lifecycle) {
        return false;
      }
      if !r.readiness.Ready? {
        return false;
      }
      if pol.requireHealthy && (r.health.Unknown? || r.health.Starting?) {
        return false;
      }
      if pol.requireHealthy && r.health.Unhealthy? {
        return false;
      }
      if pol.requireCompatible {
        var cr := CheckCompatibility(s.compatibility, r.compatibility);
        if !cr.compatible {
          return false;
        }
      }
      if pol.requirePlacementValid && !r.placement.Assigned? {
        return false;
      }
      if pol.requireResources && r.capacityTotal == 0 {
        return false;
      }
      return !target.Primary? || ReadyToPromote(r.lifecycle);
    }

    // The change of the promoted replica (lines 404-424).
    method ApplyPromotion(r0: ReplicaState, target: PromotionState) returns (r: ReplicaState)
      modifies this`drawn
      ensures r == Promoted(r0, target, source(old(drawn)))
      ensures drawn == old(drawn) + if target.Primary? then 1 else 0
    {
      r := r0;
      if target.Primary? {
        r := r.(lifecycle := Serving, promotion := PromotionState.Primary, role := ReplicaRole.Primary);
        var round := RandomId();
        r := r.(servingEligible := true, healthGeneration := round,
                healthRecord := r.healthRecord.(generation := round));
        if r.health.Unknown? {
          r := r.(health := Healthy);
        }
      } else {
        r := r.(promotion := target, role := if target.Recovered? then Secondary else ReplicaRole.Standby,
                servingEligible := false);
      }
    }

    method RecordPromotion(rid: ReplicaId, target: PromotionState, mono: U64, wall: I64)
      requires rid in replicas
      modifies this`replicas, this`promotions, this`drawn
      ensures View() == PromotionRecorded(old(View()), rid, target, mono, wall)
    {
      var from := replicas[rid].promotion;
      var r := ApplyPromotion(replicas[rid], target);
      replicas := replicas[rid := r];
      var id := RandomId();
      var record := PromotionRecord(id, r.id, r.setId, r.generation, r.setGeneration, epoch, from, target, mono, wall,
                                    PromotionText(target));
      promotions := promotions + [record];
    }

    method PromoteReplica(rid: ReplicaId, target: PromotionState, worker: WorkerId, boot: WorkerBootId,
                          mono: U64, wall: I64) returns (status: OpStatus)
      modifies this
      ensures Outcome(View(), status) ==
        ControllerModel.PromoteReplica(old(View()), rid, target, worker, boot, mono, wall)
    {
      if rid !in replicas {
        return Rejected;
      }
      var r := replicas[rid];
      if !BootMatches(r, worker, boot) || r.setId !in sets {
        return Rejected;
      }
      var passes := PassesGates(r, sets[r.setId], target);
      if !passes {
        return Rejected;
      }
      // The transition guard of line 402 cannot fire: READY may always move to SERVING.
      assert target.Primary? && !r.lifecycle.Serving? ==> CanTransition(r.lifecycle, Serving);
      RecordPromotion(rid, target, mono, wall);
      DeriveSetLifecycle(r.setId);
      status := Ok;
    }

    method DrainReplica(rid: ReplicaId, worker: WorkerId, boot: WorkerBootId, mono: U64) returns (status: OpStatus)
      modifies this
      ensures Outcome(View(), status) == ControllerModel.DrainReplica(old(View()), rid, worker, boot, mono)
    {
      if rid !in replicas {
        return Rejected;
      }
      var r := replicas[rid];
      if !BootMatches(r, worker, boot) {
        return Rejected;
      }
      if r.coordinatorEpoch != epoch {
        return Rejected;
      }
      if !r.lifecycle.Ready? && !r.lifecycle.Serving? {
        return Rejected;
      }
      r := r.(servingEligible := false, role := Secondary, promotion := PromotionState.Standby);
      // The transition guard cannot fire: READY and SERVING may always move to DRAINING.
      assert CanTransition(r.lifecycle, ReplicaLifecycle.Draining);
      r := r.(lifecycle := ReplicaLifecycle.Draining);
      replicas := replicas[rid := r];
      var id := RandomId();
      drains := drains + [DrainRecord(id, r.id, r.setId, DrainState.Draining, mono, 0, false, 0, DRAIN_REQUESTED)];
      status := Ok;
    }

    // Closes the first open drain record of a replica.
    method CloseDrain(rid: ReplicaId, quiesced: U64, force: bool, mono: U64)
      modifies this`drains
      ensures drains == Closed(old(drains), rid, quiesced, force, mono)
    {
      for i := 0 to |drains|
        invariant drains == old(drains)
        invariant forall j :: 0 <= j < i ==> !OpenDrain(drains[j], rid)
      {
        if OpenDrain(drains[i], rid) {
          ClosedAtFirst(drains, rid, quiesced, force, mono, i);
          drains := drains[i := ClosedRecord(drains[i], quiesced, force, mono)];
          return;
        }
      }
      ClosedAtFirst(drains, rid, quiesced, force, mono, |drains|);
    }

    method CompleteDrain(rid: ReplicaId, quiesced: U64, force: bool, mono: U64) returns (status: OpStatus)
      modifies this
      ensures Outcome(View(), status) == ControllerModel.CompleteDrain(old(View()), rid, quiesced, force, mono)
    {
      if rid !in replicas {
        return Rejected;
      }
      var r := replicas[rid];
      if !r.lifecycle.Draining? {
        return Rejected;
      }
      if !force && r.activeRequests != 0 {
        return Rejected;
      }
      // The transition guard cannot fire: DRAINING may always move to QUIESCED.
      assert CanTransition(r.lifecycle, ReplicaLifecycle.Quiesced);
      r := r.(lifecycle := ReplicaLifecycle.Quiesced, activeRequests := 0, servingEligible := false);
      replicas := replicas[rid := r];
      CloseDrain(r.id, quiesced, force, mono);
      status := Ok;
    }

    method FailReplica(rid: ReplicaId, worker: WorkerId, boot: WorkerBootId, reason: Text, mono: U64)
      returns (status: OpStatus)
      modifies this
      ensures Outcome(View(), status) == ControllerModel.FailReplica(old(View()), rid, worker, boot, reason, mono)
    {
      if rid !in replicas {
        return Rejected;
      }
      var r := replicas[rid];
      if !BootMatches(r, worker, boot) {
        return Rejected;
      }
      var record := r.healthRecord.(state := HealthState.Failed, updatedAtMono := mono, reason := reason);
      r := r.(servingEligible := false, health := HealthState.Failed, healthRecord := record);
      r := r.(promotion := NotPromoted, role := Nobody, reservedCapacity := 0);
      replicas := replicas[rid := r];
      if !CanTransition(r.lifecycle, ReplicaLifecycle.Failed) {
        return Rejected;
      }
      replicas := replicas[rid := r.(lifecycle := ReplicaLifecycle.Failed)];
      status := Ok;
    }

    method RetireReplica(rid: ReplicaId) returns (status: OpStatus)
      modifies this
      ensures Outcome(View(), status) == ControllerModel.RetireReplica(old(View()), rid)
    {
      if rid !in replicas {
        return Rejected;
      }
      var r := replicas[rid];
      if !CanTransition(r.lifecycle, ReplicaLifecycle.Retired) {
        return Rejected;
      }
      r := r.(lifecycle := ReplicaLifecycle.Retired, servingEligible := false, promotion := NotPromoted);
      r := r.(role := Nobody, reservedCapacity := 0, activeRequests := 0);
      r := r.(memoryResidency := Evicted, warmth := WarmthState.Invalidated);
      replicas := replicas[rid := r];
      status := Ok;
    }

    // Gathers the replicas that may replace a failed one.
    method GatherCandidates(setId: ReplicaSetId, failed: ReplicaId) returns (cs: seq<Order.Candidate>)
      requires setId in sets
      ensures forall c :: c in cs <==> c in Candidates(View(), setId, failed)
      ensures forall i, j :: 0 <= i < j < |cs| ==> cs[i].id != cs[j].id
    {
      cs := [];
      var s := sets[setId];
      var todo := replicas.Keys;
      while todo != {}
        invariant todo <= replicas.Keys
        invariant forall c :: c in cs ==> c.id in replicas && c.id !in todo
        invariant forall c :: c in cs <==> c in Candidates(View(), setId, failed) && c.id !in todo
        invariant forall i, j :: 0 <= i < j < |cs| ==> cs[i].id != cs[j].id
      {
        var rid :| rid in todo;
        todo := todo - {rid};
        var r := replicas[rid];
        var compatibility := CheckCompatibility(s.compatibility, r.compatibility);
        if r.setId == setId && rid != failed
           && (r.lifecycle.Ready? || r.lifecycle.Serving?)
           && r.readiness.Ready?
           && (r.health.Healthy? || r.health.Degraded?)
           && compatibility.compatible
           && r.placement.Assigned?
           && r.setGeneration == s.generation
        {
          cs := cs + [Order.CandidateOf(rid, r)];
        }
      }
    }

    // The failed replica loses its authority (lines 571-582).
    method MarkObsolete(failed: ReplicaId, reason: Text)
      requires failed in replicas
      modifies this`replicas
      ensures replicas == old(replicas)[failed := Obsolete(old(replicas)[failed], reason)]
    {
      var fr := replicas[failed];
      var record := fr.healthRecord.(state := HealthState.Failed, reason := reason);
      fr := fr.(servingEligible := false, health := HealthState.Failed, healthRecord := record);
      fr := fr.(promotion := NotPromoted, role := Nobody, reservedCapacity := 0);
      if !fr.lifecycle.Failed? {
        if CanTransition(fr.lifecycle, ReplicaLifecycle.Failed) {
          fr := fr.(lifecycle := ReplicaLifecycle.Failed);
        }
      }
      replicas := replicas[failed := fr];
    }

    // The chosen replica takes over (lines 637-646).
    method TakeOver(chosen: ReplicaId)
      requires chosen in replicas
      modifies this`replicas, this`drawn
      ensures replicas == old(replicas)[chosen := TakenOver(old(replicas)[chosen], source(old(drawn)))]
      ensures drawn == old(drawn) + 1
    {
      var r := replicas[chosen];
      if !r.lifecycle.Serving? {
        r := r.(lifecycle := Serving);
      }
      r := r.(promotion := PromotionState.Primary, role := ReplicaRole.Primary, servingEligible := true);
      var round := RandomId();
      r := r.(healthGeneration := round, healthRecord := r.healthRecord.(generation := round));
      replicas := replicas[chosen := r];
    }

    method TriggerFailover(setId: ReplicaSetId, failed: ReplicaId, reason: Text, mono: U64, wall: I64)
      returns (status: OpStatus)
      modifies this
      ensures Outcome(View(), status) ==
        ControllerModel.TriggerFailover(old(View()), setId, failed, reason, mono, wall)
    {
      if setId !in sets {
        return Rejected;
      }
      if failed !in replicas {
        return Rejected;
      }
      if replicas[failed].setId != setId {
        return Rejected;
      }
      ghost var before := View();
      MarkObsolete(failed, reason);
      var fr := replicas[failed];
      var pol := sets[setId].policies.failover;
      var cs := GatherCandidates(setId, failed);
      MarkingKeepsCandidates(before, setId, failed, fr);
      if cs == [] {
        var id := RandomId();
        failovers := failovers + [
          FailoverRecord(id, setId, failed, NULL_ID, FailoverState.Failed, epoch, mono, mono, pol.preserveGeneration,
                         AmbiguousWork(fr), reason + NO_REPLACEMENT_SUFFIX)];
        NoCandidates(before, setId, failed, cs);
        return Rejected;
      }
      var sorted := Order.SortCandidates(pol, fr.workerId, cs);
      var chosen := sorted[0].id;
      ChoiceIsUnique(before, setId, failed, cs, sorted[0]);
      RecordTakeOver(setId, failed, chosen, reason, mono, wall);
      status := Ok;
    }

    // Promotes the replacement, writes both records and re-derives the set's lifecycle (lines 637-687).
    method RecordTakeOver(setId: ReplicaSetId, failed: ReplicaId, chosen: ReplicaId, reason: Text, mono: U64, wall: I64)
      requires setId in sets && failed in replicas && chosen in replicas && chosen != failed
      modifies this
      ensures View() == TakeOverState(old(View()), setId, failed, chosen, reason, mono, wall)
    {
      var preserve := sets[setId].policies.failover.preserveGeneration;
      TakeOver(chosen);
      var r := replicas[chosen];
      var fid := RandomId();
      var outcome := AmbiguousWork(replicas[failed]);
      var text := reason + PROMOTED_SUFFIX + IdText(chosen);
      failovers := failovers + [FailoverRecord(fid, setId, failed, chosen, FailoverState.Complete, epoch, mono, mono,
                                               preserve, outcome, text)];
      var pid := RandomId();
      promotions := promotions + [PromotionRecord(pid, chosen, setId, r.generation, r.setGeneration, epoch,
                                                  PromotionState.Standby, PromotionState.Primary, mono, wall,
                                                  FAILOVER_REPLACEMENT)];
      assert View() == TakeOverRecorded(old(View()), setId, failed, chosen, reason, mono, wall);
      DeriveSetLifecycle(setId);
    }

    method Servable(rid: ReplicaId) returns (d: Decision)
      ensures d.eligible <==> ControllerModel.Servable(View(), rid)
      ensures d.eligible <==> d.rejection.NotRejected?
      ensures d.rejection == UnknownReplica <==> rid !in replicas
      ensures d.rejection == UnknownSet <==> rid in replicas && replicas[rid].setId !in sets
      ensures rid in replicas && replicas[rid].setId in sets ==>
        && d.factors == Report(replicas[rid], sets[replicas[rid].setId], ContextFor(View(), rid))
        && (d.eligible || FirstFailure(d.factors, d.rejection))
    {
      if rid !in replicas {
        return Decision(false, [], UnknownReplica);
      }
      var r := replicas[rid];
      if r.setId !in sets {
        return Decision(false, [], UnknownSet);
      }
      var s := sets[r.setId];
      var boot := if r.workerId in workers then workers[r.workerId].bootId else NULL_ID;
      var ctx := AuthorityContext(epoch, s.generation, s.policyGeneration, s.artifactGeneration, r.healthGeneration,
                                  boot, s.compatibility.policyFingerprint);
      d := EvaluateServingAuthority(r, s, ctx);
    }

    method ListReplicas(setId: ReplicaSetId) returns (ids: seq<ReplicaId>)
      ensures ids == Ordered(Members(replicas, setId))
    {
      var members := set rid | rid in replicas && replicas[rid].setId == setId;
      ids := SortedKeys(members);
    }

    method SetEpoch(newEpoch: Epoch)
      modifies this`epoch
      ensures View() == Step(old(View()), SetEpochOp(newEpoch)).state
    {
      epoch := newEpoch;
    }
  }

  // Only the first open record of the replica is closed, and it keeps its place.
  lemma {:induction false} ClosedAtFirst(drains: seq<DrainRecord>, rid: ReplicaId, quiesced: U64, force: bool,
                                         mono: U64, i: nat)
    requires i <= |drains|
    requires forall j :: 0 <= j < i ==> !OpenDrain(drains[j], rid)
    requires i < |drains| ==> OpenDrain(drains[i], rid)
    ensures Closed(drains, rid, quiesced, force, mono) ==
      if i == |drains| then drains else drains[i := ClosedRecord(drains[i], quiesced, force, mono)]
    decreases i
  {
    if i > 0 {
      ClosedAtFirst(drains[1..], rid, quiesced, force, mono, i - 1);
      assert drains == [drains[0]] + drains[1..];
    }
  }

  // Whichever way the candidates were gathered and sorted, the head is the model's choice.
  lemma ChoiceIsUnique(c: State, setId: ReplicaSetId, failed: ReplicaId, cs: seq<Order.Candidate>, m: Order.Candidate)
    requires FailoverApplies(c, setId, failed) && cs != []
    requires forall x :: x in cs <==> x in Candidates(c, setId, failed)
    requires Order.IsFirst(c.sets[setId].policies.failover, c.replicas[failed].workerId, (set x | x in cs), m)
    ensures Candidates(c, setId, failed) != {} && m.id == Chosen(c, setId, failed)
  {
    assert (set x | x in cs) == Candidates(c, setId, failed);
    assert cs[0] in Candidates(c, setId, failed);
    Order.FirstIsTheOnlyChoice(c.sets[setId].policies.failover, c.replicas[failed].workerId,
                               Candidates(c, setId, failed), m);
  }

  // Marking the failed replica changes no other replica, hence no candidate.
  lemma MarkingKeepsCandidates(c: State, setId: ReplicaSetId, failed: ReplicaId, fr: ReplicaState)
    requires setId in c.sets
    ensures Candidates(Put(c, failed, fr), setId, failed) == Candidates(c, setId, failed)
  {
    var marked := Put(c, failed, fr);
    assert forall rid :: rid != failed ==>
      (rid in marked.replicas <==> rid in c.replicas) && (rid in c.replicas ==> marked.replicas[rid] == c.replicas[rid]);
  }

  lemma NoCandidates(c: State, setId: ReplicaSetId, failed: ReplicaId, cs: seq<Order.Candidate>)
    requires setId in c.sets && cs == []
    requires forall x :: x in cs <==> x in Candidates(c, setId, failed)
    ensures Candidates(c, setId, failed) == {}
  {
  }

  // The command-line tool's re-linking after a load (apps/cli/rf_cli.cpp:46-57).
  method RelinkAuthority(ctrl: ReplicaSetController)
    modifies ctrl
    ensures ctrl.View() == ControllerModel.RelinkAuthority(old(ctrl.View())).state
  {
    var haveEpoch := ctrl.replicas != map[];
    if haveEpoch {
      var first := LeastKey(ctrl.replicas.Keys);
      ctrl.epoch := ctrl.replicas[first].coordinatorEpoch;
    }
    RelinkBoots(ctrl);
  }

  method RelinkBoots(ctrl: ReplicaSetController)
    modifies ctrl`replicas
    ensures ctrl.replicas == map rid | rid in old(ctrl.replicas) :: Relinked(ctrl.workers, old(ctrl.replicas)[rid])
  {
    var todo := ctrl.replicas.Keys;
    while todo != {}
      invariant todo <= ctrl.replicas.Keys == old(ctrl.replicas.Keys)
      invariant forall k :: k in todo ==> ctrl.replicas[k] == old(ctrl.replicas)[k]
      invariant forall k :: k in ctrl.replicas && k !in todo ==>
        ctrl.replicas[k] == Relinked(ctrl.workers, old(ctrl.replicas)[k])
    {
      var rid :| rid in todo;
      todo := todo - {rid};
      var r := ctrl.replicas[rid];
      if r.workerId in ctrl.workers {
        ctrl.replicas := ctrl.replicas[rid := r.(bootId := ctrl.workers[r.workerId].bootId)];
      }
    }
  }
}
