// What each operation accepts and what it leaves behind, in record fields and constructors alone:
// none of the predicates and update functions of the transition functions is named in a contract here.
module Effects {
  import opened Base
  import opened Identity
  import opened Enums
  import opened Records
  import opened Transition
  import opened Compatibility
  import opened Authority
  import opened ControllerModel
  import Order = FailoverOrder

  // ----- The transition tables -----

  const SET_EDGES: set<(ReplicaSetLifecycle, ReplicaSetLifecycle)> := {
    (Created, Provisioning),
    (Provisioning, Available), (Provisioning, ReplicaSetLifecycle.Degraded),
    (Provisioning, ReplicaSetLifecycle.Failed), (Provisioning, ReplicaSetLifecycle.Retired),
    (Available, ReplicaSetLifecycle.Degraded), (Available, ReplicaSetLifecycle.Draining),
    (Available, ReplicaSetLifecycle.Retired),
    (ReplicaSetLifecycle.Degraded, Available), (ReplicaSetLifecycle.Degraded, ReplicaSetLifecycle.Draining),
    (ReplicaSetLifecycle.Degraded, ReplicaSetLifecycle.Retired),
    (ReplicaSetLifecycle.Degraded, ReplicaSetLifecycle.Failed),
    (ReplicaSetLifecycle.Draining, ReplicaSetLifecycle.Retired), (ReplicaSetLifecycle.Draining, Available),
    (ReplicaSetLifecycle.Failed, ReplicaSetLifecycle.Retired)
  }

  // What stands in each row of the replica table besides RETIRED, which stands in all but its own.
  function Onward(l: ReplicaLifecycle): set<ReplicaLifecycle> {
    match l
    case Declared => {Allocating, ReplicaLifecycle.Starting, ReplicaLifecycle.Failed}
    case Allocating => {ReplicaLifecycle.Starting, ReplicaLifecycle.Failed}
    case Starting => {ReplicaLifecycle.Warming, ReplicaLifecycle.Ready, ReplicaLifecycle.Failed}
    case Warming => {ReplicaLifecycle.Ready, ReplicaLifecycle.Starting, ReplicaLifecycle.Failed}
    case Ready => {Serving, ReplicaLifecycle.Warming, ReplicaLifecycle.Draining, ReplicaLifecycle.Failed}
    case Serving => {ReplicaLifecycle.Ready, ReplicaLifecycle.Draining, ReplicaLifecycle.Failed}
    case Draining => {ReplicaLifecycle.Quiesced, ReplicaLifecycle.Ready, ReplicaLifecycle.Failed}
    case Quiesced => {ReplicaLifecycle.Ready}
    case Failed => {}
    case Retired => {}
  }

  lemma ReplicaTable(from: ReplicaLifecycle, to: ReplicaLifecycle)
    ensures CanTransition(from, to) <==> to in Onward(from) || (to.Retired? && !from.Retired?)
  {
  }

  lemma TransitionEffect(c: State, sid: ReplicaSetId, to: ReplicaSetLifecycle)
    ensures Step(c, TransitionSetOp(sid, to)) ==
      if sid !in c.sets then Outcome(c, Rejected)
      else if (c.sets[sid].lifecycle, to) !in SET_EDGES then Outcome(c, Invalid)
      else Outcome(c.(sets := c.sets[sid := c.sets[sid].(lifecycle := to)]), OpStatus.Ok)
  {
  }

  // ----- Compatibility -----

  // A compatible replica agrees with its set in every field but two: it may have adapters to spare,
  // and a compute capability that is no smaller, the major number first.
  lemma CompatibilityInFields(req: CompatibilityRequirements, got: ReplicaCompatibility)
    ensures Compatible(req, got) <==>
      && got == ReplicaCompatibility(
                  req.modelId, req.modelRevision, req.tokenizerVocab, got.adapters, req.backend, req.runtimeName,
                  req.architecture, got.compute, req.numericMode, req.artifactGeneration, req.kernelAbi,
                  req.policyFingerprint)
      && (set a | a in req.requiredAdapters) <= (set a | a in got.adapters)
      && (got.compute.major > req.minCompute.major ||
          (got.compute.major == req.minCompute.major && got.compute.minor >= req.minCompute.minor))
  {
    var (required, present) := (set a | a in req.requiredAdapters, set a | a in got.adapters);
    assert required <= present <==> forall a :: a in req.requiredAdapters ==> a in got.adapters by {
      if required <= present {
        forall a | a in req.requiredAdapters ensures a in got.adapters { assert a in required; }
      }
    }
  }

  // ----- The gate -----

  // All sixteen factors, in any state whatever.
  lemma GateInFields(c: State, rid: ReplicaId)
    ensures Servable(c, rid) <==>
      && rid in c.replicas && c.replicas[rid].setId in c.sets
      && var (r, s) := (c.replicas[rid], c.sets[c.replicas[rid].setId]);
      && (s.lifecycle == Available || s.lifecycle == ReplicaSetLifecycle.Degraded)
      && r.coordinatorEpoch == c.epoch && r.setGeneration == s.generation && r.generation != NULL_ID
      && r.artifactGeneration == s.artifactGeneration && r.policyGeneration == s.policyGeneration
      && r.policyFingerprint == s.compatibility.policyFingerprint
      && r.bootId == (if r.workerId in c.workers then c.workers[r.workerId].bootId else NULL_ID)
      && r.lifecycle == Serving && (r.health == Healthy || r.health == HealthState.Degraded)
      && r.readiness == ReadinessState.Ready && r.warmth == Warm && r.promotion != NotPromoted
      && r.servingEligible && r.placement == Assigned
  {
    if rid in c.replicas && c.replicas[rid].setId in c.sets {
      var (r, s, cur) := (c.replicas[rid], c.sets[c.replicas[rid].setId], ContextFor(c, rid));
      AuthorityInFields(r, s, cur);
    }
  }

  // ----- Workers -----

  // A known worker that comes back under another boot identity loses what it was serving.
  lemma RegistrationEffect(c: State, wr: WorkerRegistration)
    ensures var o := Step(c, RegisterWorkerOp(wr));
      && o.status == OpStatus.Ok && o.state.replicas.Keys == c.replicas.Keys
      && o.state == c.(replicas := o.state.replicas, workers := c.workers[wr.workerId := wr])
      && forall rid <- c.replicas :: (
           var (r, r') := (c.replicas[rid], o.state.replicas[rid]);
           if wr.workerId in c.workers && c.workers[wr.workerId].bootId != wr.bootId
              && r.workerId == wr.workerId && r.lifecycle == Serving
           then r' == r.(servingEligible := false, health := HealthState.Failed,
                         healthRecord := r.healthRecord.(state := HealthState.Failed, reason := WORKER_RESTARTED),
                         lifecycle := ReplicaLifecycle.Failed, promotion := NotPromoted, role := Nobody,
                         activeRequests := 0)
           else r' == r)
  {
  }

  // A worker that leaves loses every replica that served, was about to, or was draining.
  lemma DisconnectionEffect(c: State, w: WorkerId)
    ensures var o := Step(c, UnregisterWorkerOp(w));
      && (o.status == OpStatus.Ok <==> w in c.workers)
      && (w !in c.workers ==> o == Outcome(c, Rejected))
      && o.state == c.(replicas := o.state.replicas, workers := c.workers - {w})
      && o.state.replicas.Keys == c.replicas.Keys
      && forall rid <- c.replicas :: (
           var (r, r') := (c.replicas[rid], o.state.replicas[rid]);
           if w in c.workers && r.workerId == w
              && (r.servingEligible || r.lifecycle == Serving || r.lifecycle == ReplicaLifecycle.Ready
                  || r.lifecycle == ReplicaLifecycle.Draining)
           then r' == r.(servingEligible := false, health := HealthState.Failed,
                         healthRecord := r.healthRecord.(state := HealthState.Failed, reason := WORKER_DISCONNECTED),
                         lifecycle := ReplicaLifecycle.Failed, promotion := NotPromoted, role := Nobody)
           else r' == r)
  {
    if w !in c.workers { assert c.workers - {w} == c.workers; }
  }

  // ----- Sets and new replicas -----

  // 0 < min <= max and 0 < desired <= max; nothing relates min to desired.
  lemma CreationEffect(c: State, s: ReplicaSetState, e: Epoch)
    ensures Step(c, CreateSetOp(s, e)) ==
      if s.id in c.sets then Outcome(c, Rejected)
      else if 0 < s.minHealthy <= s.maxReplicas && 0 < s.desiredCount <= s.maxReplicas
      then Outcome(c.(sets := c.sets[s.id := s], epoch := e), OpStatus.Ok)
      else Outcome(c, Invalid)
  {
  }

  // The count is kept in 32 bits. An existing replica of the same identity is replaced.
  lemma ProvisionEffect(c: State, rid: ReplicaId, sid: ReplicaSetId, w: WorkerId, compat: ReplicaCompatibility,
                        device: DeviceCapability, capacity: U64, mono: U64, wall: I64)
    ensures var o := Step(c, ProvisionOp(rid, sid, w, compat, device, capacity, mono, wall));
      var members := set x | x in c.replicas && c.replicas[x].setId == sid;
      if sid in c.sets && c.sets[sid].lifecycle != ReplicaSetLifecycle.Retired
         && c.sets[sid].lifecycle != ReplicaSetLifecycle.Failed && w in c.workers
         && |members| % 0x1_0000_0000 < c.sets[sid].maxReplicas
      then
        var (s, worker) := (c.sets[sid], c.workers[w]);
        o == Outcome(
               c.(sets := c.sets[sid := s.(lifecycle := if s.lifecycle == Created then Provisioning else s.lifecycle)],
                  replicas := c.replicas[rid := o.state.replicas[rid]], drawn := c.drawn + 2), OpStatus.Ok)
        && o.state.replicas[rid] == ReplicaState(
             rid, sid, c.source(c.drawn), worker.nodeId, w, worker.bootId, s.artifactId, s.artifactGeneration,
             compat.backend, compat.runtimeName, device.deviceId, device.kind, device.compute,
             NotResident, Cold, ReadinessState.Unknown, HealthState.Unknown, Declared,
             NULL_ID, Pending, NotPromoted, Nobody, false, 0, 0, capacity, mono, wall,
             EMPTY_HEALTH_RECORD, EMPTY_READINESS_RECORD, EMPTY_WARMING_RECORD,
             c.epoch, s.generation, c.source(c.drawn + 1), s.policyGeneration, s.compatibility.policyFingerprint,
             compat)
      else o == Outcome(c, Rejected)
  {
    var members := set x | x in c.replicas && c.replicas[x].setId == sid;
    assert members == Members(c.replicas, sid);
  }

  // ----- Bring-up -----

  lemma AllocationEffect(c: State, rid: ReplicaId, p: Id)
    ensures Step(c, AllocateOp(rid, p)) ==
      if rid !in c.replicas then Outcome(c, Rejected)
      else if c.replicas[rid].lifecycle != Declared then Outcome(c, Invalid)
      else Outcome(c.(replicas := c.replicas[rid := c.replicas[rid].(
             lifecycle := Allocating, placementId := p, placement := if p == NULL_ID then Pending else Assigned,
             memoryResidency := NotResident)]), OpStatus.Ok)
  {
  }

  lemma StartEffect(c: State, rid: ReplicaId, mono: U64, wall: I64)
    ensures Step(c, StartOp(rid, mono, wall)) ==
      if rid !in c.replicas then Outcome(c, Rejected)
      else
        var r := c.replicas[rid];
        if r.lifecycle == Declared || r.lifecycle == Allocating || r.lifecycle == ReplicaLifecycle.Warming
        then Outcome(c.(replicas := c.replicas[rid := r.(
               lifecycle := ReplicaLifecycle.Starting, health := HealthState.Starting,
               healthRecord := r.healthRecord.(state := HealthState.Starting, updatedAtMono := mono,
                                               updatedAtWall := wall))]), OpStatus.Ok)
        else Outcome(c, Invalid)
  {
  }

  // WARM when the warm-up has been executed, needs no steps, or has not completed one.
  lemma WarmingEffect(c: State, rid: ReplicaId, w: WarmingRecord, worker: WorkerId, boot: WorkerBootId, mono: U64)
    ensures Step(c, WarmOp(rid, w, worker, boot, mono)) ==
      if rid !in c.replicas || c.replicas[rid].workerId != worker || c.replicas[rid].bootId != boot
      then Outcome(c, Rejected)
      else
        var r := c.replicas[rid];
        if r.lifecycle == ReplicaLifecycle.Starting || r.lifecycle == ReplicaLifecycle.Warming
           || r.lifecycle == ReplicaLifecycle.Ready
        then Outcome(c.(replicas := c.replicas[rid := r.(
               lifecycle := ReplicaLifecycle.Warming,
               warmingRecord := w.(startedWarmingMono := if w.startedWarmingMono == 0 then mono
                                                         else w.startedWarmingMono),
               warmth := if w.warmupExecutionDone || w.stepsRequired == 0 || w.stepsCompleted == 0 then Warm
                         else WarmthState.Warming)]), OpStatus.Ok)
        else Outcome(c, Invalid)
  {
  }

  // ----- Evidence -----

  // A report of FAILED or UNHEALTHY counts as a failure and turns a primary into a standby; any other
  // report resets the count and leaves authority alone.
  lemma HealthEffect(c: State, rid: ReplicaId, ev: HealthEvidence, worker: WorkerId, boot: WorkerBootId, mono: U64)
    ensures var o := Step(c, HealthOp(rid, ev, worker, boot, mono));
      if rid in c.replicas
         && c.replicas[rid].workerId == worker && c.replicas[rid].bootId == boot
         && c.replicas[rid].coordinatorEpoch == c.epoch && c.replicas[rid].healthGeneration == ev.generation
         && c.replicas[rid].lifecycle !in
              {ReplicaLifecycle.Failed, ReplicaLifecycle.Retired, ReplicaLifecycle.Quiesced}
      then
        var (r, failing) := (c.replicas[rid], ev.state == HealthState.Failed || ev.state == Unhealthy);
        && o == Outcome(c.(replicas := c.replicas[rid := o.state.replicas[rid]]), OpStatus.Ok)
        && o.state.replicas[rid] == r.(
             health := ev.state,
             healthRecord := HealthRecord(
               ev.state, ev.kind, ev.source, mono, ev.observedAtWall, ev.confidence, ev.generation, ev.message,
               r.healthRecord.consecutiveStale,
               if failing then (r.healthRecord.consecutiveFailures + 1) % 0x1_0000_0000 else 0),
             servingEligible := r.servingEligible && !failing,
             role := if r.servingEligible && failing then Secondary else r.role,
             promotion := if r.servingEligible && failing then PromotionState.Standby else r.promotion)
      else o == Outcome(c, Rejected)
  {
  }

  // Whatever state the report claims, all eleven factors decide; a replica that starts or warms
  // becomes READY by them, and none leaves READY for lack of them.
  lemma ReadinessEffect(c: State, rid: ReplicaId, rr: ReadinessRecord, worker: WorkerId, boot: WorkerBootId)
    ensures Step(c, ReadinessOp(rid, rr, worker, boot)) ==
      if rid in c.replicas
         && c.replicas[rid].workerId == worker && c.replicas[rid].bootId == boot
         && c.replicas[rid].coordinatorEpoch == c.epoch
         && c.replicas[rid].lifecycle !in
              {ReplicaLifecycle.Failed, ReplicaLifecycle.Retired, ReplicaLifecycle.Quiesced}
      then
        var (r, l) := (c.replicas[rid], c.replicas[rid].lifecycle);
        Outcome(c.(replicas := c.replicas[rid := r.(
          readinessRecord := rr,
          readiness := if rr.factors == EVERY_FACTOR then ReadinessState.Ready else NotReady,
          lifecycle := if rr.factors == EVERY_FACTOR
                          && (l == ReplicaLifecycle.Starting || l == ReplicaLifecycle.Warming)
                       then ReplicaLifecycle.Ready else l)]), OpStatus.Ok)
      else Outcome(c, Rejected)
  {
  }

  // ----- Promotion -----

  lemma PromotableInFields(r: ReplicaState, s: ReplicaSetState, epoch: Epoch, target: PromotionState)
    ensures var pol := s.policies.promotion;
      Promotable(r, s, epoch, target) <==>
      && r.coordinatorEpoch == epoch && r.setGeneration == s.generation
      && r.policyGeneration == s.policyGeneration && r.artifactGeneration == s.artifactGeneration
      && (pol.requireReady || target == PromotionState.Primary ==>
            r.lifecycle == ReplicaLifecycle.Ready || r.lifecycle == Serving)
      && r.readiness == ReadinessState.Ready
      && (pol.requireHealthy ==> r.health in {Healthy, HealthState.Degraded, HealthState.Failed, Quarantined})
      && (pol.requireCompatible ==> Compatible(s.compatibility, r.compatibility))
      && (pol.requirePlacementValid ==> r.placement == Assigned)
      && (pol.requireResources ==> r.capacityTotal > 0)
  {
  }

  // Every gate. The health gate keeps out UNKNOWN, STARTING and UNHEALTHY and lets FAILED and
  // QUARANTINED pass; readiness is asked for whatever the policy says.
  lemma PromotionGates(c: State, rid: ReplicaId, target: PromotionState, worker: WorkerId, boot: WorkerBootId,
                       mono: U64, wall: I64)
    ensures var o := Step(c, PromoteOp(rid, target, worker, boot, mono, wall));
      && (o.status == OpStatus.Ok || o == Outcome(c, Rejected))
      && (o.status == OpStatus.Ok <==>
            && rid in c.replicas && c.replicas[rid].setId in c.sets
            && var (r, s) := (c.replicas[rid], c.sets[c.replicas[rid].setId]);
            && var pol := s.policies.promotion;
            && r.workerId == worker && r.bootId == boot
            && r.coordinatorEpoch == c.epoch && r.setGeneration == s.generation
            && r.policyGeneration == s.policyGeneration && r.artifactGeneration == s.artifactGeneration
            && (pol.requireReady || target == PromotionState.Primary ==>
                  r.lifecycle == ReplicaLifecycle.Ready || r.lifecycle == Serving)
            && r.readiness == ReadinessState.Ready
            && (pol.requireHealthy ==>
                  r.health in {Healthy, HealthState.Degraded, HealthState.Failed, Quarantined})
            && (pol.requireCompatible ==> Compatible(s.compatibility, r.compatibility))
            && (pol.requirePlacementValid ==> r.placement == Assigned)
            && (pol.requireResources ==> r.capacityTotal > 0))
  {
    if rid in c.replicas && c.replicas[rid].setId in c.sets {
      PromotableInFields(c.replicas[rid], c.sets[c.replicas[rid].setId], c.epoch, target);
    }
  }

  // DEGRADED below `min_healthy` HEALTHY replicas, AVAILABLE from there on, where the table allows.
  predicate FollowsCount(l: ReplicaSetLifecycle, healthy: nat, s: ReplicaSetState) {
    l == if healthy < s.minHealthy && (s.lifecycle == Provisioning || s.lifecycle == Available)
         then ReplicaSetLifecycle.Degraded
         else if healthy >= s.minHealthy && (s.lifecycle == Provisioning || s.lifecycle == ReplicaSetLifecycle.Degraded
                                             || s.lifecycle == ReplicaSetLifecycle.Draining)
         then Available
         else s.lifecycle
  }

  // Of all sets only `sid` changes, and in its lifecycle alone, by the HEALTHY replicas it ends up with.
  ghost predicate OnlySetRederived(c: State, c': State, sid: ReplicaSetId) {
    var healthy := set x | x in c'.replicas && c'.replicas[x].setId == sid && c'.replicas[x].health == Healthy;
    && sid in c.sets && sid in c'.sets
    && c'.sets == c.sets[sid := c.sets[sid].(lifecycle := c'.sets[sid].lifecycle)]
    && FollowsCount(c'.sets[sid].lifecycle, |healthy| % 0x1_0000_0000, c.sets[sid])
  }

  lemma RederivedInFields(c: State, sid: ReplicaSetId)
    requires sid in c.sets
    ensures OnlySetRederived(c, Rederived(c, sid), sid)
    ensures Rederived(c, sid) == c.(sets := Rederived(c, sid).sets)
  {
    var healthy := set x | x in c.replicas && c.replicas[x].setId == sid && c.replicas[x].health == Healthy;
    assert healthy == HealthyMembers(c.replicas, sid);
  }

  lemma PromotionSteps(c: State, rid: ReplicaId, target: PromotionState, worker: WorkerId, boot: WorkerBootId,
                       mono: U64, wall: I64)
    requires Step(c, PromoteOp(rid, target, worker, boot, mono, wall)).status == OpStatus.Ok
    ensures rid in c.replicas && c.replicas[rid].setId in c.sets
    ensures Step(c, PromoteOp(rid, target, worker, boot, mono, wall)).state ==
            Rederived(PromotionRecorded(c, rid, target, mono, wall), c.replicas[rid].setId)
  {
  }

  lemma RecordedInFields(c: State, rid: ReplicaId, target: PromotionState, mono: U64, wall: I64)
    requires rid in c.replicas
    ensures var (c', r) := (PromotionRecorded(c, rid, target, mono, wall), c.replicas[rid]);
      var (round, k) := (c.source(c.drawn), if target == PromotionState.Primary then 1 else 0);
      && c'.replicas == c.replicas[rid :=
           if target == PromotionState.Primary
           then r.(lifecycle := Serving, promotion := PromotionState.Primary, role := ReplicaRole.Primary,
                   servingEligible := true, healthGeneration := round,
                   healthRecord := r.healthRecord.(generation := round),
                   health := if r.health == HealthState.Unknown then Healthy else r.health)
           else r.(promotion := target, servingEligible := false,
                   role := if target == PromotionState.Recovered then Secondary else ReplicaRole.Standby)]
      && c'.promotions == c.promotions + [PromotionRecord(
           c.source(c.drawn + k), r.id, r.setId, r.generation, r.setGeneration, c.epoch, r.promotion, target,
           mono, wall, PromotionText(target))]
      && c' == c.(replicas := c'.replicas, promotions := c'.promotions, drawn := c.drawn + k + 1)
  {
  }

  // A promotion to PRIMARY begins a new health round; any other leaves the replica without authority.
  lemma PromotionEffect(c: State, rid: ReplicaId, target: PromotionState, worker: WorkerId, boot: WorkerBootId,
                        mono: U64, wall: I64)
    requires Step(c, PromoteOp(rid, target, worker, boot, mono, wall)).status == OpStatus.Ok
    ensures rid in c.replicas
    ensures var (c', r) := (Step(c, PromoteOp(rid, target, worker, boot, mono, wall)).state, c.replicas[rid]);
      var (round, k) := (c.source(c.drawn), if target == PromotionState.Primary then 1 else 0);
      && c'.replicas == c.replicas[rid :=
           if target == PromotionState.Primary
           then r.(lifecycle := Serving, promotion := PromotionState.Primary, role := ReplicaRole.Primary,
                   servingEligible := true, healthGeneration := round,
                   healthRecord := r.healthRecord.(generation := round),
                   health := if r.health == HealthState.Unknown then Healthy else r.health)
           else r.(promotion := target, servingEligible := false,
                   role := if target == PromotionState.Recovered then Secondary else ReplicaRole.Standby)]
      && c'.promotions == c.promotions + [PromotionRecord(
           c.source(c.drawn + k), r.id, r.setId, r.generation, r.setGeneration, c.epoch, r.promotion, target,
           mono, wall, PromotionText(target))]
      && c' == c.(sets := c'.sets, replicas := c'.replicas, promotions := c'.promotions, drawn := c.drawn + k + 1)
      && OnlySetRederived(c, c', r.setId)
  {
    PromotionSteps(c, rid, target, worker, boot, mono, wall);
    RecordedInFields(c, rid, target, mono, wall);
    RederivedInFields(PromotionRecorded(c, rid, target, mono, wall), c.replicas[rid].setId);
  }

  // ----- Leaving service -----

  lemma DrainEffect(c: State, rid: ReplicaId, worker: WorkerId, boot: WorkerBootId, mono: U64)
    ensures Step(c, DrainOp(rid, worker, boot, mono)) ==
      if rid in c.replicas && c.replicas[rid].workerId == worker && c.replicas[rid].bootId == boot
         && c.replicas[rid].coordinatorEpoch == c.epoch
         && (c.replicas[rid].lifecycle == ReplicaLifecycle.Ready || c.replicas[rid].lifecycle == Serving)
      then
        var r := c.replicas[rid];
        Outcome(c.(replicas := c.replicas[rid := r.(
                     servingEligible := false, role := Secondary, promotion := PromotionState.Standby,
                     lifecycle := ReplicaLifecycle.Draining)],
                   drains := c.drains + [DrainRecord(c.source(c.drawn), r.id, r.setId, DrainState.Draining, mono, 0,
                                                     false, 0, DRAIN_REQUESTED)],
                   drawn := c.drawn + 1), OpStatus.Ok)
      else Outcome(c, Rejected)
  {
  }

  // The first open drain record of `rid` stands at place k.
  predicate FirstOpen(drains: seq<DrainRecord>, rid: ReplicaId, k: nat) {
    && k < |drains| && drains[k].replicaId == rid && drains[k].state == DrainState.Draining
    && forall i :: 0 <= i < k ==> drains[i].replicaId != rid || drains[i].state != DrainState.Draining
  }

  lemma {:induction false} ClosingInFields(drains: seq<DrainRecord>, rid: ReplicaId, quiesced: U64, force: bool,
                                           mono: U64, k: nat)
    requires FirstOpen(drains, rid, k)
    ensures Closed(drains, rid, quiesced, force, mono) ==
      drains[k := drains[k].(state := DrainState.Quiesced, completedMono := mono, quiescedRequests := quiesced,
                             forceCancelled := force)]
  {
    if k > 0 {
      assert FirstOpen(drains[1..], rid, k - 1);
      ClosingInFields(drains[1..], rid, quiesced, force, mono, k - 1);
    }
  }

  lemma {:induction false} NothingToClose(drains: seq<DrainRecord>, rid: ReplicaId, quiesced: U64, force: bool,
                                          mono: U64)
    requires forall i :: 0 <= i < |drains| ==> drains[i].replicaId != rid || drains[i].state != DrainState.Draining
    ensures Closed(drains, rid, quiesced, force, mono) == drains
  {
    if drains != [] { NothingToClose(drains[1..], rid, quiesced, force, mono); }
  }

  // With `force` no outstanding request stands in the way.
  lemma QuiesceEffect(c: State, rid: ReplicaId, quiesced: U64, force: bool, mono: U64)
    ensures var o := Step(c, CompleteDrainOp(rid, quiesced, force, mono));
      if rid in c.replicas && c.replicas[rid].lifecycle == ReplicaLifecycle.Draining
         && (force || c.replicas[rid].activeRequests == 0)
      then
        var r := c.replicas[rid];
        && o == Outcome(c.(replicas := c.replicas[rid := r.(
                             lifecycle := ReplicaLifecycle.Quiesced, activeRequests := 0, servingEligible := false)],
                           drains := o.state.drains), OpStatus.Ok)
        && (forall k: nat :: FirstOpen(c.drains, r.id, k) ==>
              o.state.drains == c.drains[k := c.drains[k].(
                state := DrainState.Quiesced, completedMono := mono, quiescedRequests := quiesced,
                forceCancelled := force)])
        && ((forall k: nat :: !FirstOpen(c.drains, r.id, k)) ==> o.state.drains == c.drains)
      else o == Outcome(c, Rejected)
  {
    if rid in c.replicas {
      var id := c.replicas[rid].id;
      forall k: nat | FirstOpen(c.drains, id, k)
        ensures Closed(c.drains, id, quiesced, force, mono) ==
          c.drains[k := c.drains[k].(state := DrainState.Quiesced, completedMono := mono, quiescedRequests := quiesced,
                                     forceCancelled := force)]
      {
        ClosingInFields(c.drains, id, quiesced, force, mono, k);
      }
      if forall k: nat :: !FirstOpen(c.drains, id, k) {
        NoneOpen(c.drains, id, |c.drains|);
        NothingToClose(c.drains, id, quiesced, force, mono);
      }
    }
  }

  lemma {:induction false} NoneOpen(drains: seq<DrainRecord>, rid: ReplicaId, n: nat)
    requires n <= |drains| && forall k: nat :: !FirstOpen(drains, rid, k)
    ensures forall i :: 0 <= i < n ==> drains[i].replicaId != rid || drains[i].state != DrainState.Draining
  {
    if n > 0 {
      NoneOpen(drains, rid, n - 1);
      assert !FirstOpen(drains, rid, n - 1);
    }
  }

  // Past the boot check the replica is stripped, whether or not the call is then refused.
  lemma FailureEffect(c: State, rid: ReplicaId, worker: WorkerId, boot: WorkerBootId, reason: Text, mono: U64)
    ensures Step(c, FailOp(rid, worker, boot, reason, mono)) ==
      if rid !in c.replicas || c.replicas[rid].workerId != worker || c.replicas[rid].bootId != boot
      then Outcome(c, Rejected)
      else
        var r := c.replicas[rid];
        var over := r.lifecycle in {ReplicaLifecycle.Quiesced, ReplicaLifecycle.Failed, ReplicaLifecycle.Retired};
        Outcome(c.(replicas := c.replicas[rid := r.(
          servingEligible := false, health := HealthState.Failed,
          healthRecord := r.healthRecord.(state := HealthState.Failed, updatedAtMono := mono, reason := reason),
          promotion := NotPromoted, role := Nobody, reservedCapacity := 0,
          lifecycle := if over then r.lifecycle else ReplicaLifecycle.Failed)]),
          if over then Rejected else OpStatus.Ok)
  {
  }

  lemma RetirementEffect(c: State, rid: ReplicaId)
    ensures Step(c, RetireOp(rid)) ==
      if rid !in c.replicas || c.replicas[rid].lifecycle == ReplicaLifecycle.Retired then Outcome(c, Rejected)
      else Outcome(c.(replicas := c.replicas[rid := c.replicas[rid].(
             lifecycle := ReplicaLifecycle.Retired, servingEligible := false, promotion := NotPromoted, role := Nobody,
             reservedCapacity := 0, activeRequests := 0, memoryResidency := Evicted,
             warmth := WarmthState.Invalidated)]), OpStatus.Ok)
  {
  }

  // ----- Failover -----

  // What a replica of the set needs to be considered.
  predicate Qualifies(c: State, sid: ReplicaSetId, failed: ReplicaId, x: ReplicaId)
    requires sid in c.sets
  {
    && x in c.replicas && x != failed && c.replicas[x].setId == sid
    && (c.replicas[x].lifecycle == ReplicaLifecycle.Ready || c.replicas[x].lifecycle == Serving)
    && c.replicas[x].readiness == ReadinessState.Ready
    && (c.replicas[x].health == Healthy || c.replicas[x].health == HealthState.Degraded)
    && Compatible(c.sets[sid].compatibility, c.replicas[x].compatibility)
    && c.replicas[x].placement == Assigned && c.replicas[x].setGeneration == c.sets[sid].generation
  }

  // A replica of the failed one's set counts; which epoch, boot or warmth it has does not.
  lemma FailoverGates(c: State, sid: ReplicaSetId, failed: ReplicaId, reason: Text, mono: U64, wall: I64)
    ensures var o := Step(c, FailoverOp(sid, failed, reason, mono, wall));
      && (o.status == OpStatus.Ok <==>
            && sid in c.sets && failed in c.replicas && c.replicas[failed].setId == sid
            && exists x :: Qualifies(c, sid, failed, x))
      && (o.status != OpStatus.Ok ==> o.status == Rejected)
      && (!(sid in c.sets && failed in c.replicas && c.replicas[failed].setId == sid) ==> o.state == c)
  {
    if FailoverApplies(c, sid, failed) {
      if x :| Qualifies(c, sid, failed, x) {
        assert Order.CandidateOf(x, c.replicas[x]) in Candidates(c, sid, failed);
      }
      if Candidates(c, sid, failed) != {} {
        assert Qualifies(c, sid, failed, Chosen(c, sid, failed));
      }
    }
  }

  // STANDBY before CANARY before REPLACEMENT before RECOVERED before everything else.
  const RANKED: seq<PromotionState> :=
    [PromotionState.Standby, PromotionState.Canary, Replacement, PromotionState.Recovered]

  predicate RankedBefore(a: PromotionState, b: PromotionState) {
    a in RANKED && (b in RANKED ==> exists i, j :: 0 <= i < j < 4 && RANKED[i] == a && RANKED[j] == b)
  }

  lemma RanksInOrder(a: PromotionState, b: PromotionState)
    ensures RankedBefore(a, b) <==> Order.RoleRank(a) < Order.RoleRank(b)
  {
    var (i, j) := (Order.RoleRank(a), Order.RoleRank(b));
    assert forall p :: p in RANKED <==> Order.RoleRank(p) < 4 by {
      forall p | Order.RoleRank(p) < 4 ensures p in RANKED { assert RANKED[Order.RoleRank(p)] == p; }
    }
    assert forall k :: 0 <= k < 4 ==> Order.RoleRank(RANKED[k]) == k;
    if i < j < 4 { assert RANKED[i] == a && RANKED[j] == b; }
  }

  // The preference between two that qualify: by rank if the policy prefers standbys, then by being
  // on another worker than the failed one if it asks for diversity, then by identity.
  predicate Preferred(pol: FailoverPolicy, w: WorkerId, a: ReplicaId, ra: ReplicaState, b: ReplicaId,
                      rb: ReplicaState)
  {
    if pol.preferStandbyFirst && RankedBefore(ra.promotion, rb.promotion) then true
    else if pol.preferStandbyFirst && RankedBefore(rb.promotion, ra.promotion) then false
    else if pol.requireDiversity && ra.workerId != w && rb.workerId == w then true
    else if pol.requireDiversity && ra.workerId == w && rb.workerId != w then false
    else a.hi < b.hi || (a.hi == b.hi && a.lo < b.lo)
  }

  lemma PreferredIsBefore(pol: FailoverPolicy, w: WorkerId, a: ReplicaId, ra: ReplicaState, b: ReplicaId,
                          rb: ReplicaState)
    ensures Preferred(pol, w, a, ra, b, rb) <==>
            Order.Before(pol, w, Order.CandidateOf(a, ra), Order.CandidateOf(b, rb))
  {
    RanksInOrder(ra.promotion, rb.promotion);
    RanksInOrder(rb.promotion, ra.promotion);
  }

  // The failed replica as a failover leaves it, replacement or not.
  function Marked(r: ReplicaState, reason: Text): ReplicaState {
    r.(servingEligible := false, health := HealthState.Failed,
       healthRecord := r.healthRecord.(state := HealthState.Failed, reason := reason),
       promotion := NotPromoted, role := Nobody, reservedCapacity := 0,
       lifecycle := if r.lifecycle in {ReplicaLifecycle.Quiesced, ReplicaLifecycle.Failed, ReplicaLifecycle.Retired}
                    then r.lifecycle else ReplicaLifecycle.Failed)
  }

  lemma MarkedIsObsolete(r: ReplicaState, reason: Text)
    ensures Marked(r, reason) == Obsolete(r, reason)
  {
  }

  lemma FutileFailoverEffect(c: State, sid: ReplicaSetId, failed: ReplicaId, reason: Text, mono: U64, wall: I64)
    requires sid in c.sets && failed in c.replicas && c.replicas[failed].setId == sid
    requires forall x :: !Qualifies(c, sid, failed, x)
    ensures Step(c, FailoverOp(sid, failed, reason, mono, wall)) == Outcome(
      c.(replicas := c.replicas[failed := Marked(c.replicas[failed], reason)],
         failovers := c.failovers + [FailoverRecord(
           c.source(c.drawn), sid, failed, NULL_ID, FailoverState.Failed, c.epoch, mono, mono,
           c.sets[sid].policies.failover.preserveGeneration,
           if c.replicas[failed].activeRequests > 0 then [Ambiguous] else [], reason + NO_REPLACEMENT_SUFFIX)],
         drawn := c.drawn + 1), Rejected)
  {
    MarkedIsObsolete(c.replicas[failed], reason);
    if Candidates(c, sid, failed) != {} {
      assert Qualifies(c, sid, failed, Chosen(c, sid, failed));
    }
  }

  // `x` takes over: it becomes the primary under a new health round, and both logs say so.
  ghost predicate TakesOver(c: State, c': State, sid: ReplicaSetId, failed: ReplicaId, x: ReplicaId, reason: Text,
                            mono: U64, wall: I64)
  {
    && sid in c.sets && failed in c.replicas && x in c.replicas
    && var (r, round, pol) := (c.replicas[x], c.source(c.drawn), c.sets[sid].policies.failover);
    && c'.replicas == c.replicas[failed := Marked(c.replicas[failed], reason)][x := r.(
         lifecycle := Serving, promotion := PromotionState.Primary, role := ReplicaRole.Primary,
         servingEligible := true, healthGeneration := round, healthRecord := r.healthRecord.(generation := round))]
    && c'.failovers == c.failovers + [FailoverRecord(
         c.source(c.drawn + 1), sid, failed, x, FailoverState.Complete, c.epoch, mono, mono, pol.preserveGeneration,
         if c.replicas[failed].activeRequests > 0 then [Ambiguous] else [], reason + PROMOTED_SUFFIX + IdText(x))]
    && c'.promotions == c.promotions + [PromotionRecord(
         c.source(c.drawn + 2), x, sid, r.generation, r.setGeneration, c.epoch, PromotionState.Standby,
         PromotionState.Primary, mono, wall, FAILOVER_REPLACEMENT)]
    && c' == c.(sets := c'.sets, replicas := c'.replicas, promotions := c'.promotions, failovers := c'.failovers,
                drawn := c.drawn + 3)
  }

  // Of all replicas that qualify the preferred one takes over, and the set's lifecycle is derived again.
  lemma FailoverEffect(c: State, sid: ReplicaSetId, failed: ReplicaId, reason: Text, mono: U64, wall: I64)
    requires Step(c, FailoverOp(sid, failed, reason, mono, wall)).status == OpStatus.Ok
    ensures sid in c.sets && failed in c.replicas
    ensures exists x :: (
      && Qualifies(c, sid, failed, x)
      && (forall y :: Qualifies(c, sid, failed, y) && y != x ==>
            Preferred(c.sets[sid].policies.failover, c.replicas[failed].workerId, x, c.replicas[x], y, c.replicas[y]))
      && TakesOver(c, Step(c, FailoverOp(sid, failed, reason, mono, wall)).state, sid, failed, x, reason, mono, wall))
    ensures OnlySetRederived(c, Step(c, FailoverOp(sid, failed, reason, mono, wall)).state, sid)
  {
    FailoverSteps(c, sid, failed, reason, mono, wall);
    var x := Chosen(c, sid, failed);
    var marked := Put(c, failed, Obsolete(c.replicas[failed], reason));
    var recorded := TakeOverRecorded(marked, sid, failed, x, reason, mono, wall);
    ChosenIsPreferred(c, sid, failed);
    TakeOverInFields(c, sid, failed, x, reason, mono, wall);
    RederivedInFields(recorded, sid);
  }

  lemma FailoverSteps(c: State, sid: ReplicaSetId, failed: ReplicaId, reason: Text, mono: U64, wall: I64)
    requires Step(c, FailoverOp(sid, failed, reason, mono, wall)).status == OpStatus.Ok
    ensures FailoverSucceeds(c, sid, failed)
    ensures Step(c, FailoverOp(sid, failed, reason, mono, wall)).state ==
      Rederived(TakeOverRecorded(Put(c, failed, Obsolete(c.replicas[failed], reason)), sid, failed,
                                 Chosen(c, sid, failed), reason, mono, wall), sid)
  {
  }

  lemma TakeOverInFields(c: State, sid: ReplicaSetId, failed: ReplicaId, x: ReplicaId, reason: Text, mono: U64,
                         wall: I64)
    requires sid in c.sets && failed in c.replicas && x in c.replicas && x != failed
    ensures TakesOver(c, TakeOverRecorded(Put(c, failed, Obsolete(c.replicas[failed], reason)), sid, failed, x, reason,
                                          mono, wall), sid, failed, x, reason, mono, wall)
  {
    MarkedIsObsolete(c.replicas[failed], reason);
  }

  lemma ChosenIsPreferred(c: State, sid: ReplicaSetId, failed: ReplicaId)
    requires FailoverSucceeds(c, sid, failed)
    ensures var (x, pol, w) := (Chosen(c, sid, failed), c.sets[sid].policies.failover, c.replicas[failed].workerId);
      && Qualifies(c, sid, failed, x)
      && forall y :: Qualifies(c, sid, failed, y) && y != x ==> Preferred(pol, w, x, c.replicas[x], y, c.replicas[y])
  {
    var (x, pol, w) := (Chosen(c, sid, failed), c.sets[sid].policies.failover, c.replicas[failed].workerId);
    var cs := Candidates(c, sid, failed);
    var first := Order.First(pol, w, cs);
    assert first == Order.CandidateOf(x, c.replicas[x]);
    forall y | Qualifies(c, sid, failed, y) && y != x ensures Preferred(pol, w, x, c.replicas[x], y, c.replicas[y]) {
      assert Order.CandidateOf(y, c.replicas[y]) in cs;
      PreferredIsBefore(pol, w, x, c.replicas[x], y, c.replicas[y]);
    }
  }

  // ----- Recovery and re-linking -----

  // Nothing but identities, references and counts is looked at.
  lemma RecoveryGates(c: State, rec: RecoveredState)
    ensures var o := Step(c, RecoverOp(rec));
      && (o.status == OpStatus.Ok || o == Outcome(c, Rejected))
      && (o.status == OpStatus.Ok <==>
            && (forall r <- rec.replicas.Values ::
                  r.id != NULL_ID && r.setId != NULL_ID && r.generation != NULL_ID && r.setId in rec.sets)
            && (forall s <- rec.sets.Values ::
                  s.id != NULL_ID && 0 < s.minHealthy <= s.maxReplicas && 0 < s.desiredCount <= s.maxReplicas))
  {
    assert Step(c, RecoverOp(rec)).status == OpStatus.Ok <==> ValidRecovered(rec);
    if ValidRecovered(rec) {
    } else if forall r <- rec.replicas.Values ::
                r.id != NULL_ID && r.setId != NULL_ID && r.generation != NULL_ID && r.setId in rec.sets {
      assert forall rid :: rid in rec.replicas ==> rec.replicas[rid] in rec.replicas.Values;
      assert forall sid :: sid in rec.sets ==> rec.sets[sid] in rec.sets.Values;
    }
  }

  // A recovered replica belongs to no worker incarnation, has proved nothing and holds nothing.
  // Everything else is as in the checkpoint; the epoch stays.
  lemma RecoveryEffect(c: State, rec: RecoveredState)
    requires Step(c, RecoverOp(rec)).status == OpStatus.Ok
    ensures var c' := Step(c, RecoverOp(rec)).state;
      && c' == c.(sets := rec.sets, replicas := c'.replicas, workers := c'.workers, promotions := rec.promotions,
                  drains := rec.drains, failovers := rec.failovers)
      && c'.replicas.Keys == rec.replicas.Keys
      && (forall rid <- rec.replicas ::
            var r := rec.replicas[rid];
            c'.replicas[rid] == r.(
              bootId := NULL_ID, servingEligible := false, promotion := NotPromoted, role := Nobody,
              readiness := ReadinessState.Unknown, warmth := Cold,
              health := HealthState.Starting, healthRecord := r.healthRecord.(state := HealthState.Starting),
              activeRequests := 0, reservedCapacity := 0))
  {
  }

  // Of the registrations of one worker the first is kept.
  lemma RecoveredWorkers(c: State, rec: RecoveredState, k: nat)
    requires Step(c, RecoverOp(rec)).status == OpStatus.Ok
    requires k < |rec.workers| && forall i :: 0 <= i < k ==> rec.workers[i].workerId != rec.workers[k].workerId
    ensures rec.workers[k].workerId in Step(c, RecoverOp(rec)).state.workers
    ensures Step(c, RecoverOp(rec)).state.workers[rec.workers[k].workerId] == rec.workers[k]
  {
    assert Step(c, RecoverOp(rec)).state.workers == Table(WorkerKey, rec.workers);
    FirstIsKept(rec.workers, k);
  }

  lemma {:induction false} FirstIsKept(ws: seq<WorkerRegistration>, k: nat)
    requires k < |ws| && forall i :: 0 <= i < k ==> ws[i].workerId != ws[k].workerId
    ensures ws[k].workerId in Table(WorkerKey, ws) && Table(WorkerKey, ws)[ws[k].workerId] == ws[k]
  {
    var n := |ws| - 1;
    var front := ws[..n];
    if k < n {
      FirstIsKept(front, k);
    } else {
      KeysAreListed(front, ws[k].workerId);
    }
  }

  lemma {:induction false} KeysAreListed(ws: seq<WorkerRegistration>, w: WorkerId)
    ensures w in Table(WorkerKey, ws) ==> exists i :: 0 <= i < |ws| && ws[i].workerId == w
  {
    if ws != [] && w in Table(WorkerKey, ws) {
      var n := |ws| - 1;
      KeysAreListed(ws[..n], w);
      if w in Table(WorkerKey, ws[..n]) {
        var i :| 0 <= i < n && ws[..n][i].workerId == w;
        assert ws[i].workerId == w;
      }
    }
  }

  // Every replica of a registered worker takes that worker's boot; the epoch is that of the least replica.
  lemma RelinkEffect(c: State)
    ensures var o := Step(c, RelinkOp);
      && o.status == OpStatus.Ok && o.state == c.(replicas := o.state.replicas, epoch := o.state.epoch)
      && o.state.replicas.Keys == c.replicas.Keys
      && (forall rid <- c.replicas ::
            var r := c.replicas[rid];
            o.state.replicas[rid] == if r.workerId in c.workers then r.(bootId := c.workers[r.workerId].bootId) else r)
      && (c.replicas == map[] ==> o.state.epoch == c.epoch)
      && (forall rid <- c.replicas ::
            (forall x <- c.replicas ::
               rid.hi < x.hi || (rid.hi == x.hi && rid.lo <= x.lo)) ==>
            o.state.epoch == c.replicas[rid].coordinatorEpoch)
  {
  }
}
