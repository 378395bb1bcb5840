// Facts about every run: what the gate amounts to, which replicas can never serve again, and
// which messages leave no trace.
module Runs {
  import opened Base
  import opened Identity
  import opened Enums
  import opened Records
  import opened Transition
  import opened Compatibility
  import opened Authority
  import opened ControllerModel
  import opened Moves
  import opened Invariants

  // ----- The sixteen-factor gate in reachable states -----

  // The eight conditions that the gate adds to what every reachable state guarantees.
  predicate Current(c: State, rid: ReplicaId)
    requires rid in c.replicas && c.replicas[rid].setId in c.sets
  {
    var r := c.replicas[rid];
    && r.servingEligible
    && r.coordinatorEpoch == c.epoch
    && r.bootId == CurrentBootFor(c, rid)
    && (c.sets[r.setId].lifecycle == Available || c.sets[r.setId].lifecycle == ReplicaSetLifecycle.Degraded)
    && (r.health == Healthy || r.health == HealthState.Degraded)
    && r.readiness.Ready?
    && r.warmth.Warm?
    && r.placement.Assigned?
  }

  // Whatever the state, serving needs these.
  lemma ServableNeeds(c: State, rid: ReplicaId)
    requires Servable(c, rid)
    ensures Current(c, rid) && c.replicas[rid].lifecycle.Serving? && !c.replicas[rid].promotion.NotPromoted?
  {
    var (r, s, cur) := (c.replicas[rid], c.sets[c.replicas[rid].setId], ContextFor(c, rid));
    assert Holds(ServingFlag, r, s, cur) && Holds(CoordinatorEpoch, r, s, cur) && Holds(WorkerBoot, r, s, cur)
      && Holds(SetLifecycle, r, s, cur) && Holds(FactorName.Health, r, s, cur)
      && Holds(FactorName.Readiness, r, s, cur) && Holds(FactorName.Warmth, r, s, cur)
      && Holds(FactorName.Placement, r, s, cur) && Holds(FactorName.Lifecycle, r, s, cur)
      && Holds(FactorName.Promotion, r, s, cur);
  }

  lemma CurrentSuffices(c: State, rid: ReplicaId)
    requires rid in c.replicas && ReplicaOk(c.replicas[rid], rid, c.sets) && Current(c, rid)
    ensures Servable(c, rid)
  {
    var (r, s, cur) := (c.replicas[rid], c.sets[c.replicas[rid].setId], ContextFor(c, rid));
    forall name: FactorName ensures Holds(name, r, s, cur) {}
  }

  // The other eight factors never decide: lifecycle, promotion, the replica's own generation, the
  // set, policy, artifact and health generations and the fingerprint follow from the invariant.
  lemma GateRefinement(c: State, rid: ReplicaId)
    requires Inv(c)
    ensures Servable(c, rid) <==> rid in c.replicas && Current(c, rid)
  {
    if rid in c.replicas {
      assert ReplicaOk(c.replicas[rid], rid, c.sets);
      if Current(c, rid) {
        CurrentSuffices(c, rid);
      }
      if Servable(c, rid) {
        ServableNeeds(c, rid);
      }
    }
  }

  // In every state of every lawful run from a fresh controller, the two gates agree.
  lemma GateOverRuns(source: nat -> Id, ops: seq<Op>, rid: ReplicaId)
    requires forall n: nat :: !source(n).IsNull()
    requires LawfulRun(Init(source), ops)
    ensures var c := Run(Init(source), ops);
      Inv(c) && (Servable(c, rid) <==> rid in c.replicas && Current(c, rid))
  {
    InitHolds(source);
    RunKeepsInv(Init(source), ops);
    GateRefinement(Run(Init(source), ops), rid);
  }

  // ----- Runs in which a replica keeps its incarnation -----

  ghost predicate SameIncarnation(c: State, ops: seq<Op>, rid: ReplicaId) {
    forall i :: 0 <= i < |ops| ==> !Rebirth(Run(c, ops[..i]), ops[i], rid)
  }

  lemma SameIncarnationPrefix(c: State, ops: seq<Op>, rid: ReplicaId, n: nat)
    requires SameIncarnation(c, ops, rid) && n <= |ops|
    ensures SameIncarnation(c, ops[..n], rid)
  {
    forall i | 0 <= i < n ensures !Rebirth(Run(c, ops[..n][..i]), ops[..n][i], rid) {
      assert ops[..n][..i] == ops[..i];
    }
  }

  // Every change of lifecycle is an edge of the table, and the phase never goes back.
  lemma StepFollowsTable(c: State, op: Op, rid: ReplicaId)
    requires Inv(c) && rid in c.replicas && !Rebirth(c, op, rid)
    ensures rid in Step(c, op).state.replicas
    ensures var (l, l') := (c.replicas[rid].lifecycle, Step(c, op).state.replicas[rid].lifecycle);
      (l' == l || CanTransition(l, l')) && Phase(l') >= Phase(l)
  {
    StepMoves(c, op, rid);
    assert ReplicaOk(c.replicas[rid], rid, c.sets);
    MoveFollowsTable(MoveOf(c, op, rid), c.replicas[rid], c);
  }

  lemma {:induction false} PhasesNeverGoBack(c: State, ops: seq<Op>, rid: ReplicaId)
    requires Inv(c) && LawfulRun(c, ops) && rid in c.replicas && SameIncarnation(c, ops, rid)
    ensures rid in Run(c, ops).replicas
    ensures Phase(Run(c, ops).replicas[rid].lifecycle) >= Phase(c.replicas[rid].lifecycle)
  {
    if ops != [] {
      var n := |ops| - 1;
      LawfulPrefix(c, ops, n);
      SameIncarnationPrefix(c, ops, rid, n);
      PhasesNeverGoBack(c, ops[..n], rid);
      RunKeepsInv(c, ops[..n]);
      StepFollowsTable(Run(c, ops[..n]), ops[n], rid);
    }
  }

  // A replica that has begun to drain, quiesced, failed or retired never serves again, although
  // the transition table has edges from DRAINING and QUIESCED back to READY.
  lemma DrainedNeverServes(c: State, ops: seq<Op>, rid: ReplicaId)
    requires Inv(c) && LawfulRun(c, ops) && rid in c.replicas && SameIncarnation(c, ops, rid)
    requires Phase(c.replicas[rid].lifecycle) > Phase(Serving)
    ensures !Servable(Run(c, ops), rid)
  {
    PhasesNeverGoBack(c, ops, rid);
    if Servable(Run(c, ops), rid) {
      ServableNeeds(Run(c, ops), rid);
    }
  }

  // ----- No resurrection -----

  // Past warming and not warm: no operation can warm it any more.
  predicate BeyondWarming(r: ReplicaState) {
    Phase(r.lifecycle) >= Phase(Serving) && !r.warmth.Warm?
  }

  lemma MoveKeepsBeyondWarming(m: Move, r: ReplicaState, c: State)
    requires Enabled(m, r, c) && BeyondWarming(r)
    ensures BeyondWarming(Apply(m, r))
  {
  }

  lemma {:induction false} BeyondWarmingForEver(c: State, ops: seq<Op>, rid: ReplicaId)
    requires rid in c.replicas && BeyondWarming(c.replicas[rid]) && SameIncarnation(c, ops, rid)
    ensures rid in Run(c, ops).replicas && BeyondWarming(Run(c, ops).replicas[rid])
  {
    if ops != [] {
      var n := |ops| - 1;
      SameIncarnationPrefix(c, ops, rid, n);
      BeyondWarmingForEver(c, ops[..n], rid);
      var d := Run(c, ops[..n]);
      StepMoves(d, ops[n], rid);
      MoveKeepsBeyondWarming(MoveOf(d, ops[n], rid), d.replicas[rid], d);
    }
  }

  // Whatever snapshot is installed into whatever controller, and whatever follows (new epochs, new
  // boots, promotions, failovers, re-linking), a replica persisted in SERVING or later does not
  // serve before it is provisioned again or another snapshot replaces it.
  lemma NoResurrection(c: State, rec: RecoveredState, ops: seq<Op>, rid: ReplicaId)
    requires rid in rec.replicas && Phase(rec.replicas[rid].lifecycle) >= Phase(Serving)
    requires SameIncarnation(Installed(c, rec), ops, rid)
    ensures !Servable(Run(Installed(c, rec), ops), rid)
  {
    var c1 := Installed(c, rec);
    assert BeyondWarming(c1.replicas[rid]);
    BeyondWarmingForEver(c1, ops, rid);
    if Servable(Run(c1, ops), rid) {
      ServableNeeds(Run(c1, ops), rid);
    }
  }

  // ----- Fencing -----

  // The operation makes `e` the coordinator's epoch: by setting it, by creating a set under it, or by
  // re-linking when the first replica carries it.
  ghost predicate SetsEpoch(c: State, op: Op, e: Epoch) {
    || (op.SetEpochOp? && op.newEpoch == e)
    || (op.CreateSetOp? && Accepted(c, op) && op.newEpoch == e)
    || (op.RelinkOp? && c.replicas != map[] && c.replicas[Least(c.replicas.Keys)].coordinatorEpoch == e)
  }

  lemma StepEpoch(c: State, op: Op, e: Epoch)
    requires c.epoch != e
    ensures Step(c, op).state.epoch == e <==> SetsEpoch(c, op, e)
  {
  }

  ghost predicate EpochStaysAway(c: State, ops: seq<Op>, e: Epoch) {
    forall i :: 0 <= i < |ops| ==> !SetsEpoch(Run(c, ops[..i]), ops[i], e)
  }

  lemma EpochStaysAwayPrefix(c: State, ops: seq<Op>, e: Epoch, n: nat)
    requires EpochStaysAway(c, ops, e) && n <= |ops|
    ensures EpochStaysAway(c, ops[..n], e)
  {
    forall i | 0 <= i < n ensures !SetsEpoch(Run(c, ops[..n][..i]), ops[..n][i], e) {
      assert ops[..n][..i] == ops[..i];
    }
  }

  // Once the epoch has moved on, a replica of an earlier epoch is fenced off until that very
  // epoch is reinstated. Re-linking under another epoch does not help it.
  lemma {:induction false} EpochFence(c: State, ops: seq<Op>, rid: ReplicaId)
    requires rid in c.replicas && c.replicas[rid].coordinatorEpoch != c.epoch
    requires SameIncarnation(c, ops, rid)
    requires EpochStaysAway(c, ops, c.replicas[rid].coordinatorEpoch)
    ensures rid in Run(c, ops).replicas && !Servable(Run(c, ops), rid)
    ensures Run(c, ops).replicas[rid].coordinatorEpoch == c.replicas[rid].coordinatorEpoch != Run(c, ops).epoch
  {
    if ops != [] {
      var n := |ops| - 1;
      SameIncarnationPrefix(c, ops, rid, n);
      EpochStaysAwayPrefix(c, ops, c.replicas[rid].coordinatorEpoch, n);
      EpochFence(c, ops[..n], rid);
      var d := Run(c, ops[..n]);
      StepMoves(d, ops[n], rid);
      MoveKeepsIdentity(MoveOf(d, ops[n], rid), d.replicas[rid]);
      StepEpoch(d, ops[n], c.replicas[rid].coordinatorEpoch);
    }
    if Servable(Run(c, ops), rid) {
      ServableNeeds(Run(c, ops), rid);
    }
  }

  // The operation gives the worker the boot identity `b`, or re-links its replicas to it.
  predicate Reboots(c: State, op: Op, worker: WorkerId, b: WorkerBootId) {
    || (op.RegisterWorkerOp? && op.wr.workerId == worker && op.wr.bootId == b)
    || (op.RelinkOp? && worker in c.workers)
  }

  predicate HasBoot(c: State, worker: WorkerId, b: WorkerBootId) {
    worker in c.workers && c.workers[worker].bootId == b
  }

  lemma StepBoot(c: State, op: Op, worker: WorkerId, b: WorkerBootId)
    requires !Recovers(c, op)
    ensures HasBoot(Step(c, op).state, worker, b) ==> HasBoot(c, worker, b) || Reboots(c, op, worker, b)
  {
  }

  lemma MoveKeepsBoot(c: State, op: Op, rid: ReplicaId)
    requires rid in c.replicas && !(op.RelinkOp? && c.replicas[rid].workerId in c.workers)
    ensures !MoveOf(c, op, rid).Relink?
  {
  }

  ghost predicate BootStaysAway(c: State, ops: seq<Op>, worker: WorkerId, b: WorkerBootId) {
    forall i :: 0 <= i < |ops| ==> !Reboots(Run(c, ops[..i]), ops[i], worker, b)
  }

  lemma BootStaysAwayPrefix(c: State, ops: seq<Op>, worker: WorkerId, b: WorkerBootId, n: nat)
    requires BootStaysAway(c, ops, worker, b) && n <= |ops|
    ensures BootStaysAway(c, ops[..n], worker, b)
  {
    forall i | 0 <= i < n ensures !Reboots(Run(c, ops[..n][..i]), ops[..n][i], worker, b) {
      assert ops[..n][..i] == ops[..i];
    }
  }

  // Once its worker runs under another boot identity (or is gone), a replica of a non-null boot is
  // fenced off until the worker registers with that very boot again or a re-linking finds the
  // worker present. Re-linking while the worker is gone leaves it fenced off.
  lemma {:induction false} BootFence(c: State, ops: seq<Op>, rid: ReplicaId)
    requires rid in c.replicas && !c.replicas[rid].bootId.IsNull()
    requires !HasBoot(c, c.replicas[rid].workerId, c.replicas[rid].bootId)
    requires SameIncarnation(c, ops, rid)
    requires BootStaysAway(c, ops, c.replicas[rid].workerId, c.replicas[rid].bootId)
    ensures rid in Run(c, ops).replicas && !Servable(Run(c, ops), rid)
    ensures Run(c, ops).replicas[rid].workerId == c.replicas[rid].workerId
    ensures Run(c, ops).replicas[rid].bootId == c.replicas[rid].bootId
    ensures !HasBoot(Run(c, ops), c.replicas[rid].workerId, c.replicas[rid].bootId)
  {
    if ops != [] {
      var n := |ops| - 1;
      var (worker, b) := (c.replicas[rid].workerId, c.replicas[rid].bootId);
      SameIncarnationPrefix(c, ops, rid, n);
      BootStaysAwayPrefix(c, ops, worker, b, n);
      BootFence(c, ops[..n], rid);
      var d := Run(c, ops[..n]);
      StepMoves(d, ops[n], rid);
      MoveKeepsIdentity(MoveOf(d, ops[n], rid), d.replicas[rid]);
      MoveKeepsBoot(d, ops[n], rid);
      StepBoot(d, ops[n], worker, b);
    }
    if Servable(Run(c, ops), rid) {
      ServableNeeds(Run(c, ops), rid);
    }
  }

  // ----- Ended sets -----

  predicate Ended(l: ReplicaSetLifecycle) {
    l.Failed? || l.Retired?
  }

  ghost predicate NoRecovery(c: State, ops: seq<Op>) {
    forall i :: 0 <= i < |ops| ==> !Recovers(Run(c, ops[..i]), ops[i])
  }

  lemma NoRecoveryPrefix(c: State, ops: seq<Op>, n: nat)
    requires NoRecovery(c, ops) && n <= |ops|
    ensures NoRecovery(c, ops[..n])
  {
    forall i | 0 <= i < n ensures !Recovers(Run(c, ops[..n][..i]), ops[..n][i]) {
      assert ops[..n][..i] == ops[..i];
    }
  }

  lemma {:induction false} EndedSetStaysEnded(c: State, ops: seq<Op>, sid: ReplicaSetId)
    requires sid in c.sets && Ended(c.sets[sid].lifecycle) && NoRecovery(c, ops)
    ensures sid in Run(c, ops).sets && Ended(Run(c, ops).sets[sid].lifecycle)
  {
    if ops != [] {
      var n := |ops| - 1;
      NoRecoveryPrefix(c, ops, n);
      EndedSetStaysEnded(c, ops[..n], sid);
      StepSets(Run(c, ops[..n]), ops[n], sid);
    }
  }

  // A FAILED or RETIRED set stays so, and none of its replicas, old or new, ever serves again.
  lemma EndedSetNeverServes(c: State, ops: seq<Op>, sid: ReplicaSetId, rid: ReplicaId)
    requires sid in c.sets && Ended(c.sets[sid].lifecycle) && NoRecovery(c, ops)
    ensures rid in Run(c, ops).replicas && Run(c, ops).replicas[rid].setId == sid ==> !Servable(Run(c, ops), rid)
  {
    EndedSetStaysEnded(c, ops, sid);
    if Servable(Run(c, ops), rid) {
      ServableNeeds(Run(c, ops), rid);
    }
  }

  // ----- Messages without a trace -----

  // Failing a replica that its own worker no longer may fail, and failing over without a
  // replacement: the two rejections that have already stripped a replica of its authority.
  ghost predicate StripsOnRejection(c: State, op: Op) {
    || (op.FailOp? && op.replicaId in c.replicas && BootMatches(c.replicas[op.replicaId], op.worker, op.boot))
    || (op.FailoverOp? && FailoverApplies(c, op.setId, op.failed))
  }

  ghost predicate Discarded(c: State, op: Op) {
    !Accepted(c, op) && !StripsOnRejection(c, op)
  }

  // A discarded operation leaves maps, logs, epoch and the supply of identities as they were.
  lemma DiscardedLeavesNoTrace(c: State, op: Op)
    requires Discarded(c, op)
    ensures Step(c, op).state == c
  {
  }

  // Messages from a worker incarnation other than the replica's own.
  predicate FromStaleBoot(c: State, op: Op) {
    && (op.WarmOp? || op.HealthOp? || op.ReadinessOp? || op.PromoteOp? || op.DrainOp? || op.FailOp?)
    && op.replicaId in c.replicas
    && (c.replicas[op.replicaId].workerId != op.worker || c.replicas[op.replicaId].bootId != op.boot)
  }

  lemma StaleBootIsDiscarded(c: State, op: Op)
    requires FromStaleBoot(c, op)
    ensures Discarded(c, op)
  {
  }

  // The run without the operations at the chosen positions.
  function Without(ops: seq<Op>, erased: set<nat>): seq<Op> {
    if ops == [] then [] else
      var n := |ops| - 1;
      if n in erased then Without(ops[..n], erased) else Without(ops[..n], erased) + [ops[n]]
  }

  lemma ErasablePrefix(c: State, ops: seq<Op>, erased: set<nat>, n: nat)
    requires n <= |ops| && forall i :: i in erased && i < |ops| ==> Discarded(Run(c, ops[..i]), ops[i])
    ensures forall i :: i in erased && i < n ==> Discarded(Run(c, ops[..n][..i]), ops[..n][i])
  {
    forall i | i in erased && i < n ensures Discarded(Run(c, ops[..n][..i]), ops[..n][i]) {
      assert ops[..n][..i] == ops[..i] && ops[..n][i] == ops[i];
    }
  }

  // Erasing any choice of discarded operations from a run changes nothing in the state it ends in.
  lemma {:induction false} ErasureKeepsTheRun(c: State, ops: seq<Op>, erased: set<nat>)
    requires forall i :: i in erased && i < |ops| ==> Discarded(Run(c, ops[..i]), ops[i])
    ensures Run(c, Without(ops, erased)) == Run(c, ops)
  {
    if ops != [] {
      var n := |ops| - 1;
      var (d, front) := (Run(c, ops[..n]), Without(ops[..n], erased));
      ErasablePrefix(c, ops, erased, n);
      ErasureKeepsTheRun(c, ops[..n], erased);
      if n in erased {
        DiscardedLeavesNoTrace(d, ops[n]);
      } else {
        assert (front + [ops[n]])[..|front|] == front;
      }
    }
  }

  // In particular any choice of messages from stale worker incarnations, whatever else is refused.
  lemma StaleMessagesAreErasable(c: State, ops: seq<Op>, erased: set<nat>)
    requires forall i :: i in erased && i < |ops| ==> FromStaleBoot(Run(c, ops[..i]), ops[i])
    ensures Run(c, Without(ops, erased)) == Run(c, ops)
  {
    forall i | i in erased && i < |ops| ensures Discarded(Run(c, ops[..i]), ops[i]) {
      StaleBootIsDiscarded(Run(c, ops[..i]), ops[i]);
    }
    ErasureKeepsTheRun(c, ops, erased);
  }

  // The other half: these two rejections do change the state. Failing over without a candidate
  // always does; a refused failure does unless the replica has been failed in the same words before.
  lemma StrippingRejections(c: State, op: Op)
    requires !Accepted(c, op) && StripsOnRejection(c, op)
    ensures op.FailoverOp? ==> |Step(c, op).state.failovers| == |c.failovers| + 1
    ensures op.FailOp? ==>
      (Step(c, op).state == c <==>
       var r := c.replicas[op.replicaId];
       && !r.servingEligible && r.health.Failed? && r.healthRecord.state.Failed?
       && r.healthRecord.updatedAtMono == op.mono && r.healthRecord.reason == op.reason
       && r.promotion.NotPromoted? && r.role.Nobody? && r.reservedCapacity == 0)
  {
    if op.FailOp? {
      var r := c.replicas[op.replicaId];
      var c' := Step(c, op).state;
      assert c'.replicas[op.replicaId] == FailedReplica(r, op.reason, op.mono);
      if FailedReplica(r, op.reason, op.mono) == r {
        assert c'.replicas == c.replicas;
      }
    }
  }
}
