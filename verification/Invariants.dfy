// What holds in every state the controller can reach.
module Invariants {
  import opened Base
  import opened Identity
  import opened Enums
  import opened Records
  import opened Transition
  import opened Compatibility
  import opened Authority
  import opened ControllerModel
  import opened Moves

  // Eligibility, PRIMARY promotion and PRIMARY role are one thing; it implies SERVING, and
  // compatibility when the set's policy demands it.
  predicate Coherent(r: ReplicaState, s: ReplicaSetState) {
    && (r.servingEligible <==> r.promotion.Primary?)
    && (r.servingEligible <==> r.role.Primary?)
    && (r.servingEligible ==> r.lifecycle.Serving?)
    && (r.servingEligible && s.policies.promotion.requireCompatible ==> Compatible(s.compatibility, r.compatibility))
  }

  // The replica carries the generations and the fingerprint of its set.
  predicate Refers(r: ReplicaState, s: ReplicaSetState) {
    && r.setGeneration == s.generation
    && r.policyGeneration == s.policyGeneration
    && r.artifactGeneration == s.artifactGeneration
    && r.policyFingerprint == s.compatibility.policyFingerprint
  }

  predicate ReplicaOk(r: ReplicaState, rid: ReplicaId, sets: map<ReplicaSetId, ReplicaSetState>) {
    && r.id == rid
    && !r.generation.IsNull()
    && r.setId in sets
    && Refers(r, sets[r.setId])
    && Coherent(r, sets[r.setId])
  }

  ghost predicate ReplicasOk(c: State) {
    forall rid :: rid in c.replicas ==> ReplicaOk(c.replicas[rid], rid, c.sets)
  }

  ghost predicate TablesOk(c: State) {
    && (forall sid :: sid in c.sets ==> c.sets[sid].id == sid && CountsValid(c.sets[sid]))
    && (forall w :: w in c.workers ==> c.workers[w].workerId == w)
    && (forall n: nat :: !c.source(n).IsNull())
  }

  // No set holds more replicas than its maximum.
  ghost predicate WithinCapacity(c: State) {
    forall sid :: sid in c.sets ==> |Members(c.replicas, sid)| <= c.sets[sid].maxReplicas
  }

  // The last promotion record of a replica.
  function LastPromotion(log: seq<PromotionRecord>, rid: ReplicaId): Option<PromotionRecord> {
    if log == [] then None
    else if log[|log| - 1].replicaId == rid then Some(log[|log| - 1])
    else LastPromotion(log[..|log| - 1], rid)
  }

  // An eligible replica was last promoted to PRIMARY, in its present incarnation and set generation.
  predicate PromotionAudited(log: seq<PromotionRecord>, rid: ReplicaId, r: ReplicaState) {
    r.servingEligible ==>
      var last := LastPromotion(log, rid);
      last.Some? && last.value.to.Primary? && last.value.replicaGeneration == r.generation
      && last.value.setGeneration == r.setGeneration
  }

  // A draining replica has a drain record that is still open.
  ghost predicate DrainAudited(log: seq<DrainRecord>, rid: ReplicaId, r: ReplicaState) {
    r.lifecycle.Draining? ==> exists i :: 0 <= i < |log| && OpenDrain(log[i], rid)
  }

  ghost predicate Audited(c: State) {
    forall rid :: rid in c.replicas ==>
      PromotionAudited(c.promotions, rid, c.replicas[rid]) && DrainAudited(c.drains, rid, c.replicas[rid])
  }

  ghost predicate Inv(c: State) {
    TablesOk(c) && ReplicasOk(c) && WithinCapacity(c) && Audited(c)
  }

  lemma InitHolds(source: nat -> Id)
    requires forall n: nat :: !source(n).IsNull()
    ensures Inv(Init(source))
  {
  }

  // ----- Edges keep a replica coherent and never turn it back -----

  lemma MoveKeepsCoherence(m: Move, r: ReplicaState, c: State)
    requires r.setId in c.sets && Enabled(m, r, c) && Coherent(r, c.sets[r.setId])
    ensures Coherent(Apply(m, r), c.sets[r.setId])
  {
  }

  lemma MoveKeepsIdentity(m: Move, r: ReplicaState)
    ensures var r' := Apply(m, r);
      && r'.id == r.id && r'.setId == r.setId && r'.generation == r.generation && r'.workerId == r.workerId
      && r'.coordinatorEpoch == r.coordinatorEpoch && r'.setGeneration == r.setGeneration
      && r'.policyGeneration == r.policyGeneration && r'.artifactGeneration == r.artifactGeneration
      && r'.policyFingerprint == r.policyFingerprint && r'.compatibility == r.compatibility
      && (m.Relink? || r'.bootId == r.bootId)
  {
  }

  // Every lifecycle change is an edge of the transition table and never goes back a phase.
  lemma MoveFollowsTable(m: Move, r: ReplicaState, c: State)
    requires Enabled(m, r, c) && (r.servingEligible ==> r.lifecycle.Serving?)
    ensures var (l, l') := (r.lifecycle, Apply(m, r).lifecycle);
      (l' == l || CanTransition(l, l')) && Phase(l') >= Phase(l)
  {
  }

  // ----- Steps -----

  // The state a snapshot describes, before its authority is cleared.
  function Unpacked(c: State, rec: RecoveredState): State {
    c.(sets := rec.sets, replicas := rec.replicas, workers := Table(WorkerKey, rec.workers),
       promotions := rec.promotions, drains := rec.drains, failovers := rec.failovers)
  }

  // Recovery is lawful from the snapshot of a state in which the invariant held. Every other
  // operation is lawful whatever its arguments.
  ghost predicate Lawful(c: State, op: Op) {
    op.RecoverOp? ==> Inv(Unpacked(c, op.rec))
  }

  ghost predicate Recovers(c: State, op: Op) {
    op.RecoverOp? && Accepted(c, op)
  }

  // Clearing takes authority away and touches nothing the invariant depends on.
  lemma ClearedIsOk(r: ReplicaState, rid: ReplicaId, sets: map<ReplicaSetId, ReplicaSetState>)
    requires ReplicaOk(r, rid, sets)
    ensures ReplicaOk(Cleared(r), rid, sets)
    ensures !Cleared(r).servingEligible && Cleared(r).lifecycle == r.lifecycle && Cleared(r).setId == r.setId
  {
  }

  lemma RecoveryKeepsCapacity(c: State, rec: RecoveredState)
    requires WithinCapacity(Unpacked(c, rec))
    ensures WithinCapacity(Installed(c, rec))
  {
    forall sid | sid in rec.sets ensures |Members(Installed(c, rec).replicas, sid)| <= rec.sets[sid].maxReplicas {
      assert Members(Installed(c, rec).replicas, sid) == Members(rec.replicas, sid);
    }
  }

  lemma RecoveryKeepsReplicas(c: State, rec: RecoveredState)
    requires ReplicasOk(Unpacked(c, rec)) && Audited(Unpacked(c, rec))
    ensures ReplicasOk(Installed(c, rec)) && Audited(Installed(c, rec))
  {
    forall rid | rid in rec.replicas
      ensures ReplicaOk(Cleared(rec.replicas[rid]), rid, rec.sets)
      ensures PromotionAudited(rec.promotions, rid, Cleared(rec.replicas[rid]))
      ensures DrainAudited(rec.drains, rid, Cleared(rec.replicas[rid]))
    {
      var r := Unpacked(c, rec).replicas[rid];
      ClearedIsOk(r, rid, rec.sets);
      assert DrainAudited(rec.drains, rid, r);
    }
  }

  lemma RecoveryKeepsInv(c: State, rec: RecoveredState)
    requires Inv(Unpacked(c, rec))
    ensures Inv(Installed(c, rec))
  {
    RecoveryKeepsReplicas(c, rec);
    RecoveryKeepsCapacity(c, rec);
  }

  lemma StepTables(c: State, op: Op)
    requires TablesOk(c) && !Recovers(c, op)
    ensures TablesOk(Step(c, op).state)
  {
    var c' := Step(c, op).state;
    StepSource(c, op);
    forall sid | sid in c'.sets ensures c'.sets[sid].id == sid && CountsValid(c'.sets[sid]) {
      if sid in c.sets { StepSets(c, op, sid); } else { StepNewSets(c, op, sid); }
    }
    StepWorkers(c, op);
  }

  lemma StepWorkers(c: State, op: Op)
    requires !Recovers(c, op)
    requires forall w :: w in c.workers ==> c.workers[w].workerId == w
    ensures forall w :: w in Step(c, op).state.workers ==> Step(c, op).state.workers[w].workerId == w
  {
  }

  lemma ProvisionedIsOk(c: State, op: Op)
    requires TablesOk(c) && op.ProvisionOp? && Accepted(c, op)
    ensures op.replicaId in Step(c, op).state.replicas
    ensures ReplicaOk(Step(c, op).state.replicas[op.replicaId], op.replicaId, Step(c, op).state.sets)
    ensures Step(c, op).state.replicas[op.replicaId].lifecycle.Declared?
  {
    assert !c.source(c.drawn).IsNull();
  }

  lemma StepReplica(c: State, op: Op, rid: ReplicaId)
    requires TablesOk(c) && ReplicasOk(c) && !Recovers(c, op)
    requires rid in Step(c, op).state.replicas
    ensures ReplicaOk(Step(c, op).state.replicas[rid], rid, Step(c, op).state.sets)
  {
    StepKeys(c, op);
    if Rebirth(c, op, rid) {
      ProvisionedIsOk(c, op);
    } else {
      var r := c.replicas[rid];
      StepMoves(c, op, rid);
      MoveKeepsCoherence(MoveOf(c, op, rid), r, c);
      MoveKeepsIdentity(MoveOf(c, op, rid), r);
      StepSets(c, op, r.setId);
    }
  }

  // ----- Capacity -----

  lemma StepCapacity(c: State, op: Op, sid: ReplicaSetId)
    requires TablesOk(c) && ReplicasOk(c) && WithinCapacity(c) && !Recovers(c, op)
    requires sid in Step(c, op).state.sets
    ensures |Members(Step(c, op).state.replicas, sid)| <= Step(c, op).state.sets[sid].maxReplicas
  {
    var c' := Step(c, op).state;
    StepMembers(c, op, sid);
    if sid in c.sets {
      StepSets(c, op, sid);
      if op.ProvisionOp? && Accepted(c, op) && op.setId == sid {
        ProvisionHasRoom(c, op);
      }
    } else {
      StepNewSets(c, op, sid);
      assert Members(c.replicas, sid) == {};
    }
  }

  lemma ProvisionHasRoom(c: State, op: Op)
    requires TablesOk(c) && WithinCapacity(c) && op.ProvisionOp? && Accepted(c, op)
    ensures op.setId in c.sets && |Members(c.replicas, op.setId)| < c.sets[op.setId].maxReplicas
  {
  }

  // Only a provision brings a member into a set, and only the provisioned replica.
  lemma StepMembers(c: State, op: Op, sid: ReplicaSetId)
    requires !Recovers(c, op)
    ensures var (before, after) := (Members(c.replicas, sid), Members(Step(c, op).state.replicas, sid));
      if op.ProvisionOp? && Accepted(c, op) && op.setId == sid
      then after <= before + {op.replicaId} && |after| <= |before| + 1
      else after <= before && |after| <= |before|
  {
    var c' := Step(c, op).state;
    var (before, after) := (Members(c.replicas, sid), Members(c'.replicas, sid));
    StepKeys(c, op);
    forall rid | rid in after && !Rebirth(c, op, rid) ensures rid in before {
      StepMoves(c, op, rid);
      MoveKeepsIdentity(MoveOf(c, op, rid), c.replicas[rid]);
    }
    if op.ProvisionOp? && Accepted(c, op) && op.setId == sid {
      SubsetCardinality(after, before + {op.replicaId});
    } else {
      if op.ProvisionOp? && Accepted(c, op) { ProvisionedSet(c, op); }
      SubsetCardinality(after, before);
    }
  }

  lemma ProvisionedSet(c: State, op: Op)
    requires op.ProvisionOp? && Accepted(c, op)
    ensures op.replicaId in Step(c, op).state.replicas
    ensures Step(c, op).state.replicas[op.replicaId].setId == op.setId
  {
  }

  // ----- Audit logs -----

  // The replica that a step promotes, if any.
  ghost function Subject(c: State, op: Op): Option<ReplicaId> {
    if op.PromoteOp? && Accepted(c, op) then Some(op.replicaId)
    else if op.FailoverOp? && FailoverSucceeds(c, op.setId, op.failed) then Some(Chosen(c, op.setId, op.failed))
    else None
  }

  ghost predicate SubjectIsMoved(c: State, op: Op, rid: ReplicaId)
    requires rid in c.replicas
  {
    Subject(c, op) == Some(rid) <==> MoveOf(c, op, rid).Promote? || MoveOf(c, op, rid).TakeOver?
  }

  lemma PromoteSubject(c: State, op: Op, rid: ReplicaId)
    requires rid in c.replicas && op.PromoteOp?
    ensures SubjectIsMoved(c, op, rid)
  {
  }

  lemma FailoverSubject(c: State, op: Op, rid: ReplicaId)
    requires rid in c.replicas && op.FailoverOp?
    ensures SubjectIsMoved(c, op, rid)
  {
  }

  lemma NoSubject(c: State, op: Op, rid: ReplicaId)
    requires rid in c.replicas && !op.PromoteOp? && !op.FailoverOp?
    ensures SubjectIsMoved(c, op, rid)
  {
  }

  lemma SubjectMoves(c: State, op: Op, rid: ReplicaId)
    requires rid in c.replicas
    ensures SubjectIsMoved(c, op, rid)
  {
    if op.PromoteOp? {
      PromoteSubject(c, op, rid);
    } else if op.FailoverOp? {
      FailoverSubject(c, op, rid);
    } else {
      NoSubject(c, op, rid);
    }
  }

  predicate Describes(rec: PromotionRecord, rid: ReplicaId, r: ReplicaState, m: Move) {
    && rec.replicaId == rid && (m.Promote? ==> rec.to == m.target) && (!m.Promote? ==> rec.to.Primary?)
    && rec.replicaGeneration == r.generation && rec.setGeneration == r.setGeneration
  }

  // One record more, about the promoted replica as it is.
  predicate LogsOne(log: seq<PromotionRecord>, log': seq<PromotionRecord>, rid: ReplicaId, r: ReplicaState, m: Move) {
    |log'| == |log| + 1 && log'[..|log|] == log && Describes(log'[|log|], rid, r, m)
  }

  lemma PromoteLogs(c: State, op: Op)
    requires ReplicasOk(c) && op.PromoteOp? && Accepted(c, op)
    ensures op.replicaId in c.replicas
    ensures LogsOne(c.promotions, Step(c, op).state.promotions, op.replicaId, c.replicas[op.replicaId],
                    MoveOf(c, op, op.replicaId))
  {
    assert ReplicaOk(c.replicas[op.replicaId], op.replicaId, c.sets);
  }

  lemma FailoverLogs(c: State, op: Op)
    requires op.FailoverOp? && FailoverSucceeds(c, op.setId, op.failed)
    ensures var chosen := Chosen(c, op.setId, op.failed);
      LogsOne(c.promotions, Step(c, op).state.promotions, chosen, c.replicas[chosen], MoveOf(c, op, chosen))
  {
  }

  lemma OthersLogNothing(c: State, op: Op)
    requires !Recovers(c, op) && Subject(c, op).None?
    ensures Step(c, op).state.promotions == c.promotions
  {
  }

  // A step that promotes logs exactly one record; no other step writes to the log.
  lemma StepPromotions(c: State, op: Op)
    requires ReplicasOk(c) && !Recovers(c, op)
    ensures Subject(c, op).None? ==> Step(c, op).state.promotions == c.promotions
    ensures Subject(c, op).Some? ==>
      (var rid := Subject(c, op).value;
       && rid in c.replicas
       && LogsOne(c.promotions, Step(c, op).state.promotions, rid, c.replicas[rid], MoveOf(c, op, rid)))
  {
    if Subject(c, op).None? {
      OthersLogNothing(c, op);
    } else if op.PromoteOp? {
      PromoteLogs(c, op);
    } else {
      FailoverLogs(c, op);
    }
  }

  lemma LastPromotionAppend(log: seq<PromotionRecord>, log': seq<PromotionRecord>, rid: ReplicaId)
    requires |log'| == |log| + 1 && log'[..|log|] == log
    ensures LastPromotion(log', rid) ==
      if log'[|log|].replicaId == rid then Some(log'[|log|]) else LastPromotion(log, rid)
  {
  }

  // Eligibility is only gained by a promotion to PRIMARY or a take-over.
  lemma EligibilityIsGranted(m: Move, r: ReplicaState)
    ensures Apply(m, r).servingEligible ==> r.servingEligible || m.TakeOver? || m.Promote?
    ensures m.Promote? && !m.target.Primary? ==> !Apply(m, r).servingEligible
  {
  }

  // What a move and the log it leaves behind do to the audit of one replica.
  lemma PromotionAuditKept(log: seq<PromotionRecord>, log': seq<PromotionRecord>, rid: ReplicaId, r: ReplicaState,
                           m: Move, subject: Option<ReplicaId>)
    requires PromotionAudited(log, rid, r)
    requires subject == Some(rid) <==> m.Promote? || m.TakeOver?
    requires subject.None? ==> log' == log
    requires subject.Some? ==> |log'| == |log| + 1 && log'[..|log|] == log && log'[|log|].replicaId == subject.value
    requires subject == Some(rid) ==> LogsOne(log, log', rid, r, m)
    ensures PromotionAudited(log', rid, Apply(m, r))
  {
    MoveKeepsIdentity(m, r);
    EligibilityIsGranted(m, r);
    if subject.Some? {
      LastPromotionAppend(log, log', rid);
    }
  }

  lemma NewbornPromotionAudit(c: State, op: Op, rid: ReplicaId)
    requires TablesOk(c) && Rebirth(c, op, rid) && rid in Step(c, op).state.replicas && !Recovers(c, op)
    ensures PromotionAudited(Step(c, op).state.promotions, rid, Step(c, op).state.replicas[rid])
  {
    ProvisionedIsOk(c, op);
  }

  lemma SurvivorPromotionAudit(c: State, op: Op, rid: ReplicaId)
    requires Inv(c) && !Recovers(c, op) && rid in c.replicas && !Rebirth(c, op, rid)
    ensures rid in Step(c, op).state.replicas
    ensures PromotionAudited(Step(c, op).state.promotions, rid, Step(c, op).state.replicas[rid])
  {
    assert PromotionAudited(c.promotions, rid, c.replicas[rid]);
    StepMoves(c, op, rid);
    StepPromotions(c, op);
    SubjectMoves(c, op, rid);
    PromotionAuditKept(c.promotions, Step(c, op).state.promotions, rid, c.replicas[rid], MoveOf(c, op, rid),
                       Subject(c, op));
  }

  lemma StepPromotionAudit(c: State, op: Op, rid: ReplicaId)
    requires Inv(c) && !Recovers(c, op) && rid in Step(c, op).state.replicas
    ensures PromotionAudited(Step(c, op).state.promotions, rid, Step(c, op).state.replicas[rid])
  {
    StepKeys(c, op);
    if Rebirth(c, op, rid) {
      NewbornPromotionAudit(c, op, rid);
    } else {
      SurvivorPromotionAudit(c, op, rid);
    }
  }

  // Every open drain record stays open and in place, except for the replica whose drain completes.
  ghost predicate KeepsOpenDrains(log: seq<DrainRecord>, log': seq<DrainRecord>, rid: ReplicaId) {
    |log'| >= |log| && forall i :: 0 <= i < |log| && OpenDrain(log[i], rid) ==> OpenDrain(log'[i], rid)
  }

  lemma StepDrains(c: State, op: Op, rid: ReplicaId)
    requires ReplicasOk(c) && !Recovers(c, op) && rid in c.replicas
    ensures !MoveOf(c, op, rid).FinishDrain? ==> KeepsOpenDrains(c.drains, Step(c, op).state.drains, rid)
    ensures MoveOf(c, op, rid).BeginDrain? ==> exists i :: 0 <= i < |Step(c, op).state.drains| &&
                                                   OpenDrain(Step(c, op).state.drains[i], rid)
  {
    if op.CompleteDrainOp? {
      CompleteDrainKeepsOthers(c, op, rid);
    } else if op.DrainOp? {
      DrainOpens(c, op, rid);
    } else {
      OthersKeepDrains(c, op);
      OthersDrainNothing(c, op, rid);
    }
  }

  lemma OthersKeepDrains(c: State, op: Op)
    requires !Recovers(c, op) && !op.DrainOp? && !op.CompleteDrainOp?
    ensures Step(c, op).state.drains == c.drains
  {
  }

  lemma OthersDrainNothing(c: State, op: Op, rid: ReplicaId)
    requires rid in c.replicas && !op.DrainOp?
    ensures !MoveOf(c, op, rid).BeginDrain?
  {
  }

  lemma DrainOpens(c: State, op: Op, rid: ReplicaId)
    requires ReplicasOk(c) && op.DrainOp? && rid in c.replicas
    ensures KeepsOpenDrains(c.drains, Step(c, op).state.drains, rid)
    ensures MoveOf(c, op, rid).BeginDrain? ==> exists i :: 0 <= i < |Step(c, op).state.drains| &&
                                                   OpenDrain(Step(c, op).state.drains[i], rid)
  {
    if MoveOf(c, op, rid).BeginDrain? {
      assert OpenDrain(Step(c, op).state.drains[|c.drains|], rid);
    }
  }

  lemma CompleteDrainKeepsOthers(c: State, op: Op, rid: ReplicaId)
    requires ReplicasOk(c) && op.CompleteDrainOp? && rid in c.replicas
    ensures !MoveOf(c, op, rid).FinishDrain? ==> KeepsOpenDrains(c.drains, Step(c, op).state.drains, rid)
    ensures !MoveOf(c, op, rid).BeginDrain?
  {
    if Accepted(c, op) && op.replicaId != rid {
      ClosingSparesOthers(c.drains, op.replicaId, op.quiesced, op.force, op.mono, rid);
    }
  }

  // Closing a drain leaves the records of every other replica as they were.
  lemma {:induction false} ClosingSparesOthers(log: seq<DrainRecord>, closing: ReplicaId, quiesced: U64, force: bool,
                                               mono: U64, rid: ReplicaId)
    requires rid != closing
    ensures var log' := Closed(log, closing, quiesced, force, mono);
      |log'| == |log| && forall i :: 0 <= i < |log| && log[i].replicaId == rid ==> log'[i] == log[i]
  {
    if log != [] && !OpenDrain(log[0], closing) {
      ClosingSparesOthers(log[1..], closing, quiesced, force, mono, rid);
      var log' := Closed(log, closing, quiesced, force, mono);
      forall i | 0 <= i < |log| && log[i].replicaId == rid ensures log'[i] == log[i] {
        if i > 0 { assert log[1..][i - 1] == log[i]; }
      }
    }
  }

  lemma DrainAuditKept(log: seq<DrainRecord>, log': seq<DrainRecord>, rid: ReplicaId, r: ReplicaState, m: Move)
    requires DrainAudited(log, rid, r)
    requires !m.FinishDrain? ==> KeepsOpenDrains(log, log', rid)
    requires m.BeginDrain? ==> exists i :: 0 <= i < |log'| && OpenDrain(log'[i], rid)
    ensures DrainAudited(log', rid, Apply(m, r))
  {
    if r.lifecycle.Draining? && !m.FinishDrain? {
      var i :| 0 <= i < |log| && OpenDrain(log[i], rid);
      assert OpenDrain(log'[i], rid);
    }
  }

  lemma NewbornDrainAudit(c: State, op: Op, rid: ReplicaId)
    requires TablesOk(c) && Rebirth(c, op, rid) && rid in Step(c, op).state.replicas && !Recovers(c, op)
    ensures DrainAudited(Step(c, op).state.drains, rid, Step(c, op).state.replicas[rid])
  {
    ProvisionedIsOk(c, op);
  }

  lemma SurvivorDrainAudit(c: State, op: Op, rid: ReplicaId)
    requires Inv(c) && !Recovers(c, op) && rid in c.replicas && !Rebirth(c, op, rid)
    ensures rid in Step(c, op).state.replicas
    ensures DrainAudited(Step(c, op).state.drains, rid, Step(c, op).state.replicas[rid])
  {
    assert DrainAudited(c.drains, rid, c.replicas[rid]);
    StepMoves(c, op, rid);
    StepDrains(c, op, rid);
    DrainAuditKept(c.drains, Step(c, op).state.drains, rid, c.replicas[rid], MoveOf(c, op, rid));
  }

  lemma StepDrainAudit(c: State, op: Op, rid: ReplicaId)
    requires Inv(c) && !Recovers(c, op) && rid in Step(c, op).state.replicas
    ensures DrainAudited(Step(c, op).state.drains, rid, Step(c, op).state.replicas[rid])
  {
    StepKeys(c, op);
    if Rebirth(c, op, rid) {
      NewbornDrainAudit(c, op, rid);
    } else {
      SurvivorDrainAudit(c, op, rid);
    }
  }

  // The invariant survives every lawful operation.
  lemma StepKeepsInv(c: State, op: Op)
    requires Inv(c) && Lawful(c, op)
    ensures Inv(Step(c, op).state)
  {
    var c' := Step(c, op).state;
    if Recovers(c, op) {
      RecoveryKeepsInv(c, op.rec);
    } else {
      StepTables(c, op);
      forall rid | rid in c'.replicas ensures ReplicaOk(c'.replicas[rid], rid, c'.sets) {
        StepReplica(c, op, rid);
      }
      forall sid | sid in c'.sets ensures |Members(c'.replicas, sid)| <= c'.sets[sid].maxReplicas {
        StepCapacity(c, op, sid);
      }
      forall rid | rid in c'.replicas
        ensures PromotionAudited(c'.promotions, rid, c'.replicas[rid]) && DrainAudited(c'.drains, rid, c'.replicas[rid])
      {
        StepPromotionAudit(c, op, rid);
        StepDrainAudit(c, op, rid);
      }
    }
  }

  ghost predicate LawfulRun(c: State, ops: seq<Op>) {
    forall i :: 0 <= i < |ops| ==> Lawful(Run(c, ops[..i]), ops[i])
  }

  lemma LawfulPrefix(c: State, ops: seq<Op>, n: nat)
    requires LawfulRun(c, ops) && n <= |ops|
    ensures LawfulRun(c, ops[..n])
  {
    forall i | 0 <= i < n ensures Lawful(Run(c, ops[..n][..i]), ops[..n][i]) {
      assert ops[..n][..i] == ops[..i];
    }
  }

  // The invariant holds throughout every lawful run.
  lemma {:induction false} RunKeepsInv(c: State, ops: seq<Op>)
    requires Inv(c) && LawfulRun(c, ops)
    ensures Inv(Run(c, ops))
  {
    if ops != [] {
      var n := |ops| - 1;
      LawfulPrefix(c, ops, n);
      RunKeepsInv(c, ops[..n]);
      StepKeepsInv(Run(c, ops[..n]), ops[n]);
    }
  }
}
