// Who holds serving eligibility in a replica set, and what a failover hands over.
module Primary {
  import opened Base
  import opened Identity
  import opened Enums
  import opened Records
  import opened Transition
  import opened Compatibility
  import opened Authority
  import opened ControllerModel
  import opened Moves
  import opened Invariants
  import opened Runs
  import Effects
  import Order = FailoverOrder

  // The replicas of a set that hold the serving flag.
  ghost function Eligible(c: State, sid: ReplicaSetId): set<ReplicaId> {
    set rid | rid in c.replicas && c.replicas[rid].setId == sid && c.replicas[rid].servingEligible
  }

  ghost predicate AtMostOne(s: set<ReplicaId>) {
    forall a, b :: a in s && b in s ==> a == b
  }

  ghost predicate SinglePrimary(c: State) {
    forall sid :: AtMostOne(Eligible(c, sid))
  }

  // The replica that a step makes eligible, if any.
  ghost function Granted(c: State, op: Op): Option<ReplicaId> {
    if op.PromoteOp? && !op.target.Primary? then None else Subject(c, op)
  }

  // The operation makes `rid` the primary: an accepted promotion to PRIMARY, or an accepted failover
  // whose record names it as the replacement.
  ghost predicate MakesPrimary(c: State, op: Op, rid: ReplicaId) {
    && Accepted(c, op)
    && (|| (op.PromoteOp? && op.replicaId == rid && op.target == PromotionState.Primary)
        || (op.FailoverOp? && var log := Step(c, op).state.failovers; log != [] && log[|log| - 1].replacement == rid))
  }

  lemma MakesPrimaryIsGranted(c: State, op: Op, rid: ReplicaId)
    ensures MakesPrimary(c, op, rid) <==> Granted(c, op) == Some(rid)
  {
    if op.FailoverOp? && Accepted(c, op) {
      Effects.FailoverSteps(c, op.setId, op.failed, op.reason, op.mono, op.wall);
    }
  }

  predicate Grants(m: Move) {
    m.TakeOver? || (m.Promote? && m.target.Primary?)
  }

  predicate Revokes(m: Move) {
    m.Restart? || m.Disconnect? || (m.Observe? && Failing(m.evidence.state)) || m.Promote? || m.BeginDrain? ||
    m.FinishDrain? || m.Fail? || m.Retire? || m.MarkObsolete?
  }

  lemma EligibilityAfterMove(m: Move, r: ReplicaState)
    ensures Apply(m, r).servingEligible <==> Grants(m) || (r.servingEligible && !Revokes(m))
  {
  }

  lemma GrantedIsMoved(c: State, op: Op, rid: ReplicaId)
    requires rid in c.replicas
    ensures Granted(c, op) == Some(rid) <==> Grants(MoveOf(c, op, rid))
  {
  }

  lemma GrantedMoves(c: State, op: Op, rid: ReplicaId)
    requires rid in c.replicas
    ensures Granted(c, op) == Some(rid) <==> Grants(MoveOf(c, op, rid))
    ensures op.FailoverOp? && FailoverApplies(c, op.setId, op.failed) && rid != op.failed ==> !Revokes(MoveOf(c, op, rid))
    ensures op.FailoverOp? && FailoverApplies(c, op.setId, op.failed) && rid == op.failed ==> Revokes(MoveOf(c, op, rid))
    ensures op.PromoteOp? && Accepted(c, op) && rid != op.replicaId ==> !Revokes(MoveOf(c, op, rid))
  {
    GrantedIsMoved(c, op, rid);
  }

  lemma GrantedExists(c: State, op: Op)
    ensures Granted(c, op).Some? ==> Granted(c, op).value in c.replicas && !Recovers(c, op)
    ensures Granted(c, op).Some? ==> forall rid :: !Rebirth(c, op, rid)
  {
  }

  // Nothing but a PRIMARY promotion or a failover ever makes another replica eligible.
  lemma OnlyGrantsEnlarge(c: State, op: Op, sid: ReplicaSetId)
    ensures Eligible(Step(c, op).state, sid) <= Eligible(c, sid) +
      if Granted(c, op).Some? && Granted(c, op).value in c.replicas && c.replicas[Granted(c, op).value].setId == sid
      then {Granted(c, op).value} else {}
  {
    var c' := Step(c, op).state;
    forall rid | rid in Eligible(c', sid) && rid !in Eligible(c, sid)
      ensures Granted(c, op) == Some(rid) && rid in c.replicas && c.replicas[rid].setId == sid
    {
      NewcomersAreNotEligible(c, op, rid);
      StepMoves(c, op, rid);
      MoveKeepsIdentity(MoveOf(c, op, rid), c.replicas[rid]);
      EligibilityAfterMove(MoveOf(c, op, rid), c.replicas[rid]);
      GrantedMoves(c, op, rid);
    }
  }

  // A provisioned or recovered replica starts without eligibility.
  lemma NewcomersAreNotEligible(c: State, op: Op, rid: ReplicaId)
    requires rid in Step(c, op).state.replicas && Step(c, op).state.replicas[rid].servingEligible
    ensures rid in c.replicas && !Rebirth(c, op, rid)
  {
    if !Recovers(c, op) {
      StepKeys(c, op);
    }
  }

  lemma GrantingStepAt(c: State, op: Op, sid: ReplicaSetId, rid: ReplicaId)
    requires Granted(c, op).Some? && rid in c.replicas && !Rebirth(c, op, rid)
    requires Granted(c, op).value in c.replicas && c.replicas[Granted(c, op).value].setId == sid
    ensures rid in Eligible(Step(c, op).state, sid) <==>
      rid == Granted(c, op).value || (rid in Eligible(c, sid) && !(op.FailoverOp? && rid == op.failed))
  {
    StepMoves(c, op, rid);
    MoveKeepsIdentity(MoveOf(c, op, rid), c.replicas[rid]);
    EligibilityAfterMove(MoveOf(c, op, rid), c.replicas[rid]);
    GrantedMoves(c, op, rid);
  }

  function Dropped(op: Op): set<ReplicaId> {
    if op.FailoverOp? then {op.failed} else {}
  }

  // What a granting step does to the eligible replicas of the set: a promotion to PRIMARY adds its
  // subject to E and demotes nobody; a failover turns E into (E minus failed) plus the replacement.
  lemma GrantingStep(c: State, op: Op, sid: ReplicaSetId)
    requires Granted(c, op).Some?
    ensures Granted(c, op).value in c.replicas
    ensures c.replicas[Granted(c, op).value].setId == sid ==>
      Eligible(Step(c, op).state, sid) == Eligible(c, sid) - Dropped(op) + {Granted(c, op).value}
  {
    GrantedExists(c, op);
    var x := Granted(c, op).value;
    if c.replicas[x].setId == sid {
      var (before, after) := (Eligible(c, sid), Eligible(Step(c, op).state, sid));
      forall rid ensures rid in after <==> rid in before - Dropped(op) + {x} {
        if rid in c.replicas {
          GrantingStepAt(c, op, sid, rid);
        } else {
          NothingProvisioned(c, op, rid);
        }
      }
    }
  }

  lemma NothingProvisioned(c: State, op: Op, rid: ReplicaId)
    requires Granted(c, op).Some? && rid !in c.replicas
    ensures rid !in Step(c, op).state.replicas && Granted(c, op).value != rid
  {
    GrantedExists(c, op);
    StepKeys(c, op);
  }

  // The calling discipline: authority is granted only where no third replica holds it.
  ghost predicate Disciplined(c: State, op: Op) {
    var g := Granted(c, op);
    g.Some? && g.value in c.replicas ==>
      Eligible(c, c.replicas[g.value].setId) <= {g.value} + Dropped(op)
  }

  // The arithmetic of one grant: (E minus dropped) plus x has at most one member exactly when
  // nobody but x and the dropped was in E.
  lemma GrantKeepsOne(e: set<ReplicaId>, dropped: set<ReplicaId>, x: ReplicaId)
    ensures AtMostOne(e - dropped + {x}) <==> e <= {x} + dropped
  {
    var e' := e - dropped + {x};
    if AtMostOne(e') {
      forall a | a in e ensures a in {x} + dropped {
        if a !in dropped { assert a in e' && x in e'; }
      }
    }
  }

  lemma GrantStepKeepsOne(c: State, op: Op)
    requires Granted(c, op).Some?
    ensures Granted(c, op).value in c.replicas
    ensures AtMostOne(Eligible(Step(c, op).state, c.replicas[Granted(c, op).value].setId)) <==> Disciplined(c, op)
  {
    GrantedExists(c, op);
    var sid := c.replicas[Granted(c, op).value].setId;
    GrantingStep(c, op, sid);
    GrantKeepsOne(Eligible(c, sid), Dropped(op), Granted(c, op).value);
  }

  // Sets in which nothing is granted never gain a second eligible replica.
  lemma UngrantedSetKeepsOne(c: State, op: Op, sid: ReplicaSetId)
    requires AtMostOne(Eligible(c, sid))
    requires Granted(c, op).Some? ==> Granted(c, op).value in c.replicas && c.replicas[Granted(c, op).value].setId != sid
    ensures AtMostOne(Eligible(Step(c, op).state, sid))
  {
    OnlyGrantsEnlarge(c, op, sid);
    assert Eligible(Step(c, op).state, sid) <= Eligible(c, sid);
  }

  // Exactly the disciplined steps keep at most one eligible replica per set.
  lemma SinglePrimaryStep(c: State, op: Op)
    requires SinglePrimary(c)
    ensures SinglePrimary(Step(c, op).state) <==> Disciplined(c, op)
  {
    var g := Granted(c, op);
    if g.Some? { GrantStepKeepsOne(c, op); }
    forall sid | g.Some? ==> c.replicas[g.value].setId != sid ensures AtMostOne(Eligible(Step(c, op).state, sid)) {
      UngrantedSetKeepsOne(c, op, sid);
    }
  }

  ghost predicate DisciplinedRun(c: State, ops: seq<Op>) {
    forall i :: 0 <= i < |ops| ==> Disciplined(Run(c, ops[..i]), ops[i])
  }

  ghost predicate AlwaysSinglePrimary(c: State, ops: seq<Op>) {
    forall i :: 0 <= i <= |ops| ==> SinglePrimary(Run(c, ops[..i]))
  }

  lemma DisciplinedPrefix(c: State, ops: seq<Op>, n: nat)
    requires DisciplinedRun(c, ops) && n <= |ops|
    ensures DisciplinedRun(c, ops[..n])
  {
    forall i | 0 <= i < n ensures Disciplined(Run(c, ops[..n][..i]), ops[..n][i]) {
      assert ops[..n][..i] == ops[..i];
    }
  }

  lemma DisciplinedExtended(c: State, ops: seq<Op>, n: nat)
    requires |ops| == n + 1 && DisciplinedRun(c, ops[..n]) && Disciplined(Run(c, ops[..n]), ops[n])
    ensures DisciplinedRun(c, ops)
  {
    forall i | 0 <= i < |ops| ensures Disciplined(Run(c, ops[..i]), ops[i]) {
      if i < n {
        assert ops[..n][..i] == ops[..i] && ops[..n][i] == ops[i];
      }
    }
  }

  lemma DisciplinedSnoc(c: State, ops: seq<Op>, n: nat)
    requires |ops| == n + 1
    ensures DisciplinedRun(c, ops) <==> DisciplinedRun(c, ops[..n]) && Disciplined(Run(c, ops[..n]), ops[n])
  {
    if DisciplinedRun(c, ops) { DisciplinedPrefix(c, ops, n); }
    if DisciplinedRun(c, ops[..n]) && Disciplined(Run(c, ops[..n]), ops[n]) { DisciplinedExtended(c, ops, n); }
  }

  lemma SinglePrimarySnoc(c: State, ops: seq<Op>, n: nat)
    requires |ops| == n + 1
    ensures AlwaysSinglePrimary(c, ops) <==> AlwaysSinglePrimary(c, ops[..n]) && SinglePrimary(Run(c, ops))
  {
    var front := ops[..n];
    assert forall i :: 0 <= i <= n ==> front[..i] == ops[..i];
    assert ops[..n + 1] == ops;
    forall i | 0 <= i <= n && AlwaysSinglePrimary(c, ops) ensures SinglePrimary(Run(c, front[..i])) {
      assert SinglePrimary(Run(c, ops[..i]));
    }
    assert AlwaysSinglePrimary(c, ops) ==> SinglePrimary(Run(c, ops[..n + 1]));
    forall i | 0 <= i <= n + 1 && AlwaysSinglePrimary(c, front) && SinglePrimary(Run(c, ops))
      ensures SinglePrimary(Run(c, ops[..i]))
    {
      if i <= n { assert SinglePrimary(Run(c, front[..i])); }
    }
  }

  lemma SinglePrimaryAtEnd(c: State, ops: seq<Op>)
    requires AlwaysSinglePrimary(c, ops)
    ensures SinglePrimary(Run(c, ops))
  {
    assert ops[..|ops|] == ops;
  }

  // Over whole runs: there is never a second eligible replica in a set if and only if every grant
  // kept the discipline.
  lemma {:induction false} SinglePrimaryOverRuns(c: State, ops: seq<Op>)
    requires SinglePrimary(c)
    ensures AlwaysSinglePrimary(c, ops) <==> DisciplinedRun(c, ops)
  {
    if ops == [] {
      assert forall i :: 0 <= i <= |ops| ==> ops[..i] == [];
    } else {
      var n := |ops| - 1;
      DisciplinedSnoc(c, ops, n);
      SinglePrimarySnoc(c, ops, n);
      SinglePrimaryOverRuns(c, ops[..n]);
      if AlwaysSinglePrimary(c, ops[..n]) {
        SinglePrimaryAtEnd(c, ops[..n]);
        SinglePrimaryStep(Run(c, ops[..n]), ops[n]);
      }
    }
  }

  // What a caller can check before the call: nobody but the target, or but the replica named as
  // failed, is eligible in the set.
  ghost predicate Checked(c: State, op: Op) {
    && (op.PromoteOp? && op.target.Primary? && op.replicaId in c.replicas ==>
          Eligible(c, c.replicas[op.replicaId].setId) <= {op.replicaId})
    && (op.FailoverOp? ==> Eligible(c, op.setId) <= {op.failed})
  }

  // Callers who check keep a single primary throughout.
  lemma CheckingCallersKeepOnePrimary(c: State, ops: seq<Op>)
    requires SinglePrimary(c)
    requires forall i :: 0 <= i < |ops| ==> Checked(Run(c, ops[..i]), ops[i])
    ensures AlwaysSinglePrimary(c, ops)
  {
    forall i | 0 <= i < |ops| ensures Disciplined(Run(c, ops[..i]), ops[i]) {
      CheckedIsDisciplined(Run(c, ops[..i]), ops[i]);
    }
    SinglePrimaryOverRuns(c, ops);
  }

  lemma CheckedIsDisciplined(c: State, op: Op)
    requires Checked(c, op)
    ensures Disciplined(c, op)
  {
    GrantedExists(c, op);
  }

  // Promoting a second replica demotes nobody: the documented "exactly one primary" needs the caller.
  lemma SecondPrimaryIsAccepted(c: State, op: Op, e: ReplicaId)
    requires op.PromoteOp? && op.target.Primary? && Accepted(c, op)
    requires e != op.replicaId && op.replicaId in c.replicas && e in Eligible(c, c.replicas[op.replicaId].setId)
    ensures {e, op.replicaId} <= Eligible(Step(c, op).state, c.replicas[op.replicaId].setId)
    ensures !SinglePrimary(Step(c, op).state)
  {
    var sid := c.replicas[op.replicaId].setId;
    GrantingStep(c, op, sid);
    assert op.replicaId in Eligible(Step(c, op).state, sid) && e in Eligible(Step(c, op).state, sid);
  }

  // ----- Failover -----

  // After a failover, successful or not, the failed replica cannot serve.
  lemma FailedCannotServe(c: State, op: Op)
    requires op.FailoverOp? && FailoverApplies(c, op.setId, op.failed)
    ensures !Servable(Step(c, op).state, op.failed)
  {
    FailedIsStripped(c, op);
    if Servable(Step(c, op).state, op.failed) {
      ServableNeeds(Step(c, op).state, op.failed);
    }
  }

  // A failover succeeds exactly when a candidate exists, and then a set that was coming up or
  // available is DEGRADED if its HEALTHY replicas number fewer than min_healthy, else AVAILABLE.
  lemma FailoverSetsLifecycle(c: State, op: Op)
    requires Inv(c) && op.FailoverOp? && FailoverApplies(c, op.setId, op.failed)
    requires var l := c.sets[op.setId].lifecycle; l.Provisioning? || l.Available? || l.Degraded?
    ensures Accepted(c, op) <==> Candidates(c, op.setId, op.failed) != {}
    ensures Accepted(c, op) ==>
      (var c' := Step(c, op).state;
       && op.setId in c'.sets
       && c'.sets[op.setId].lifecycle ==
          if |HealthyMembers(c'.replicas, op.setId)| < c.sets[op.setId].minHealthy
          then ReplicaSetLifecycle.Degraded else Available)
  {
    if FailoverSucceeds(c, op.setId, op.failed) {
      HealthyCountDoesNotWrap(c, op, op.setId);
      FailoverDerives(c, op);
      DerivedFromCount(c.sets[op.setId], |HealthyMembers(Step(c, op).state.replicas, op.setId)|);
    } else {
      FailoverFinds(c, op);
    }
  }

  lemma FailoverFinds(c: State, op: Op)
    requires op.FailoverOp? && !FailoverSucceeds(c, op.setId, op.failed)
    ensures !Accepted(c, op)
  {
  }

  lemma DerivedFromCount(s: ReplicaSetState, healthy: nat)
    requires healthy < U32_MOD && (s.lifecycle.Provisioning? || s.lifecycle.Available? || s.lifecycle.Degraded?)
    ensures DerivedSet(s, healthy).lifecycle ==
      if healthy < s.minHealthy then ReplicaSetLifecycle.Degraded else Available
  {
  }

  lemma FailoverDerives(c: State, op: Op)
    requires op.FailoverOp? && FailoverSucceeds(c, op.setId, op.failed)
    ensures op.setId in Step(c, op).state.sets && Accepted(c, op)
    ensures Step(c, op).state.sets[op.setId] ==
      DerivedSet(c.sets[op.setId], |HealthyMembers(Step(c, op).state.replicas, op.setId)|)
  {
  }

  lemma FailedIsStripped(c: State, op: Op)
    requires op.FailoverOp? && FailoverApplies(c, op.setId, op.failed)
    ensures op.failed in Step(c, op).state.replicas && !Step(c, op).state.replicas[op.failed].servingEligible
  {
    StepMoves(c, op, op.failed);
  }

  // The 32-bit counter cannot wrap: a set never holds more than max_replicas replicas.
  lemma HealthyCountDoesNotWrap(c: State, op: Op, sid: ReplicaSetId)
    requires Inv(c) && op.FailoverOp? && sid in c.sets
    ensures |HealthyMembers(Step(c, op).state.replicas, sid)| < U32_MOD
  {
    var c' := Step(c, op).state;
    StepKeepsInv(c, op);
    StepSets(c, op, sid);
    assert |Members(c'.replicas, sid)| <= c'.sets[sid].maxReplicas;
    SubsetCardinality(HealthyMembers(c'.replicas, sid), Members(c'.replicas, sid));
  }

  // The replacement serves at once exactly when it was current in epoch and boot and warm: these
  // three the selection does not check. `serving_eligible` alone does not mean servable.
  lemma ReplacementServes(c: State, op: Op)
    requires Inv(c) && op.FailoverOp? && FailoverSucceeds(c, op.setId, op.failed)
    requires var l := c.sets[op.setId].lifecycle; l.Provisioning? || l.Available? || l.Degraded?
    ensures var x := Chosen(c, op.setId, op.failed);
      && x in Eligible(Step(c, op).state, op.setId)
      && (Servable(Step(c, op).state, x) <==>
            && c.replicas[x].coordinatorEpoch == c.epoch
            && c.replicas[x].bootId == CurrentBootFor(c, x)
            && c.replicas[x].warmth.Warm?)
  {
    var x := Chosen(c, op.setId, op.failed);
    ReplacementState(c, op);
    StepKeepsInv(c, op);
    FailoverSetsLifecycle(c, op);
    StepSets(c, op, op.setId);
    TakenOverServes(c, Step(c, op).state, op.setId, x);
  }

  lemma TakenOverServes(c: State, c': State, setId: ReplicaSetId, x: ReplicaId)
    requires Inv(c') && setId in c.sets && x in c.replicas && c.replicas[x].setId == setId && setId in c'.sets
    requires IsCandidate(c.replicas[x], c.sets[setId])
    requires x in c'.replicas && c'.replicas[x] == TakenOver(c.replicas[x], Fresh(c, 0))
    requires c'.epoch == c.epoch && c'.workers == c.workers
    requires c'.sets[setId].lifecycle.Available? || c'.sets[setId].lifecycle.Degraded?
    ensures x in Eligible(c', setId)
    ensures Servable(c', x) <==>
            && c.replicas[x].coordinatorEpoch == c.epoch
            && c.replicas[x].bootId == CurrentBootFor(c, x)
            && c.replicas[x].warmth.Warm?
  {
    GateRefinement(c', x);
  }

  lemma ReplacementState(c: State, op: Op)
    requires op.FailoverOp? && FailoverSucceeds(c, op.setId, op.failed)
    ensures var (x, c') := (Chosen(c, op.setId, op.failed), Step(c, op).state);
      && x in c'.replicas && c'.replicas[x] == TakenOver(c.replicas[x], Fresh(c, 0))
      && IsCandidate(c.replicas[x], c.sets[op.setId]) && c.replicas[x].setId == op.setId
      && c'.epoch == c.epoch && c'.workers == c.workers
  {
    FailoverReplicas(c, op.setId, op.failed, op.reason, op.mono, op.wall);
  }

  // The policy sees no difference between two replicas.
  predicate Tie(pol: FailoverPolicy, failedWorker: WorkerId, a: ReplicaState, b: ReplicaState) {
    && (pol.preferStandbyFirst ==> Order.RoleRank(a.promotion) == Order.RoleRank(b.promotion))
    && (pol.requireDiversity ==> (a.workerId != failedWorker <==> b.workerId != failedWorker))
  }

  // The choice in terms of replicas: nobody eligible for the job stands before it. A STANDBY is
  // taken whenever one qualifies and the policy prefers it; then a replica on another worker
  // whenever one of the same rank qualifies and the policy asks for diversity; and among those that
  // tie in what the policy looks at, the least identity.
  lemma FailoverChoice(c: State, setId: ReplicaSetId, failed: ReplicaId, x: ReplicaId)
    requires FailoverSucceeds(c, setId, failed)
    requires x in c.replicas && x != failed && c.replicas[x].setId == setId
    requires IsCandidate(c.replicas[x], c.sets[setId])
    ensures var (pol, chosen) := (c.sets[setId].policies.failover, Chosen(c, setId, failed));
      var (a, b, w) := (c.replicas[chosen], c.replicas[x], c.replicas[failed].workerId);
      && (pol.preferStandbyFirst && b.promotion.Standby? ==> a.promotion.Standby?)
      && (pol.requireDiversity && b.workerId != w && a.workerId == w ==>
            pol.preferStandbyFirst && Order.RoleRank(b.promotion) > Order.RoleRank(a.promotion))
      && (x != chosen && Tie(pol, w, a, b) ==> chosen.Less(x))
  {
    var (pol, w, cs) := (c.sets[setId].policies.failover, c.replicas[failed].workerId, Candidates(c, setId, failed));
    assert Order.CandidateOf(x, c.replicas[x]) in cs;
    Order.FirstIsTheOnlyChoice(pol, w, cs, Order.First(pol, w, cs));
  }
}
