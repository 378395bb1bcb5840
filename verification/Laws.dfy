// What callers may rely on after one particular operation, over every run that follows it.
module Laws {
  import opened Base
  import opened Identity
  import opened Enums
  import opened Records
  import opened Transition
  import opened Authority
  import opened ControllerModel
  import opened Moves
  import opened Invariants
  import opened Runs
  import opened Primary
  import opened Evidence
  import Effects

  // ----- Authority, once lost, is lost until it is granted again -----

  ghost predicate NeverMadePrimary(c: State, ops: seq<Op>, rid: ReplicaId) {
    forall i :: 0 <= i < |ops| ==> !MakesPrimary(Run(c, ops[..i]), ops[i], rid)
  }

  lemma NeverMadePrimaryPrefix(c: State, ops: seq<Op>, rid: ReplicaId, n: nat)
    requires NeverMadePrimary(c, ops, rid) && n <= |ops|
    ensures NeverMadePrimary(c, ops[..n], rid)
  {
    forall i | 0 <= i < n ensures !MakesPrimary(Run(c, ops[..n][..i]), ops[..n][i], rid) {
      assert ops[..n][..i] == ops[..i] && ops[..n][i] == ops[i];
    }
  }

  lemma StaysIneligible(c: State, op: Op, rid: ReplicaId)
    requires rid in c.replicas && !c.replicas[rid].servingEligible
    requires !Rebirth(c, op, rid) && !MakesPrimary(c, op, rid)
    ensures rid in Step(c, op).state.replicas && !Step(c, op).state.replicas[rid].servingEligible
  {
    MakesPrimaryIsGranted(c, op, rid);
    StepMoves(c, op, rid);
    EligibilityAfterMove(MoveOf(c, op, rid), c.replicas[rid]);
    GrantedIsMoved(c, op, rid);
  }

  // Evidence, messages, epochs, boots, re-linking: nothing but a grant brings the flag back.
  lemma {:induction false} NoServiceWithoutGrant(c: State, ops: seq<Op>, rid: ReplicaId)
    requires rid in c.replicas && !c.replicas[rid].servingEligible
    requires SameIncarnation(c, ops, rid) && NeverMadePrimary(c, ops, rid)
    ensures rid in Run(c, ops).replicas && !Run(c, ops).replicas[rid].servingEligible && !Servable(Run(c, ops), rid)
  {
    if ops != [] {
      var n := |ops| - 1;
      SameIncarnationPrefix(c, ops, rid, n);
      NeverMadePrimaryPrefix(c, ops, rid, n);
      NoServiceWithoutGrant(c, ops[..n], rid);
      StaysIneligible(Run(c, ops[..n]), ops[n], rid);
    }
    if Servable(Run(c, ops), rid) { ServableNeeds(Run(c, ops), rid); }
  }

  // Once a replica is reported FAILED or UNHEALTHY it does not serve, however healthy it is reported
  // later, until a promotion or a failover makes it the primary.
  lemma FailingReportEndsService(c: State, rid: ReplicaId, ev: HealthEvidence, worker: WorkerId, boot: WorkerBootId,
                                 mono: U64, ops: seq<Op>)
    requires Step(c, HealthOp(rid, ev, worker, boot, mono)).status == OpStatus.Ok
    requires ev.state == HealthState.Failed || ev.state == Unhealthy
    requires var c1 := Step(c, HealthOp(rid, ev, worker, boot, mono)).state;
      SameIncarnation(c1, ops, rid) && NeverMadePrimary(c1, ops, rid)
    ensures !Servable(Run(Step(c, HealthOp(rid, ev, worker, boot, mono)).state, ops), rid)
  {
    Effects.HealthEffect(c, rid, ev, worker, boot, mono);
    NoServiceWithoutGrant(Step(c, HealthOp(rid, ev, worker, boot, mono)).state, ops, rid);
  }

  // So with a replica that is promoted to anything but PRIMARY.
  lemma OtherPromotionEndsService(c: State, rid: ReplicaId, target: PromotionState, worker: WorkerId,
                                  boot: WorkerBootId, mono: U64, wall: I64, ops: seq<Op>)
    requires Step(c, PromoteOp(rid, target, worker, boot, mono, wall)).status == OpStatus.Ok
    requires target != PromotionState.Primary
    requires var c1 := Step(c, PromoteOp(rid, target, worker, boot, mono, wall)).state;
      SameIncarnation(c1, ops, rid) && NeverMadePrimary(c1, ops, rid)
    ensures !Servable(Run(Step(c, PromoteOp(rid, target, worker, boot, mono, wall)).state, ops), rid)
  {
    Effects.PromotionEffect(c, rid, target, worker, boot, mono, wall);
    NoServiceWithoutGrant(Step(c, PromoteOp(rid, target, worker, boot, mono, wall)).state, ops, rid);
  }

  // ----- Some losses are final -----

  // The replica is in one of the states that no operation leads out of into service.
  predicate Over(r: ReplicaState) {
    r.lifecycle in {ReplicaLifecycle.Draining, ReplicaLifecycle.Quiesced, ReplicaLifecycle.Failed,
                    ReplicaLifecycle.Retired}
  }

  lemma OverIsFinal(c: State, ops: seq<Op>, rid: ReplicaId)
    requires Inv(c) && LawfulRun(c, ops) && rid in c.replicas && SameIncarnation(c, ops, rid) && Over(c.replicas[rid])
    ensures !Servable(Run(c, ops), rid)
  {
    OverIsLate(c.replicas[rid]);
    DrainedNeverServes(c, ops, rid);
  }

  lemma OverIsLate(r: ReplicaState)
    requires Over(r)
    ensures Phase(r.lifecycle) > Phase(Serving)
  {
  }

  // What a worker was serving when it came back under another boot identity never serves again,
  // whatever boots are registered later, until it is provisioned anew.
  lemma RestartIsFinal(c: State, wr: WorkerRegistration, rid: ReplicaId, ops: seq<Op>)
    requires Inv(c) && wr.workerId in c.workers && c.workers[wr.workerId].bootId != wr.bootId
    requires rid in c.replicas && c.replicas[rid].workerId == wr.workerId && c.replicas[rid].lifecycle == Serving
    requires var c1 := Step(c, RegisterWorkerOp(wr)).state; LawfulRun(c1, ops) && SameIncarnation(c1, ops, rid)
    ensures !Servable(Run(Step(c, RegisterWorkerOp(wr)).state, ops), rid)
  {
    StepKeepsInv(c, RegisterWorkerOp(wr));
    Effects.RegistrationEffect(c, wr);
    OverIsFinal(Step(c, RegisterWorkerOp(wr)).state, ops, rid);
  }

  lemma DisconnectedIsOver(c: State, w: WorkerId, rid: ReplicaId)
    requires w in c.workers && rid in c.replicas && c.replicas[rid].workerId == w
    requires c.replicas[rid].lifecycle in {ReplicaLifecycle.Ready, Serving, ReplicaLifecycle.Draining}
    ensures rid in Step(c, UnregisterWorkerOp(w)).state.replicas
    ensures Over(Step(c, UnregisterWorkerOp(w)).state.replicas[rid])
  {
    Effects.DisconnectionEffect(c, w);
  }

  // So with what was ready, serving or draining on a worker that left.
  lemma DisconnectIsFinal(c: State, w: WorkerId, rid: ReplicaId, ops: seq<Op>)
    requires Inv(c) && w in c.workers && rid in c.replicas && c.replicas[rid].workerId == w
    requires c.replicas[rid].lifecycle in {ReplicaLifecycle.Ready, Serving, ReplicaLifecycle.Draining}
    requires var c1 := Step(c, UnregisterWorkerOp(w)).state; LawfulRun(c1, ops) && SameIncarnation(c1, ops, rid)
    ensures !Servable(Run(Step(c, UnregisterWorkerOp(w)).state, ops), rid)
  {
    StepKeepsInv(c, UnregisterWorkerOp(w));
    DisconnectedIsOver(c, w, rid);
    OverIsFinal(Step(c, UnregisterWorkerOp(w)).state, ops, rid);
  }

  // ----- A set that is not open serves nothing -----

  ghost predicate Shut(c: State, sid: ReplicaSetId) {
    sid in c.sets && c.sets[sid].lifecycle != Available && c.sets[sid].lifecycle != ReplicaSetLifecycle.Degraded
  }

  // The only operations that may open a set: an explicit transition, and a promotion or a failover
  // inside it, which derive its lifecycle from the count of HEALTHY replicas.
  ghost predicate MayOpen(c: State, op: Op, sid: ReplicaSetId) {
    && Accepted(c, op)
    && (|| (op.TransitionSetOp? && op.setId == sid && (op.to == Available || op.to == ReplicaSetLifecycle.Degraded))
        || (op.PromoteOp? && op.replicaId in c.replicas && c.replicas[op.replicaId].setId == sid)
        || (op.FailoverOp? && op.setId == sid))
  }

  lemma StaysShut(c: State, op: Op, sid: ReplicaSetId)
    requires Shut(c, sid) && !Recovers(c, op) && !MayOpen(c, op, sid)
    ensures Shut(Step(c, op).state, sid)
  {
    if op.PromoteOp? && Accepted(c, op) {
      Effects.PromotionEffect(c, op.replicaId, op.target, op.worker, op.boot, op.mono, op.wall);
    } else if op.FailoverOp? {
      FailoverStaysShut(c, op, sid);
    } else if !op.PromoteOp? {
      OthersStayShut(c, op, sid);
    }
  }

  lemma FailoverStaysShut(c: State, op: Op, sid: ReplicaSetId)
    requires Shut(c, sid) && op.FailoverOp? && !MayOpen(c, op, sid)
    ensures Shut(Step(c, op).state, sid)
  {
    if Accepted(c, op) {
      Effects.FailoverEffect(c, op.setId, op.failed, op.reason, op.mono, op.wall);
    }
  }

  lemma OthersStayShut(c: State, op: Op, sid: ReplicaSetId)
    requires Shut(c, sid) && !Recovers(c, op) && !op.PromoteOp? && !op.FailoverOp? && !MayOpen(c, op, sid)
    ensures Shut(Step(c, op).state, sid)
  {
  }

  ghost predicate NeverOpened(c: State, ops: seq<Op>, sid: ReplicaSetId) {
    forall i :: 0 <= i < |ops| ==> !MayOpen(Run(c, ops[..i]), ops[i], sid)
  }

  lemma NeverOpenedPrefix(c: State, ops: seq<Op>, sid: ReplicaSetId, n: nat)
    requires NeverOpened(c, ops, sid) && n <= |ops|
    ensures NeverOpened(c, ops[..n], sid)
  {
    forall i | 0 <= i < n ensures !MayOpen(Run(c, ops[..n][..i]), ops[..n][i], sid) {
      assert ops[..n][..i] == ops[..i] && ops[..n][i] == ops[i];
    }
  }

  lemma {:induction false} ShutSetServesNothing(c: State, ops: seq<Op>, sid: ReplicaSetId, rid: ReplicaId)
    requires Shut(c, sid) && NoRecovery(c, ops) && NeverOpened(c, ops, sid)
    ensures Shut(Run(c, ops), sid)
    ensures rid in Run(c, ops).replicas && Run(c, ops).replicas[rid].setId == sid ==> !Servable(Run(c, ops), rid)
  {
    if ops != [] {
      var n := |ops| - 1;
      NoRecoveryPrefix(c, ops, n);
      NeverOpenedPrefix(c, ops, sid, n);
      ShutSetServesNothing(c, ops[..n], sid, rid);
      StaysShut(Run(c, ops[..n]), ops[n], sid);
    }
    if Servable(Run(c, ops), rid) { ServableNeeds(Run(c, ops), rid); }
  }

  // From the moment a set drains none of its replicas serves, until the set is opened by one of the
  // three operations or a checkpoint is recovered.
  lemma DrainingSetServesNothing(c: State, sid: ReplicaSetId, ops: seq<Op>, rid: ReplicaId)
    requires Step(c, TransitionSetOp(sid, ReplicaSetLifecycle.Draining)).status == OpStatus.Ok
    requires var c1 := Step(c, TransitionSetOp(sid, ReplicaSetLifecycle.Draining)).state;
      NoRecovery(c1, ops) && NeverOpened(c1, ops, sid)
    ensures var d := Run(Step(c, TransitionSetOp(sid, ReplicaSetLifecycle.Draining)).state, ops);
      rid in d.replicas && d.replicas[rid].setId == sid ==> !Servable(d, rid)
  {
    Effects.TransitionEffect(c, sid, ReplicaSetLifecycle.Draining);
    ShutSetServesNothing(Step(c, TransitionSetOp(sid, ReplicaSetLifecycle.Draining)).state, ops, sid, rid);
  }

  // ----- Nobody is promoted on stale readiness -----

  // Since the replica's birth at `start`, its latest accepted readiness report stands at `q` and had
  // every factor set.
  ghost predicate ReadySince(c: State, ops: seq<Op>, rid: ReplicaId, start: nat, q: nat) {
    && BornAt(c, ops, rid, start) && (forall j :: start < j < |ops| ==> !BornAt(c, ops, rid, j))
    && start < q && ReportsAt(c, ops, rid, q) && (forall j :: q < j < |ops| ==> !ReportsAt(c, ops, rid, j))
    && ops[q].readiness.factors == EVERY_FACTOR
  }

  lemma ReadinessIsReported(c: State, ops: seq<Op>, rid: ReplicaId, start: nat, q: nat)
    requires IsLast(History(c, ops, rid), start, IsBirth) && ReportedAfter(History(c, ops, rid), start, q)
    ensures ReadySince(c, ops, rid, start, q)
  {
    HistoryMeaning(c, ops, rid, start);
    HistoryOfReports(c, ops, rid, q);
    forall j | start < j < |ops| ensures !BornAt(c, ops, rid, j) { HistoryMeaning(c, ops, rid, j); }
    forall j | q < j < |ops| ensures !ReportsAt(c, ops, rid, j) { HistoryOfReports(c, ops, rid, j); }
  }

  lemma ReadyHasReported(source: nat -> Id, ops: seq<Op>, rid: ReplicaId)
    requires (forall n: nat :: !source(n).IsNull()) && LawfulRun(Init(source), ops)
    requires rid in Run(Init(source), ops).replicas && Run(Init(source), ops).replicas[rid].readiness.Ready?
    ensures exists start, q :: ReadySince(Init(source), ops, rid, start, q)
  {
    var (c0, h) := (Init(source), History(Init(source), ops, rid));
    InitHolds(source);
    RunIsAccounted(c0, ops, rid);
    var start :| Explains(h, start, Run(c0, ops).replicas[rid], HealthRequired(Run(c0, ops), rid));
    var q: nat :| ReportedAfter(h, start, q);
    ReadinessIsReported(c0, ops, rid, start, q);
  }

  // An accepted promotion of any kind, or being chosen in a failover, comes on a latest readiness
  // report with all eleven factors, made since the replica's last provision or recovery.
  lemma PromotedOnReadiness(source: nat -> Id, ops: seq<Op>, op: Op, rid: ReplicaId)
    requires (forall n: nat :: !source(n).IsNull()) && LawfulRun(Init(source), ops)
    requires var c := Run(Init(source), ops);
      MakesPrimary(c, op, rid) || (op.PromoteOp? && op.replicaId == rid && Accepted(c, op))
    ensures exists start, q :: ReadySince(Init(source), ops, rid, start, q)
  {
    var c := Run(Init(source), ops);
    PromotedWhenReady(c, op, rid);
    ReadyHasReported(source, ops, rid);
  }

  lemma PromotedWhenReady(c: State, op: Op, rid: ReplicaId)
    requires MakesPrimary(c, op, rid) || (op.PromoteOp? && op.replicaId == rid && Accepted(c, op))
    ensures rid in c.replicas && c.replicas[rid].readiness == ReadinessState.Ready
  {
    if op.PromoteOp? {
      Effects.PromotionGates(c, op.replicaId, op.target, op.worker, op.boot, op.mono, op.wall);
    } else {
      Effects.FailoverEffect(c, op.setId, op.failed, op.reason, op.mono, op.wall);
    }
  }

  // ----- After a recovery -----

  ghost predicate NeverRelinked(ops: seq<Op>) {
    forall op <- ops :: !op.RelinkOp?
  }

  lemma KeepsBoot(c: State, op: Op, rid: ReplicaId)
    requires rid in c.replicas && !Rebirth(c, op, rid) && !op.RelinkOp?
    ensures rid in Step(c, op).state.replicas
    ensures Step(c, op).state.replicas[rid].bootId == c.replicas[rid].bootId
    ensures Step(c, op).state.replicas[rid].workerId == c.replicas[rid].workerId
  {
    StepMoves(c, op, rid);
    MoveKeepsIdentity(MoveOf(c, op, rid), c.replicas[rid]);
    MoveKeepsBoot(c, op, rid);
  }

  lemma {:induction false} BootIsKept(c: State, ops: seq<Op>, rid: ReplicaId)
    requires rid in c.replicas && SameIncarnation(c, ops, rid) && NeverRelinked(ops)
    ensures rid in Run(c, ops).replicas && Run(c, ops).replicas[rid].bootId == c.replicas[rid].bootId
    ensures Run(c, ops).replicas[rid].workerId == c.replicas[rid].workerId
  {
    if ops != [] {
      var n := |ops| - 1;
      SameIncarnationPrefix(c, ops, rid, n);
      BootIsKept(c, ops[..n], rid);
      KeepsBoot(Run(c, ops[..n]), ops[n], rid);
    }
  }

  // A message about `rid` from the worker incarnation `boot`.
  predicate IsMessage(op: Op, rid: ReplicaId) {
    (op.WarmOp? || op.HealthOp? || op.ReadinessOp? || op.PromoteOp? || op.DrainOp? || op.FailOp?) && op.replicaId == rid
  }

  lemma OtherBootIsRefused(c: State, op: Op, rid: ReplicaId)
    requires rid in c.replicas && IsMessage(op, rid) && op.boot != c.replicas[rid].bootId
    ensures Step(c, op) == Outcome(c, Rejected)
  {
    if op.PromoteOp? {
      Effects.PromotionGates(c, rid, op.target, op.worker, op.boot, op.mono, op.wall);
    } else if op.HealthOp? {
      Effects.HealthEffect(c, rid, op.evidence, op.worker, op.boot, op.mono);
    }
  }

  // Whatever runs after a recovery, until the replicas are re-linked: every message that carries a
  // boot identity is refused without a trace, and no replica of a registered worker serves.
  lemma RecoveredIsUnlinked(c: State, rec: RecoveredState, ops: seq<Op>, rid: ReplicaId)
    requires Step(c, RecoverOp(rec)).status == OpStatus.Ok && rid in rec.replicas
    requires SameIncarnation(Step(c, RecoverOp(rec)).state, ops, rid) && NeverRelinked(ops)
    ensures var d := Run(Step(c, RecoverOp(rec)).state, ops);
      && (forall op :: IsMessage(op, rid) && op.boot != NULL_ID ==> Step(d, op) == Outcome(d, Rejected))
      && rid in d.replicas
      && (d.replicas[rid].workerId in d.workers && d.workers[d.replicas[rid].workerId].bootId != NULL_ID ==>
            !Servable(d, rid))
  {
    var c1 := Step(c, RecoverOp(rec)).state;
    Effects.RecoveryEffect(c, rec);
    BootIsKept(c1, ops, rid);
    var d := Run(c1, ops);
    forall op | IsMessage(op, rid) && op.boot != NULL_ID ensures Step(d, op) == Outcome(d, Rejected) {
      OtherBootIsRefused(d, op, rid);
    }
    if Servable(d, rid) { ServableNeeds(d, rid); }
  }
}
