// Every operation seen from a single replica: apart from provisioning and recovery, a step moves
// each replica along one of sixteen edges. Invariants are then proved edge by edge.
module Moves {
  import opened Base
  import opened Identity
  import opened Enums
  import opened Records
  import opened Transition
  import opened Compatibility
  import opened Authority
  import opened ControllerModel

  datatype Move =
    | Stay
    | Restart
    | Disconnect
    | Allocate(placementId: Id)
    | Begin(mono: U64, wall: I64)
    | WarmUp(warming: WarmingRecord, mono: U64)
    | Observe(evidence: HealthEvidence, mono: U64)
    | Report(readiness: ReadinessRecord)
    | Promote(target: PromotionState, round: Id)
    | BeginDrain
    | FinishDrain
    | Fail(reason: Text, mono: U64)
    | Retire
    | MarkObsolete(reason: Text)
    | TakeOver(round: Id)
    | Relink(boot: WorkerBootId)

  function Apply(m: Move, r: ReplicaState): ReplicaState {
    match m
    case Stay => r
    case Restart => Restarted(r)
    case Disconnect => Disconnected(r)
    case Allocate(p) => Allocated(r, p)
    case Begin(mono, wall) => Started(r, mono, wall)
    case WarmUp(w, mono) => Warmed(r, w, mono)
    case Observe(ev, mono) => Observed(r, ev, mono)
    case Report(rr) => Readied(r, rr)
    case Promote(target, round) => Promoted(r, target, round)
    case BeginDrain => Drained(r)
    case FinishDrain => QuiescedReplica(r)
    case Fail(reason, mono) => FailedReplica(r, reason, mono)
    case Retire => RetiredReplica(r)
    case MarkObsolete(reason) => Obsolete(r, reason)
    case TakeOver(round) => TakenOver(r, round)
    case Relink(boot) => r.(bootId := boot)
  }

  // When the controller makes each move.
  predicate Enabled(m: Move, r: ReplicaState, c: State) {
    match m
    case Stay => true
    case Restart => r.lifecycle.Serving?
    case Disconnect => HadAuthority(r)
    case Allocate(_) => CanTransition(r.lifecycle, Allocating)
    case Begin(_, _) => CanTransition(r.lifecycle, ReplicaLifecycle.Starting)
    case WarmUp(_, _) => AcceptsWarming(r.lifecycle)
    case Observe(ev, _) =>
      !Terminated(r.lifecycle) && r.coordinatorEpoch == c.epoch && ev.generation == r.healthGeneration
    case Report(_) => !Terminated(r.lifecycle) && r.coordinatorEpoch == c.epoch
    case Promote(target, _) => r.setId in c.sets && Promotable(r, c.sets[r.setId], c.epoch, target)
    case BeginDrain => ReadyToPromote(r.lifecycle) && r.coordinatorEpoch == c.epoch
    case FinishDrain => r.lifecycle.Draining?
    case Fail(_, _) => true
    case Retire => CanTransition(r.lifecycle, ReplicaLifecycle.Retired)
    case MarkObsolete(_) => true
    case TakeOver(_) => r.setId in c.sets && IsCandidate(r, c.sets[r.setId])
    case Relink(_) => true
  }

  ghost predicate Accepted(c: State, op: Op) {
    Step(c, op).status.Ok?
  }

  // The steps after which a replica id denotes another incarnation or a recovered one.
  ghost predicate Rebirth(c: State, op: Op, rid: ReplicaId) {
    Accepted(c, op) && (op.RecoverOp? || (op.ProvisionOp? && op.replicaId == rid))
  }

  // The edge along which `op` moves the replica `rid`.
  ghost function MoveOf(c: State, op: Op, rid: ReplicaId): Move
    requires rid in c.replicas
  {
    var r := c.replicas[rid];
    match op
    case RegisterWorkerOp(wr) => if HitByRestart(c, wr, r) then Restart else Stay
    case UnregisterWorkerOp(w) => if w in c.workers && r.workerId == w && HadAuthority(r) then Disconnect else Stay
    case AllocateOp(x, p) => if x == rid && Accepted(c, op) then Allocate(p) else Stay
    case StartOp(x, mono, wall) => if x == rid && Accepted(c, op) then Begin(mono, wall) else Stay
    case WarmOp(x, w, _, _, mono) => if x == rid && Accepted(c, op) then WarmUp(w, mono) else Stay
    case HealthOp(x, ev, _, _, mono) => if x == rid && Accepted(c, op) then Observe(ev, mono) else Stay
    case ReadinessOp(x, rr, _, _) => if x == rid && Accepted(c, op) then Report(rr) else Stay
    case PromoteOp(x, target, _, _, _, _) => if x == rid && Accepted(c, op) then Promote(target, Fresh(c, 0)) else Stay
    case DrainOp(x, _, _, _) => if x == rid && Accepted(c, op) then BeginDrain else Stay
    case CompleteDrainOp(x, _, _, _) => if x == rid && Accepted(c, op) then FinishDrain else Stay
    case FailOp(x, w, b, reason, mono) => if x == rid && BootMatches(r, w, b) then Fail(reason, mono) else Stay
    case RetireOp(x) => if x == rid && Accepted(c, op) then Retire else Stay
    case FailoverOp(sid, failed, reason, _, _) =>
      if !FailoverApplies(c, sid, failed) then Stay
      else if rid == failed then MarkObsolete(reason)
      else if Candidates(c, sid, failed) != {} && rid == Chosen(c, sid, failed) then TakeOver(Fresh(c, 0))
      else Stay
    case RelinkOp => if r.workerId in c.workers then Relink(c.workers[r.workerId].bootId) else Stay
    case _ => Stay
  }

  // What `StepMoves` says of one step.
  ghost predicate MovesAlong(c: State, op: Op, rid: ReplicaId)
    requires rid in c.replicas
  {
    var (m, c') := (MoveOf(c, op, rid), Step(c, op).state);
    rid in c'.replicas && c'.replicas[rid] == Apply(m, c.replicas[rid]) && Enabled(m, c.replicas[rid], c)
  }

  lemma WorkerOpMoves(c: State, op: Op, rid: ReplicaId)
    requires rid in c.replicas && (op.RegisterWorkerOp? || op.UnregisterWorkerOp? || op.RelinkOp?)
    ensures MovesAlong(c, op, rid)
  {
  }

  lemma FleetOpMoves(c: State, op: Op, rid: ReplicaId)
    requires rid in c.replicas && !Rebirth(c, op, rid)
    requires op.CreateSetOp? || op.TransitionSetOp? || op.ProvisionOp? || op.SetEpochOp? || op.RecoverOp?
    ensures MovesAlong(c, op, rid)
  {
  }

  lemma AllocateOpMoves(c: State, op: Op, rid: ReplicaId)
    requires rid in c.replicas && op.AllocateOp?
    ensures MovesAlong(c, op, rid)
  {
  }

  lemma StartOpMoves(c: State, op: Op, rid: ReplicaId)
    requires rid in c.replicas && op.StartOp?
    ensures MovesAlong(c, op, rid)
  {
  }

  lemma WarmOpMoves(c: State, op: Op, rid: ReplicaId)
    requires rid in c.replicas && op.WarmOp?
    ensures MovesAlong(c, op, rid)
  {
  }

  lemma HealthOpMoves(c: State, op: Op, rid: ReplicaId)
    requires rid in c.replicas && op.HealthOp?
    ensures MovesAlong(c, op, rid)
  {
  }

  lemma ReadinessOpMoves(c: State, op: Op, rid: ReplicaId)
    requires rid in c.replicas && op.ReadinessOp?
    ensures MovesAlong(c, op, rid)
  {
  }

  lemma DrainOpMoves(c: State, op: Op, rid: ReplicaId)
    requires rid in c.replicas && op.DrainOp?
    ensures MovesAlong(c, op, rid)
  {
  }

  lemma CompleteDrainOpMoves(c: State, op: Op, rid: ReplicaId)
    requires rid in c.replicas && op.CompleteDrainOp?
    ensures MovesAlong(c, op, rid)
  {
  }

  lemma FailOpMoves(c: State, op: Op, rid: ReplicaId)
    requires rid in c.replicas && op.FailOp?
    ensures MovesAlong(c, op, rid)
  {
  }

  lemma RetireOpMoves(c: State, op: Op, rid: ReplicaId)
    requires rid in c.replicas && op.RetireOp?
    ensures MovesAlong(c, op, rid)
  {
  }

  lemma PromoteOpMoves(c: State, op: Op, rid: ReplicaId)
    requires rid in c.replicas && op.PromoteOp?
    ensures MovesAlong(c, op, rid)
  {
  }

  // A failover touches the failed replica and, if there is one, the chosen replacement.
  lemma FailoverReplicas(c: State, setId: ReplicaSetId, failed: ReplicaId, reason: Text, mono: U64, wall: I64)
    requires FailoverApplies(c, setId, failed)
    ensures TriggerFailover(c, setId, failed, reason, mono, wall).state.replicas ==
      var marked := c.replicas[failed := Obsolete(c.replicas[failed], reason)];
      if !FailoverSucceeds(c, setId, failed) then marked
      else marked[Chosen(c, setId, failed) := TakenOver(c.replicas[Chosen(c, setId, failed)], Fresh(c, 0))]
  {
  }

  lemma FailoverOpMoves(c: State, op: Op, rid: ReplicaId)
    requires rid in c.replicas && op.FailoverOp?
    ensures MovesAlong(c, op, rid)
  {
    if FailoverApplies(c, op.setId, op.failed) {
      FailoverReplicas(c, op.setId, op.failed, op.reason, op.mono, op.wall);
      if FailoverSucceeds(c, op.setId, op.failed) {
        assert IsCandidate(c.replicas[Chosen(c, op.setId, op.failed)], c.sets[op.setId]);
      }
    }
  }

  // Every step moves every replica along its edge, and the edge was enabled.
  lemma StepMoves(c: State, op: Op, rid: ReplicaId)
    requires rid in c.replicas && !Rebirth(c, op, rid)
    ensures MovesAlong(c, op, rid)
  {
    if op.RegisterWorkerOp? || op.UnregisterWorkerOp? || op.RelinkOp? { WorkerOpMoves(c, op, rid); }
    else if op.AllocateOp? { AllocateOpMoves(c, op, rid); }
    else if op.StartOp? { StartOpMoves(c, op, rid); }
    else if op.WarmOp? { WarmOpMoves(c, op, rid); }
    else if op.HealthOp? { HealthOpMoves(c, op, rid); }
    else if op.ReadinessOp? { ReadinessOpMoves(c, op, rid); }
    else if op.DrainOp? { DrainOpMoves(c, op, rid); }
    else if op.CompleteDrainOp? { CompleteDrainOpMoves(c, op, rid); }
    else if op.FailOp? { FailOpMoves(c, op, rid); }
    else if op.RetireOp? { RetireOpMoves(c, op, rid); }
    else if op.PromoteOp? { PromoteOpMoves(c, op, rid); }
    else if op.FailoverOp? { FailoverOpMoves(c, op, rid); }
    else { FleetOpMoves(c, op, rid); }
  }

  predicate IsFleetOp(op: Op) {
    op.RegisterWorkerOp? || op.UnregisterWorkerOp? || op.CreateSetOp? || op.TransitionSetOp? || op.ProvisionOp? ||
    op.SetEpochOp? || op.RecoverOp? || op.RelinkOp?
  }

  // Only provisioning and recovery change which replicas exist.
  lemma StepKeys(c: State, op: Op)
    requires !(op.RecoverOp? && Accepted(c, op))
    ensures Step(c, op).state.replicas.Keys ==
      c.replicas.Keys + if op.ProvisionOp? && Accepted(c, op) then {op.replicaId} else {}
  {
    if op.FailoverOp? && FailoverApplies(c, op.setId, op.failed) {
      FailoverReplicas(c, op.setId, op.failed, op.reason, op.mono, op.wall);
    } else if IsFleetOp(op) {
      FleetOpKeys(c, op);
    } else if !op.FailoverOp? {
      ReplicaOpKeys(c, op);
    }
  }

  lemma FleetOpKeys(c: State, op: Op)
    requires IsFleetOp(op) && !(op.RecoverOp? && Accepted(c, op))
    ensures Step(c, op).state.replicas.Keys ==
      c.replicas.Keys + if op.ProvisionOp? && Accepted(c, op) then {op.replicaId} else {}
  {
  }

  lemma ReplicaOpKeys(c: State, op: Op)
    requires !IsFleetOp(op) && !op.FailoverOp?
    ensures Step(c, op).state.replicas.Keys == c.replicas.Keys
  {
  }

  // Between recoveries a set changes nothing but its lifecycle, along an edge of its table.
  ghost predicate SetEvolves(s: ReplicaSetState, s': ReplicaSetState) {
    s' == s.(lifecycle := s'.lifecycle) && (s'.lifecycle == s.lifecycle || CanTransitionSet(s.lifecycle, s'.lifecycle))
  }

  lemma DerivedEvolves(s: ReplicaSetState, healthy: nat)
    ensures SetEvolves(s, DerivedSet(s, healthy))
  {
  }

  lemma StepSets(c: State, op: Op, sid: ReplicaSetId)
    requires sid in c.sets && !(op.RecoverOp? && Accepted(c, op))
    ensures sid in Step(c, op).state.sets && SetEvolves(c.sets[sid], Step(c, op).state.sets[sid])
  {
    if op.PromoteOp? {
      PromoteOpSets(c, op, sid);
    } else if op.FailoverOp? {
      FailoverOpSets(c, op, sid);
    }
  }

  // Re-deriving a set's lifecycle touches that set alone.
  lemma RederivedSets(c: State, setId: ReplicaSetId, sid: ReplicaSetId)
    requires setId in c.sets && sid in c.sets
    ensures sid in Rederived(c, setId).sets && SetEvolves(c.sets[sid], Rederived(c, setId).sets[sid])
  {
    DerivedEvolves(c.sets[setId], |HealthyMembers(c.replicas, setId)|);
  }

  lemma PromoteOpSets(c: State, op: Op, sid: ReplicaSetId)
    requires sid in c.sets && op.PromoteOp?
    ensures sid in Step(c, op).state.sets && SetEvolves(c.sets[sid], Step(c, op).state.sets[sid])
  {
    if Accepted(c, op) {
      var c1 := Step(c, op).state.(sets := c.sets);
      RederivedSets(c1, c.replicas[op.replicaId].setId, sid);
    }
  }

  lemma FailoverOpSets(c: State, op: Op, sid: ReplicaSetId)
    requires sid in c.sets && op.FailoverOp?
    ensures sid in Step(c, op).state.sets && SetEvolves(c.sets[sid], Step(c, op).state.sets[sid])
  {
    if FailoverSucceeds(c, op.setId, op.failed) {
      var c1 := Step(c, op).state.(sets := c.sets);
      RederivedSets(c1, op.setId, sid);
    }
  }

  // A set is only ever added by creating it.
  lemma StepNewSets(c: State, op: Op, sid: ReplicaSetId)
    requires sid !in c.sets && sid in Step(c, op).state.sets && !(op.RecoverOp? && Accepted(c, op))
    ensures op.CreateSetOp? && op.newSet.id == sid && Step(c, op).state.sets[sid] == op.newSet && CountsValid(op.newSet)
  {
  }

  // The source of identities is never replaced or rewound.
  lemma StepSource(c: State, op: Op)
    ensures Step(c, op).state.source == c.source && Step(c, op).state.drawn >= c.drawn
  {
  }
}
