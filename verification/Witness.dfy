// Concrete runs: the theorems about serving replicas have instances, and the documented "exactly
// one primary" has a counterexample that a caller can bring about.
module Witness {
  import opened Base
  import opened Identity
  import opened Enums
  import opened Records
  import opened Transition
  import opened Compatibility
  import opened Authority
  import opened ControllerModel
  import opened Moves
  import opened Invariants
  import opened Runs
  import opened Primary
  import opened Evidence
  import Effects
  import Recovery
  import Snapshot
  import Order = FailoverOrder

  const SET: Id := Id(0, 1)
  const FIRST: Id := Id(0, 2)
  const SECOND: Id := Id(0, 3)
  const WORKER: Id := Id(0, 4)
  const BOOT: Id := Id(0, 5)
  const PLACEMENT: Id := Id(0, 6)
  const EPOCH: Id := Id(0, 7)
  const GENERATION: Id := Id(0, 8)

  const NO_COMPUTE: ComputeCapability := ComputeCapability(0, 0)
  const NO_DEVICE: DeviceCapability := DeviceCapability(NoAccelerator, [], NO_COMPUTE, 0)
  const NO_DEMANDS: CompatibilityRequirements := CompatibilityRequirements(
    NULL_ID, [], [], [], NoBackend, [], [], NO_COMPUTE, NumericMode.Unknown, NULL_ID, [], [])
  const NO_PROFILE: ReplicaCompatibility := ReplicaCompatibility(
    NULL_ID, [], [], [], NoBackend, [], [], NO_COMPUTE, NumericMode.Unknown, NULL_ID, [], [])

  // Every promotion gate is demanded.
  const STRICT: PolicyBundle := PolicyBundle(
    HealthPolicy(true, 0, 0, 0, 0, 0, 0, 0, HealthState.Unknown),
    WarmingPolicy(false, false, false, false, false, false, false, false, false, false, 0, 0),
    DrainingPolicy(false, false, false, 0, 0),
    PromotionPolicy(true, true, Healthy, true, true, true, true, false, false),
    FailoverPolicy(true, true, 0, false, false))

  // A set of up to two replicas, one of which should be healthy.
  const PAIR: ReplicaSetState := ReplicaSetState(
    SET, NULL_ID, NULL_ID, NULL_ID, 2, 1, 2, NULL_ID, NULL_ID, GENERATION, NULL_ID,
    Created, NO_DEMANDS, STRICT, PlacementPolicy([], [], false, [], [], [], [], 0),
    NoBackend, [], NO_COMPUTE, 0, 0)

  const REGISTRATION: WorkerRegistration :=
    WorkerRegistration(WORKER, BOOT, NULL_ID, ResourceInventory(0, 0, 0, [], []), NULL_ID, 1)

  const ALL_SET: ReadinessRecord := ReadinessRecord(
    ReadinessState.Ready, ReadinessFactors(true, true, true, true, true, true, true, true, true, true, true), 0, 0, [])

  function Fit(round: Id): HealthEvidence {
    HealthEvidence(Healthy, Measured, [], 0, 0, 0, 0, round, [])
  }

  // ----- The run -----

  function Provision(rid: ReplicaId): Op {
    ProvisionOp(rid, SET, WORKER, NO_PROFILE, NO_DEVICE, 1, 0, 0)
  }

  function Promotion(rid: ReplicaId): Op {
    PromoteOp(rid, PromotionState.Primary, WORKER, BOOT, 0, 0)
  }

  const SETUP: seq<Op> :=
    [RegisterWorkerOp(REGISTRATION), CreateSetOp(PAIR, EPOCH), Provision(FIRST), Provision(SECOND)]

  // From DECLARED to READY: placed, started, warmed, ready and healthy.
  function BringUp(rid: ReplicaId, round: Id): seq<Op> {
    [AllocateOp(rid, PLACEMENT), StartOp(rid, 0, 0), WarmOp(rid, EMPTY_WARMING_RECORD, WORKER, BOOT, 0),
     ReadinessOp(rid, ALL_SET, WORKER, BOOT), HealthOp(rid, Fit(round), WORKER, BOOT, 0)]
  }

  // Both replicas are brought up and FIRST is promoted.
  function OnePromoted(source: nat -> Id): seq<Op> {
    BroughtUp(source) + [Promotion(FIRST)]
  }

  function BothPromoted(source: nat -> Id): seq<Op> {
    OnePromoted(source) + [Promotion(SECOND)]
  }

  // ----- Its states -----

  lemma RunOne(c: State, ops: seq<Op>, k: nat)
    requires k < |ops|
    ensures Run(c, ops[..k + 1]) == Step(Run(c, ops[..k]), ops[k]).state
  {
    assert ops[..k + 1][..k] == ops[..k];
  }

  lemma RunLast(c: State, ops: seq<Op>, op: Op)
    ensures Run(c, ops + [op]) == Step(Run(c, ops), op).state
  {
    assert (ops + [op])[..|ops|] == ops;
  }

  lemma {:induction false} RunTogether(c: State, a: seq<Op>, b: seq<Op>)
    ensures Run(c, a + b) == Run(Run(c, a), b)
    decreases |b|
  {
    if b == [] {
      assert a + b == a;
    } else {
      var n := |b| - 1;
      assert (a + b)[..|a| + n] == a + b[..n];
      RunTogether(c, a, b[..n]);
    }
  }

  function WarmedUp(r: ReplicaState): ReplicaState {
    Warmed(Started(Allocated(r, PLACEMENT), 0, 0), EMPTY_WARMING_RECORD, 0)
  }

  function Up(r: ReplicaState, round: Id): ReplicaState {
    Observed(Readied(WarmedUp(r), ALL_SET), Fit(round), 0)
  }

  // A replica as provisioned by the set-up, with its generation and first health round.
  function Fledgling(rid: ReplicaId, generation: Id, round: Id): ReplicaState {
    ReplicaState(
      rid, SET, generation, NULL_ID, WORKER, BOOT, NULL_ID, NULL_ID, NoBackend, [], [], NoAccelerator, NO_COMPUTE,
      NotResident, Cold, ReadinessState.Unknown, HealthState.Unknown, Declared, NULL_ID, Pending, NotPromoted, Nobody,
      false, 0, 0, 1, 0, 0, EMPTY_HEALTH_RECORD, EMPTY_READINESS_RECORD, EMPTY_WARMING_RECORD,
      EPOCH, GENERATION, round, NULL_ID, [], NO_PROFILE)
  }

  function Staffed(source: nat -> Id): State {
    State(map[SET := PAIR.(lifecycle := Provisioning)],
          map[FIRST := Fledgling(FIRST, source(0), source(1)), SECOND := Fledgling(SECOND, source(2), source(3))],
          map[WORKER := REGISTRATION], [], [], [], EPOCH, source, 4)
  }

  function Registered(source: nat -> Id): State {
    Init(source).(workers := map[WORKER := REGISTRATION])
  }

  function Founded(source: nat -> Id): State {
    Registered(source).(sets := map[SET := PAIR], epoch := EPOCH)
  }

  function HalfStaffed(source: nat -> Id): State {
    Founded(source).(sets := map[SET := PAIR.(lifecycle := Provisioning)],
                     replicas := map[FIRST := Fledgling(FIRST, source(0), source(1))], drawn := 2)
  }

  lemma Registers(source: nat -> Id)
    ensures Step(Init(source), SETUP[0]).state == Registered(source)
  {
    assert Step(Init(source), SETUP[0]).state.replicas == map[];
  }

  lemma Founds(source: nat -> Id)
    ensures Step(Registered(source), SETUP[1]).state == Founded(source)
  {
  }

  lemma ProvisionsFirst(source: nat -> Id)
    ensures Step(Founded(source), SETUP[2]).state == HalfStaffed(source)
  {
    assert Members(Founded(source).replicas, SET) == {};
  }

  lemma ProvisionsSecond(source: nat -> Id)
    ensures Step(HalfStaffed(source), SETUP[3]).state == Staffed(source)
  {
    assert Members(HalfStaffed(source).replicas, SET) == {FIRST};
  }

  lemma SetupRuns(source: nat -> Id)
    ensures Run(Init(source), SETUP) == Staffed(source)
  {
    var c0 := Init(source);
    RunOne(c0, SETUP, 0);
    RunOne(c0, SETUP, 1);
    RunOne(c0, SETUP, 2);
    RunOne(c0, SETUP, 3);
    Registers(source);
    Founds(source);
    ProvisionsFirst(source);
    ProvisionsSecond(source);
    assert SETUP[..4] == SETUP;
  }

  lemma PutTwice(c: State, rid: ReplicaId, x: ReplicaState, y: ReplicaState)
    ensures Put(Put(c, rid, x), rid, y) == Put(c, rid, y)
  {
    assert c.replicas[rid := x][rid := y] == c.replicas[rid := y];
  }

  // One step of the bring-up: with the replica in state `r`, `op` takes it to `next`.
  predicate Brings(c: State, rid: ReplicaId, r: ReplicaState, op: Op, next: ReplicaState) {
    && rid in c.replicas && BootMatches(r, WORKER, BOOT) && r.coordinatorEpoch == c.epoch
    && (|| (op == AllocateOp(rid, PLACEMENT) && r.lifecycle.Declared? && next == Allocated(r, PLACEMENT))
        || (op == StartOp(rid, 0, 0) && r.lifecycle.Allocating? && next == Started(r, 0, 0))
        || (op == WarmOp(rid, EMPTY_WARMING_RECORD, WORKER, BOOT, 0) && r.lifecycle.Starting?
            && next == Warmed(r, EMPTY_WARMING_RECORD, 0))
        || (op == ReadinessOp(rid, ALL_SET, WORKER, BOOT) && r.lifecycle.Warming? && next == Readied(r, ALL_SET))
        || (op == HealthOp(rid, Fit(r.healthGeneration), WORKER, BOOT, 0) && r.lifecycle.Ready?
            && next == Observed(r, Fit(r.healthGeneration), 0)))
  }

  lemma Advances(c: State, rid: ReplicaId, r: ReplicaState, op: Op, next: ReplicaState)
    requires Brings(c, rid, r, op, next)
    ensures Step(Put(c, rid, r), op).state == Put(c, rid, next)
  {
    PutTwice(c, rid, r, next);
  }

  lemma AdvancesBy(c: State, rid: ReplicaId, ops: seq<Op>, k: nat, r: ReplicaState, next: ReplicaState)
    requires k < |ops| && Run(c, ops[..k]) == Put(c, rid, r) && Brings(c, rid, r, ops[k], next)
    ensures Run(c, ops[..k + 1]) == Put(c, rid, next)
  {
    Advances(c, rid, r, ops[k], next);
    RunOne(c, ops, k);
  }

  // A replica at one stage of the bring-up after another.
  function Stages(r: ReplicaState, round: Id): seq<ReplicaState> {
    var (r1, r2) := (Allocated(r, PLACEMENT), Started(Allocated(r, PLACEMENT), 0, 0));
    var (r3, r4) := (WarmedUp(r), Readied(WarmedUp(r), ALL_SET));
    [r, r1, r2, r3, r4, Up(r, round)]
  }

  lemma StagesFollow(c: State, rid: ReplicaId, round: Id)
    requires rid in c.replicas && c.replicas[rid].lifecycle.Declared? && BootMatches(c.replicas[rid], WORKER, BOOT)
    requires c.replicas[rid].coordinatorEpoch == c.epoch && c.replicas[rid].healthGeneration == round
    ensures var (ops, rs) := (BringUp(rid, round), Stages(c.replicas[rid], round));
      forall k | 0 <= k < 5 :: Brings(c, rid, rs[k], ops[k], rs[k + 1])
  {
  }

  lemma {:induction false} StagesRun(c: State, rid: ReplicaId, ops: seq<Op>, rs: seq<ReplicaState>, k: nat)
    requires k <= |ops| && |rs| == |ops| + 1 && rid in c.replicas && rs[0] == c.replicas[rid]
    requires forall i | 0 <= i < |ops| :: Brings(c, rid, rs[i], ops[i], rs[i + 1])
    ensures Run(c, ops[..k]) == Put(c, rid, rs[k])
  {
    if k == 0 {
      assert Put(c, rid, rs[0]) == c;
    } else {
      StagesRun(c, rid, ops, rs, k - 1);
      AdvancesBy(c, rid, ops, k - 1, rs[k - 1], rs[k]);
    }
  }

  lemma BringUpRuns(c: State, rid: ReplicaId, round: Id)
    requires rid in c.replicas && c.replicas[rid].lifecycle.Declared? && BootMatches(c.replicas[rid], WORKER, BOOT)
    requires c.replicas[rid].coordinatorEpoch == c.epoch && c.replicas[rid].healthGeneration == round
    ensures Run(c, BringUp(rid, round)) == Put(c, rid, Up(c.replicas[rid], round))
  {
    var ops := BringUp(rid, round);
    StagesFollow(c, rid, round);
    StagesRun(c, rid, ops, Stages(c.replicas[rid], round), 5);
    assert ops[..5] == ops;
  }

  // ----- A fit replica serves once it is promoted -----

  predicate Promising(c: State, rid: ReplicaId) {
    && rid in c.replicas && SET in c.sets
    && c.sets[SET] == PAIR.(lifecycle := c.sets[SET].lifecycle)
    && (c.sets[SET].lifecycle.Provisioning? || c.sets[SET].lifecycle.Available?)
    && var r := c.replicas[rid];
    && r.setId == SET && r.compatibility == NO_PROFILE && BootMatches(r, WORKER, BOOT)
    && r.coordinatorEpoch == c.epoch && CurrentBootFor(c, rid) == BOOT && r.capacityTotal != 0
    && r.lifecycle.Ready? && r.readiness.Ready? && r.warmth.Warm? && r.health.Healthy? && r.placement.Assigned?
  }

  lemma PromotionIsAccepted(c: State, rid: ReplicaId)
    requires Inv(c) && Promising(c, rid)
    ensures Accepted(c, Promotion(rid))
  {
    assert ReplicaOk(c.replicas[rid], rid, c.sets);
    assert Promotable(c.replicas[rid], c.sets[SET], c.epoch, PromotionState.Primary);
  }

  // The promoted replica is healthy, and the set holds at most two.
  lemma SomeAreHealthy(c: State, replicas: map<ReplicaId, ReplicaState>, rid: ReplicaId)
    requires WithinCapacity(c) && SET in c.sets && c.sets[SET].maxReplicas == 2 && rid in replicas
    requires replicas[rid].setId == SET && replicas[rid].health.Healthy?
    requires Members(replicas, SET) == Members(c.replicas, SET)
    ensures 1 <= |HealthyMembers(replicas, SET)| <= 2
  {
    SubsetCardinality(HealthyMembers(replicas, SET), Members(replicas, SET));
    SubsetCardinality({rid}, HealthyMembers(replicas, SET));
  }

  lemma PromotionOpensTheSet(c: State, rid: ReplicaId)
    requires Inv(c) && Promising(c, rid)
    ensures var c' := Step(c, Promotion(rid)).state;
      c'.sets == c.sets[SET := PAIR.(lifecycle := Available)] && c'.workers == c.workers && c'.epoch == c.epoch
  {
    var recorded := PromotionRecorded(c, rid, PromotionState.Primary, 0, 0);
    PromotionIsAccepted(c, rid);
    assert Members(recorded.replicas, SET) == Members(c.replicas, SET);
    SomeAreHealthy(c, recorded.replicas, rid);
    PairBecomesAvailable(c.sets[SET].lifecycle, |HealthyMembers(recorded.replicas, SET)|);
    Effects.PromotionSteps(c, rid, PromotionState.Primary, WORKER, BOOT, 0, 0);
  }

  lemma PairBecomesAvailable(l: ReplicaSetLifecycle, healthy: nat)
    requires (l.Provisioning? || l.Available?) && 1 <= healthy <= 2
    ensures DerivedSet(PAIR.(lifecycle := l), healthy) == PAIR.(lifecycle := Available)
  {
  }

  lemma PromotionSparesOthers(c: State, rid: ReplicaId, x: ReplicaId)
    requires Accepted(c, Promotion(rid)) && x in c.replicas
    ensures x in Step(c, Promotion(rid)).state.replicas
    ensures Step(c, Promotion(rid)).state.replicas[x] ==
            if x == rid then Promoted(c.replicas[x], PromotionState.Primary, Fresh(c, 0)) else c.replicas[x]
  {
    StepMoves(c, Promotion(rid), x);
  }

  // What promoting a promising replica does to the state.
  ghost predicate Promotes(c: State, c': State, rid: ReplicaId) {
    && Inv(c) && Inv(c') && Promising(c, rid) && c'.replicas.Keys == c.replicas.Keys
    && c'.sets == c.sets[SET := PAIR.(lifecycle := Available)] && c'.workers == c.workers && c'.epoch == c.epoch
    && (forall x <- c.replicas :: c'.replicas[x] ==
          if x == rid then Promoted(c.replicas[x], PromotionState.Primary, Fresh(c, 0)) else c.replicas[x])
  }

  lemma PromotionTouchesOne(c: State, rid: ReplicaId)
    requires Accepted(c, Promotion(rid))
    ensures var c' := Step(c, Promotion(rid)).state;
      && c'.replicas.Keys == c.replicas.Keys
      && (forall x <- c.replicas :: c'.replicas[x] ==
            if x == rid then Promoted(c.replicas[x], PromotionState.Primary, Fresh(c, 0)) else c.replicas[x])
  {
    StepKeys(c, Promotion(rid));
    forall x <- c.replicas
      ensures Step(c, Promotion(rid)).state.replicas[x] ==
              if x == rid then Promoted(c.replicas[x], PromotionState.Primary, Fresh(c, 0)) else c.replicas[x]
    {
      PromotionSparesOthers(c, rid, x);
    }
  }

  lemma PromotionPromotes(c: State, rid: ReplicaId)
    requires Inv(c) && Promising(c, rid)
    ensures Promotes(c, Step(c, Promotion(rid)).state, rid)
  {
    PromotionIsAccepted(c, rid);
    PromotionOpensTheSet(c, rid);
    PromotionTouchesOne(c, rid);
    StepKeepsInv(c, Promotion(rid));
  }

  lemma PromotionServes(c: State, c': State, rid: ReplicaId)
    requires Promotes(c, c', rid)
    ensures Servable(c', rid)
  {
    GateRefinement(c', rid);
  }

  lemma PromotionKeepsServing(c: State, c': State, rid: ReplicaId, x: ReplicaId)
    requires Promotes(c, c', rid) && x != rid && Servable(c, x) && c.replicas[x].setId == SET
    ensures Servable(c', x)
  {
    GateRefinement(c, x);
    GateRefinement(c', x);
  }

  lemma PromotionKeepsPromise(c: State, c': State, rid: ReplicaId, x: ReplicaId)
    requires Promotes(c, c', rid) && x != rid && Promising(c, x)
    ensures Promising(c', x)
  {
  }

  // ----- The results -----

  function BroughtUp(source: nat -> Id): seq<Op> {
    SETUP + BringUp(FIRST, source(1)) + BringUp(SECOND, source(3))
  }

  function Ready(source: nat -> Id): State {
    Put(Put(Staffed(source), FIRST, Up(Fledgling(FIRST, source(0), source(1)), source(1))),
        SECOND, Up(Fledgling(SECOND, source(2), source(3)), source(3)))
  }

  lemma BroughtUpRuns(source: nat -> Id)
    ensures Run(Init(source), BroughtUp(source)) == Ready(source)
  {
    var (c0, c) := (Init(source), Staffed(source));
    RunTogether(c0, SETUP + BringUp(FIRST, source(1)), BringUp(SECOND, source(3)));
    RunTogether(c0, SETUP, BringUp(FIRST, source(1)));
    SetupRuns(source);
    BringUpRuns(c, FIRST, source(1));
    BringUpRuns(Put(c, FIRST, Up(c.replicas[FIRST], source(1))), SECOND, source(3));
  }

  predicate RecoversNowhere(ops: seq<Op>) {
    forall op <- ops :: !op.RecoverOp?
  }

  lemma LawfulWithoutRecovery(c: State, ops: seq<Op>)
    requires RecoversNowhere(ops)
    ensures LawfulRun(c, ops)
  {
  }

  lemma BringUpRecoversNowhere(source: nat -> Id)
    ensures RecoversNowhere(BroughtUp(source))
    ensures RecoversNowhere(OnePromoted(source)) && RecoversNowhere(BothPromoted(source))
  {
    assert RecoversNowhere(SETUP) && RecoversNowhere(BringUp(FIRST, source(1)));
    assert RecoversNowhere(BringUp(SECOND, source(3)));
  }

  lemma BroughtUpKeepsInv(source: nat -> Id)
    requires forall n: nat :: !source(n).IsNull()
    ensures Inv(Run(Init(source), BroughtUp(source)))
  {
    InitHolds(source);
    BringUpRecoversNowhere(source);
    LawfulWithoutRecovery(Init(source), BroughtUp(source));
    RunKeepsInv(Init(source), BroughtUp(source));
  }

  // Both replicas are fit to serve.
  predicate BothPromise(c: State) {
    Promising(c, FIRST) && Promising(c, SECOND) && c.replicas.Keys == {FIRST, SECOND}
  }

  lemma ReadyIsPromising(source: nat -> Id)
    ensures BothPromise(Ready(source))
  {
  }

  // FIRST serves, SECOND is fit to.
  ghost predicate FirstServes(c: State) {
    && Inv(c) && c.replicas.Keys == {FIRST, SECOND} && c.replicas[FIRST].setId == SET
    && Servable(c, FIRST) && Promising(c, SECOND)
  }

  lemma FirstIsPromoted(c: State, c': State)
    requires Promotes(c, c', FIRST) && BothPromise(c)
    ensures FirstServes(c')
  {
    PromotionServes(c, c', FIRST);
    PromotionKeepsPromise(c, c', FIRST, SECOND);
  }

  lemma OnePromotedRuns(source: nat -> Id)
    requires forall n: nat :: !source(n).IsNull()
    ensures FirstServes(Run(Init(source), OnePromoted(source)))
  {
    var (c, c') := (Run(Init(source), BroughtUp(source)), Run(Init(source), OnePromoted(source)));
    BroughtUpRuns(source);
    BroughtUpKeepsInv(source);
    ReadyIsPromising(source);
    RunLast(Init(source), BroughtUp(source), Promotion(FIRST));
    PromotionPromotes(c, FIRST);
    FirstIsPromoted(c, c');
  }

  // The evidence theorem has an instance: after this run FIRST serves under a policy that requires health.
  lemma AReplicaServes(source: nat -> Id)
    requires forall n: nat :: !source(n).IsNull()
    ensures var (c0, ops) := (Init(source), OnePromoted(source));
      LawfulRun(c0, ops) && Servable(Run(c0, ops), FIRST) && HealthRequired(Run(c0, ops), FIRST)
  {
    OnePromotedRuns(source);
    BringUpRecoversNowhere(source);
    LawfulWithoutRecovery(Init(source), OnePromoted(source));
  }

  lemma SecondIsPromoted(c: State, c': State)
    requires FirstServes(c) && Promotes(c, c', SECOND)
    ensures Servable(c', FIRST) && Servable(c', SECOND)
    ensures c'.replicas[FIRST].setId == c'.replicas[SECOND].setId
  {
    PromotionServes(c, c', SECOND);
    PromotionKeepsServing(c, c', SECOND, FIRST);
  }

  // "Exactly one primary holds serving authority per replica set at a time" fails here: from a fresh
  // controller, with every promotion gate demanded, two replicas of one set both pass the whole gate.
  lemma TwoPrimaries(source: nat -> Id)
    requires forall n: nat :: !source(n).IsNull()
    ensures var (c0, ops) := (Init(source), BothPromoted(source));
      && LawfulRun(c0, ops)
      && Servable(Run(c0, ops), FIRST) && Servable(Run(c0, ops), SECOND)
      && Run(c0, ops).replicas[FIRST].setId == Run(c0, ops).replicas[SECOND].setId
  {
    var (c, c') := (Run(Init(source), OnePromoted(source)), Run(Init(source), BothPromoted(source)));
    OnePromotedRuns(source);
    RunLast(Init(source), OnePromoted(source), Promotion(SECOND));
    PromotionPromotes(c, SECOND);
    SecondIsPromoted(c, c');
    BringUpRecoversNowhere(source);
    LawfulWithoutRecovery(Init(source), BothPromoted(source));
  }

  const FAILOVER: Op := FailoverOp(SET, FIRST, [], 0, 0)

  lemma SecondIsChosen(c: State)
    requires FirstServes(c)
    ensures FailoverSucceeds(c, SET, FIRST) && Chosen(c, SET, FIRST) == SECOND
  {
    assert ReplicaOk(c.replicas[SECOND], SECOND, c.sets);
    assert IsCandidate(c.replicas[SECOND], c.sets[SET]);
    assert Order.CandidateOf(SECOND, c.replicas[SECOND]) in Candidates(c, SET, FIRST);
  }

  lemma SecondTakesOver(c: State)
    requires FirstServes(c)
    ensures Servable(Step(c, FAILOVER).state, SECOND) && !Servable(Step(c, FAILOVER).state, FIRST)
  {
    SecondIsChosen(c);
    ReplacementServes(c, FAILOVER);
    FailedCannotServe(c, FAILOVER);
  }

  // Failing over from the one primary hands the set over: SECOND serves, FIRST no longer does.
  lemma FailoverHandsOver(source: nat -> Id)
    requires forall n: nat :: !source(n).IsNull()
    ensures var (c0, ops) := (Init(source), OnePromoted(source) + [FAILOVER]);
      LawfulRun(c0, ops) && Servable(Run(c0, ops), SECOND) && !Servable(Run(c0, ops), FIRST)
  {
    OnePromotedRuns(source);
    RunLast(Init(source), OnePromoted(source), FAILOVER);
    SecondTakesOver(Run(Init(source), OnePromoted(source)));
    BringUpRecoversNowhere(source);
    LawfulWithoutRecovery(Init(source), OnePromoted(source) + [FAILOVER]);
  }

  // ----- Checkpoints -----

  // Contents that pass validation although the replica carries another generation than its set.
  const MISMATCHED: RecoveredState := RecoveredState(
    map[SET := PAIR], map[FIRST := Fledgling(FIRST, EPOCH, BOOT).(setGeneration := EPOCH)], [], [], [], [])

  // They are installed, and the invariant is lost: recovery is lawful for good contents only.
  lemma MismatchIsInstalled(c: State)
    ensures var r := MISMATCHED.replicas[FIRST]; r.setId == SET && !Refers(r, MISMATCHED.sets[SET])
    ensures Recover(c, MISMATCHED) == Outcome(Installed(c, MISMATCHED), OpStatus.Ok)
    ensures !Inv(Recover(c, MISMATCHED).state)
  {
    var c' := Installed(c, MISMATCHED);
    assert FIRST in c'.replicas && !ReplicaOk(c'.replicas[FIRST], FIRST, c'.sets);
  }

  function Nameless(source: nat -> Id): State {
    Init(source).(sets := map[NULL_ID := PAIR.(id := NULL_ID)], epoch := EPOCH)
  }

  const NAMELESS_SET: Op := CreateSetOp(PAIR.(id := NULL_ID), EPOCH)

  lemma NamelessIsReached(source: nat -> Id)
    requires forall n: nat :: !source(n).IsNull()
    ensures LawfulRun(Init(source), [NAMELESS_SET]) && Run(Init(source), [NAMELESS_SET]) == Nameless(source)
  {
    RunLast(Init(source), [], NAMELESS_SET);
    LawfulWithoutRecovery(Init(source), [NAMELESS_SET]);
    assert [] + [NAMELESS_SET] == [NAMELESS_SET];
  }

  lemma NamelessIsRefused(source: nat -> Id, d: State)
    requires Inv(Nameless(source))
    ensures Recover(d, Recovery.Own(Nameless(source))) == Outcome(d, Rejected)
    ensures |Snapshot.SnapshotOf(Nameless(source))| < U64_MOD ==>
              Recovery.Recovered(d, Snapshot.SnapshotOf(Nameless(source))) == Outcome(d, Rejected)
  {
    Recovery.OwnIsValid(Nameless(source));
    if |Snapshot.SnapshotOf(Nameless(source))| < U64_MOD { Recovery.SelfRecovery(Nameless(source), d); }
  }

  // The controller accepts a set with the null identity, and then refuses its own checkpoint.
  lemma NamelessSetIsNotRecovered(source: nat -> Id, d: State)
    requires forall n: nat :: !source(n).IsNull()
    ensures LawfulRun(Init(source), [NAMELESS_SET])
    ensures var c := Run(Init(source), [NAMELESS_SET]);
      && Recover(d, Recovery.Own(c)) == Outcome(d, Rejected)
      && (|Snapshot.SnapshotOf(c)| < U64_MOD ==> Recovery.Recovered(d, Snapshot.SnapshotOf(c)) == Outcome(d, Rejected))
  {
    InitHolds(source);
    NamelessIsReached(source);
    RunKeepsInv(Init(source), [NAMELESS_SET]);
    NamelessIsRefused(source, d);
  }
}
