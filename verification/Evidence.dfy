// What must have happened to a replica before it serves, over every run.
module Evidence {
  import opened Base
  import opened Identity
  import opened Enums
  import opened Records
  import opened Transition
  import opened Compatibility
  import opened Authority
  import opened ControllerModel
  import opened Moves
  import opened Invariants
  import opened Runs
  import opened Primary

  // What one step means to one replica.
  datatype Event = Absent | Provisioned | Recovered | Moved(move: Move)

  ghost function EventOf(c: State, op: Op, rid: ReplicaId): Event {
    if Rebirth(c, op, rid) then (if op.RecoverOp? then Event.Recovered else Provisioned)
    else if rid in c.replicas then Moved(MoveOf(c, op, rid))
    else Absent
  }

  ghost function History(c: State, ops: seq<Op>, rid: ReplicaId): (h: seq<Event>)
    ensures |h| == |ops|
  {
    if ops == [] then [] else
      var n := |ops| - 1;
      History(c, ops[..n], rid) + [EventOf(Run(c, ops[..n]), ops[n], rid)]
  }

  predicate IsBirth(e: Event) {
    e.Provisioned? || e.Recovered?
  }

  predicate IsPlacement(e: Event) {
    e.Moved? && e.move.Allocate? && !e.move.placementId.IsNull()
  }

  predicate IsFullWarming(e: Event) {
    e.Moved? && e.move.WarmUp? && IsFullWarm(e.move.warming)
  }

  predicate IsGrant(e: Event) {
    e.Moved? && Grants(e.move)
  }

  predicate IsReport(e: Event) {
    e.Moved? && e.move.Report?
  }

  predicate IsObservation(e: Event) {
    e.Moved? && e.move.Observe?
  }

  // The last event of its kind stands at position i.
  ghost predicate IsLast(h: seq<Event>, i: nat, kind: Event -> bool) {
    i < |h| && kind(h[i]) && forall j :: i < j < |h| ==> !kind(h[j])
  }

  ghost predicate WarmBetween(h: seq<Event>, lo: nat, hi: nat) {
    exists w: nat :: lo < w < hi <= |h| && IsFullWarming(h[w])
  }

  ghost predicate PlacedAfter(h: seq<Event>, lo: nat) {
    exists a: nat :: lo < a < |h| && IsPlacement(h[a])
  }

  ghost predicate GrantedAfter(h: seq<Event>, lo: nat, p: nat, warm: bool) {
    lo < p && IsLast(h, p, IsGrant) && (warm ==> WarmBetween(h, lo, p))
  }

  ghost predicate ReportedAfter(h: seq<Event>, lo: nat, q: nat) {
    lo < q && IsLast(h, q, IsReport) && h[q].move.readiness.factors.AllSet()
  }

  ghost predicate ObservedAfter(h: seq<Event>, lo: nat, e: nat) {
    lo < e && IsLast(h, e, IsObservation) && HealthOk(h[e].move.evidence.state)
  }

  // The history since `start` accounts for everything that speaks for the replica.
  ghost predicate Explains(h: seq<Event>, start: nat, r: ReplicaState, healthRequired: bool) {
    && IsLast(h, start, IsBirth)
    && (r.placement.Assigned? && h[start].Provisioned? ==> PlacedAfter(h, start))
    && (r.warmth.Warm? ==> WarmBetween(h, start, |h|))
    && (r.servingEligible ==> exists p: nat :: GrantedAfter(h, start, p, r.warmth.Warm?))
    && (r.readiness.Ready? ==> exists q: nat :: ReportedAfter(h, start, q))
    && (healthRequired && HealthOk(r.health) ==> exists e: nat :: ObservedAfter(h, start, e))
  }

  // ----- One more event -----

  lemma LastStays(h: seq<Event>, i: nat, kind: Event -> bool, e: Event)
    requires IsLast(h, i, kind) && !kind(e)
    ensures IsLast(h + [e], i, kind)
  {
  }

  lemma PlacementStays(h: seq<Event>, start: nat, r: ReplicaState, m: Move)
    requires start < |h|
    requires r.placement.Assigned? ==> PlacedAfter(h, start)
    ensures Apply(m, r).placement.Assigned? ==> PlacedAfter(h + [Moved(m)], start)
  {
    var h' := h + [Moved(m)];
    if m.Allocate? {
      assert h'[|h|] == Moved(m);
    } else if r.placement.Assigned? {
      var a: nat :| start < a < |h| && IsPlacement(h[a]);
      assert h'[a] == h[a];
    }
  }

  lemma WarmthStays(h: seq<Event>, start: nat, r: ReplicaState, m: Move)
    requires start < |h|
    requires r.warmth.Warm? ==> WarmBetween(h, start, |h|)
    ensures Apply(m, r).warmth.Warm? ==> WarmBetween(h + [Moved(m)], start, |h| + 1)
  {
    var h' := h + [Moved(m)];
    if m.WarmUp? {
      assert h'[|h|] == Moved(m);
    } else if r.warmth.Warm? {
      var w: nat :| start < w < |h| && IsFullWarming(h[w]);
      assert h'[w] == h[w];
    }
  }

  lemma WarmBetweenStays(h: seq<Event>, lo: nat, hi: nat, e: Event)
    requires WarmBetween(h, lo, hi)
    ensures WarmBetween(h + [e], lo, hi)
  {
    var w: nat :| lo < w < hi && IsFullWarming(h[w]);
    assert (h + [e])[w] == h[w];
  }

  lemma GrantStays(h: seq<Event>, start: nat, r: ReplicaState, m: Move, c: State)
    requires start < |h| && Enabled(m, r, c) && (r.servingEligible ==> r.lifecycle.Serving?)
    requires r.warmth.Warm? ==> WarmBetween(h, start, |h|)
    requires r.servingEligible ==> exists p: nat :: GrantedAfter(h, start, p, r.warmth.Warm?)
    ensures Apply(m, r).servingEligible ==>
              exists p: nat :: GrantedAfter(h + [Moved(m)], start, p, Apply(m, r).warmth.Warm?)
  {
    var (h', r') := (h + [Moved(m)], Apply(m, r));
    EligibilityAfterMove(m, r);
    if Grants(m) {
      assert h'[|h|] == Moved(m) && r'.warmth == r.warmth;
      if r.warmth.Warm? { WarmBetweenStays(h, start, |h|, Moved(m)); }
      assert GrantedAfter(h', start, |h|, r'.warmth.Warm?);
    } else if r'.servingEligible {
      var p: nat :| GrantedAfter(h, start, p, r.warmth.Warm?);
      LastStays(h, p, IsGrant, Moved(m));
      assert r'.warmth == r.warmth;
      if r.warmth.Warm? { WarmBetweenStays(h, start, p, Moved(m)); }
      assert GrantedAfter(h', start, p, r'.warmth.Warm?);
    }
  }

  lemma ReportStays(h: seq<Event>, start: nat, r: ReplicaState, m: Move)
    requires start < |h|
    requires r.readiness.Ready? ==> exists q: nat :: ReportedAfter(h, start, q)
    ensures Apply(m, r).readiness.Ready? ==> exists q: nat :: ReportedAfter(h + [Moved(m)], start, q)
  {
    var h' := h + [Moved(m)];
    if Apply(m, r).readiness.Ready? {
      if m.Report? {
        assert ReportedAfter(h', start, |h|);
      } else {
        var q: nat :| ReportedAfter(h, start, q);
        LastStays(h, q, IsReport, Moved(m));
        assert ReportedAfter(h', start, q);
      }
    }
  }

  lemma ObservationStays(h: seq<Event>, start: nat, r: ReplicaState, m: Move, c: State)
    requires start < |h| && Enabled(m, r, c)
    requires r.setId in c.sets && c.sets[r.setId].policies.promotion.requireHealthy
    requires HealthOk(r.health) ==> exists e: nat :: ObservedAfter(h, start, e)
    ensures HealthOk(Apply(m, r).health) ==> exists e: nat :: ObservedAfter(h + [Moved(m)], start, e)
  {
    var h' := h + [Moved(m)];
    if HealthOk(Apply(m, r).health) {
      if m.Observe? {
        assert ObservedAfter(h', start, |h|);
      } else {
        assert Apply(m, r).health == r.health;
        var e: nat :| ObservedAfter(h, start, e);
        LastStays(h, e, IsObservation, Moved(m));
        assert ObservedAfter(h', start, e);
      }
    }
  }

  lemma MoveStaysExplained(h: seq<Event>, start: nat, r: ReplicaState, m: Move, c: State)
    requires Enabled(m, r, c) && r.setId in c.sets && (r.servingEligible ==> r.lifecycle.Serving?)
    requires Explains(h, start, r, c.sets[r.setId].policies.promotion.requireHealthy)
    ensures Explains(h + [Moved(m)], start, Apply(m, r), c.sets[r.setId].policies.promotion.requireHealthy)
  {
    LastStays(h, start, IsBirth, Moved(m));
    if h[start].Provisioned? { PlacementStays(h, start, r, m); }
    WarmthStays(h, start, r, m);
    GrantStays(h, start, r, m, c);
    ReportStays(h, start, r, m);
    if c.sets[r.setId].policies.promotion.requireHealthy { ObservationStays(h, start, r, m, c); }
  }

  // A provisioned or recovered replica has nothing to account for but a recovered placement.
  lemma BirthIsExplained(h: seq<Event>, c: State, op: Op, rid: ReplicaId, healthRequired: bool)
    requires Rebirth(c, op, rid) && rid in Step(c, op).state.replicas
    ensures Explains(h + [EventOf(c, op, rid)], |h|, Step(c, op).state.replicas[rid], healthRequired)
  {
    var h' := h + [EventOf(c, op, rid)];
    assert h'[|h|] == EventOf(c, op, rid);
  }

  // ----- Whole runs -----

  ghost predicate HealthRequired(c: State, rid: ReplicaId)
    requires rid in c.replicas && c.replicas[rid].setId in c.sets
  {
    c.sets[c.replicas[rid].setId].policies.promotion.requireHealthy
  }

  // Some birth in the history, and what followed it, accounts for the replica.
  ghost predicate Accounted(h: seq<Event>, c: State, rid: ReplicaId) {
    && rid in c.replicas && c.replicas[rid].setId in c.sets
    && exists start :: Explains(h, start, c.replicas[rid], HealthRequired(c, rid))
  }

  lemma SurvivorIsAccounted(h: seq<Event>, c: State, c': State, rid: ReplicaId, m: Move)
    requires Accounted(h, c, rid) && Enabled(m, c.replicas[rid], c)
    requires c.replicas[rid].servingEligible ==> c.replicas[rid].lifecycle.Serving?
    requires rid in c'.replicas && c'.replicas[rid] == Apply(m, c.replicas[rid])
    requires c.replicas[rid].setId in c'.sets
    requires SetEvolves(c.sets[c.replicas[rid].setId], c'.sets[c.replicas[rid].setId])
    ensures Accounted(h + [Moved(m)], c', rid)
  {
    var start :| Explains(h, start, c.replicas[rid], HealthRequired(c, rid));
    MoveKeepsIdentity(m, c.replicas[rid]);
    MoveStaysExplained(h, start, c.replicas[rid], m, c);
    assert HealthRequired(c', rid) == HealthRequired(c, rid);
  }

  lemma NewbornIsAccounted(h: seq<Event>, c: State, op: Op, rid: ReplicaId)
    requires Rebirth(c, op, rid) && rid in Step(c, op).state.replicas
    requires Step(c, op).state.replicas[rid].setId in Step(c, op).state.sets
    ensures Accounted(h + [EventOf(c, op, rid)], Step(c, op).state, rid)
  {
    BirthIsExplained(h, c, op, rid, HealthRequired(Step(c, op).state, rid));
  }

  lemma StepIsAccounted(h: seq<Event>, c: State, op: Op, rid: ReplicaId)
    requires Inv(c) && Inv(Step(c, op).state) && rid in Step(c, op).state.replicas
    requires rid in c.replicas ==> Accounted(h, c, rid)
    ensures Accounted(h + [EventOf(c, op, rid)], Step(c, op).state, rid)
  {
    assert ReplicaOk(Step(c, op).state.replicas[rid], rid, Step(c, op).state.sets);
    if Rebirth(c, op, rid) {
      NewbornIsAccounted(h, c, op, rid);
    } else {
      StepKeys(c, op);
      assert ReplicaOk(c.replicas[rid], rid, c.sets);
      StepMoves(c, op, rid);
      StepSets(c, op, c.replicas[rid].setId);
      SurvivorIsAccounted(h, c, Step(c, op).state, rid, MoveOf(c, op, rid));
    }
  }

  lemma {:induction false} RunIsAccounted(c: State, ops: seq<Op>, rid: ReplicaId)
    requires Inv(c) && c.replicas == map[] && LawfulRun(c, ops)
    requires rid in Run(c, ops).replicas
    ensures Accounted(History(c, ops, rid), Run(c, ops), rid)
  {
    if ops != [] {
      var n := |ops| - 1;
      LawfulPrefix(c, ops, n);
      RunKeepsInv(c, ops[..n]);
      if rid in Run(c, ops[..n]).replicas {
        RunIsAccounted(c, ops[..n], rid);
      }
      StepKeepsInv(Run(c, ops[..n]), ops[n]);
      StepIsAccounted(History(c, ops[..n], rid), Run(c, ops[..n]), ops[n], rid);
    }
  }

  // The events as accepted operations on the replica.
  lemma EventMeaning(c: State, op: Op, rid: ReplicaId)
    ensures var e := EventOf(c, op, rid);
      && (IsPlacement(e) ==> op.AllocateOp? && op.replicaId == rid && Accepted(c, op) && !op.placementId.IsNull())
      && (IsFullWarming(e) ==> op.WarmOp? && op.replicaId == rid && Accepted(c, op) && IsFullWarm(op.warming))
      && (IsReport(e) <==> op.ReadinessOp? && op.replicaId == rid && Accepted(c, op))
      && (IsReport(e) ==> op.readiness == e.move.readiness)
      && (IsObservation(e) <==> op.HealthOp? && op.replicaId == rid && Accepted(c, op))
      && (IsObservation(e) ==> op.evidence == e.move.evidence)
  {
  }

  lemma GrantMeaning(c: State, op: Op, rid: ReplicaId)
    ensures IsGrant(EventOf(c, op, rid)) <==> Granted(c, op) == Some(rid) && rid in c.replicas
  {
    GrantedExists(c, op);
    if rid in c.replicas {
      GrantedMoves(c, op, rid);
    }
  }

  lemma {:induction false} HistoryAt(c: State, ops: seq<Op>, rid: ReplicaId, i: nat)
    requires i < |ops|
    ensures History(c, ops, rid)[i] == EventOf(Run(c, ops[..i]), ops[i], rid)
  {
    var n := |ops| - 1;
    var front := ops[..n];
    var last := EventOf(Run(c, front), ops[n], rid);
    assert History(c, ops, rid) == History(c, front, rid) + [last];
    if i < n {
      HistoryAt(c, front, rid, i);
      assert front[..i] == ops[..i] && front[i] == ops[i];
    } else {
      assert ops[..i] == front;
    }
  }

  // Readable names for the operations of the chain, at position i of a run.
  ghost predicate AcceptedAt(c: State, ops: seq<Op>, i: nat) {
    i < |ops| && Accepted(Run(c, ops[..i]), ops[i])
  }

  ghost predicate WarmsAt(c: State, ops: seq<Op>, rid: ReplicaId, i: nat) {
    && AcceptedAt(c, ops, i) && ops[i].WarmOp? && ops[i].replicaId == rid
    && var w := ops[i].warming; w.warmupExecutionDone || w.stepsRequired == 0 || w.stepsCompleted == 0
  }

  ghost predicate GrantsAt(c: State, ops: seq<Op>, rid: ReplicaId, i: nat) {
    i < |ops| && MakesPrimary(Run(c, ops[..i]), ops[i], rid)
  }

  ghost predicate ReportsAt(c: State, ops: seq<Op>, rid: ReplicaId, i: nat) {
    AcceptedAt(c, ops, i) && ops[i].ReadinessOp? && ops[i].replicaId == rid
  }

  ghost predicate ObservesAt(c: State, ops: seq<Op>, rid: ReplicaId, i: nat) {
    AcceptedAt(c, ops, i) && ops[i].HealthOp? && ops[i].replicaId == rid
  }

  ghost predicate BornAt(c: State, ops: seq<Op>, rid: ReplicaId, i: nat) {
    i < |ops| && Rebirth(Run(c, ops[..i]), ops[i], rid)
  }

  ghost predicate AllocatesAt(c: State, ops: seq<Op>, rid: ReplicaId, i: nat) {
    AcceptedAt(c, ops, i) && ops[i].AllocateOp? && ops[i].replicaId == rid && !ops[i].placementId.IsNull()
  }

  // The evidence behind a serving replica: since its last provision or recovery (at `start`), a full
  // warm-up came before its latest grant of authority, its latest readiness report had all factors
  // set and its latest health report was HEALTHY or DEGRADED.
  datatype Chain = Chain(start: nat, warm: nat, grant: nat, report: nat, health: nat)

  ghost predicate IsChain(c: State, ops: seq<Op>, rid: ReplicaId, k: Chain) {
    && BornAt(c, ops, rid, k.start) && (forall j :: k.start < j < |ops| ==> !BornAt(c, ops, rid, j))
    && k.start < k.warm < k.grant && WarmsAt(c, ops, rid, k.warm)
    && GrantsAt(c, ops, rid, k.grant) && (forall j :: k.grant < j < |ops| ==> !GrantsAt(c, ops, rid, j))
    && k.start < k.report && ReportsAt(c, ops, rid, k.report) && ops[k.report].readiness.factors == EVERY_FACTOR
    && (forall j :: k.report < j < |ops| ==> !ReportsAt(c, ops, rid, j))
    && k.start < k.health && ObservesAt(c, ops, rid, k.health)
    && (ops[k.health].evidence.state == Healthy || ops[k.health].evidence.state == HealthState.Degraded)
    && (forall j :: k.health < j < |ops| ==> !ObservesAt(c, ops, rid, j))
  }

  ghost predicate WasPlaced(c: State, ops: seq<Op>, rid: ReplicaId, start: nat) {
    start < |ops| && ops[start].ProvisionOp? ==> exists a :: start < a && AllocatesAt(c, ops, rid, a)
  }

  // The history at one position, in terms of the run.
  lemma HistoryMeaning(c: State, ops: seq<Op>, rid: ReplicaId, i: nat)
    requires i < |ops|
    ensures var h := History(c, ops, rid);
      && (IsBirth(h[i]) <==> BornAt(c, ops, rid, i))
      && (IsFullWarming(h[i]) ==> WarmsAt(c, ops, rid, i))
      && (IsGrant(h[i]) <==> GrantsAt(c, ops, rid, i))
  {
    HistoryAt(c, ops, rid, i);
    EventMeaning(Run(c, ops[..i]), ops[i], rid);
    GrantMeaning(Run(c, ops[..i]), ops[i], rid);
    GrantedExists(Run(c, ops[..i]), ops[i]);
    MakesPrimaryIsGranted(Run(c, ops[..i]), ops[i], rid);
  }

  lemma HistoryOfReports(c: State, ops: seq<Op>, rid: ReplicaId, i: nat)
    requires i < |ops|
    ensures var h := History(c, ops, rid);
      && (IsReport(h[i]) <==> ReportsAt(c, ops, rid, i))
      && (IsReport(h[i]) ==> ops[i].readiness == h[i].move.readiness)
      && (IsObservation(h[i]) <==> ObservesAt(c, ops, rid, i))
      && (IsObservation(h[i]) ==> ops[i].evidence == h[i].move.evidence)
  {
    HistoryAt(c, ops, rid, i);
    EventMeaning(Run(c, ops[..i]), ops[i], rid);
  }

  // The chain in terms of events.
  ghost predicate IsHistoryChain(h: seq<Event>, k: Chain) {
    && IsLast(h, k.start, IsBirth) && k.start < k.warm < k.grant && k.grant < |h| && IsFullWarming(h[k.warm])
    && IsLast(h, k.grant, IsGrant) && ReportedAfter(h, k.start, k.report) && ObservedAfter(h, k.start, k.health)
  }

  lemma GrantsFromHistory(c: State, ops: seq<Op>, rid: ReplicaId, k: Chain)
    requires IsHistoryChain(History(c, ops, rid), k)
    ensures BornAt(c, ops, rid, k.start) && WarmsAt(c, ops, rid, k.warm) && GrantsAt(c, ops, rid, k.grant)
    ensures forall j :: k.start < j < |ops| ==> !BornAt(c, ops, rid, j)
    ensures forall j :: k.grant < j < |ops| ==> !GrantsAt(c, ops, rid, j)
  {
    HistoryMeaning(c, ops, rid, k.start);
    HistoryMeaning(c, ops, rid, k.warm);
    HistoryMeaning(c, ops, rid, k.grant);
    forall j | k.start < j < |ops| ensures !BornAt(c, ops, rid, j) { HistoryMeaning(c, ops, rid, j); }
    forall j | k.grant < j < |ops| ensures !GrantsAt(c, ops, rid, j) { HistoryMeaning(c, ops, rid, j); }
  }

  lemma ReportsFromHistory(c: State, ops: seq<Op>, rid: ReplicaId, k: Chain)
    requires IsHistoryChain(History(c, ops, rid), k)
    ensures ReportsAt(c, ops, rid, k.report) && ops[k.report].readiness.factors == EVERY_FACTOR
    ensures ObservesAt(c, ops, rid, k.health) && HealthOk(ops[k.health].evidence.state)
    ensures forall j :: k.report < j < |ops| ==> !ReportsAt(c, ops, rid, j)
    ensures forall j :: k.health < j < |ops| ==> !ObservesAt(c, ops, rid, j)
  {
    HistoryOfReports(c, ops, rid, k.report);
    HistoryOfReports(c, ops, rid, k.health);
    forall j | k.report < j < |ops| ensures !ReportsAt(c, ops, rid, j) { HistoryOfReports(c, ops, rid, j); }
    forall j | k.health < j < |ops| ensures !ObservesAt(c, ops, rid, j) { HistoryOfReports(c, ops, rid, j); }
  }

  lemma ChainFromHistory(c: State, ops: seq<Op>, rid: ReplicaId, k: Chain)
    requires IsHistoryChain(History(c, ops, rid), k)
    ensures IsChain(c, ops, rid, k)
  {
    GrantsFromHistory(c, ops, rid, k);
    ReportsFromHistory(c, ops, rid, k);
  }

  lemma PlacementFromHistory(c: State, ops: seq<Op>, rid: ReplicaId, start: nat)
    requires var h := History(c, ops, rid); IsLast(h, start, IsBirth) && (h[start].Provisioned? ==> PlacedAfter(h, start))
    ensures WasPlaced(c, ops, rid, start)
  {
    var h := History(c, ops, rid);
    HistoryAt(c, ops, rid, start);
    if ops[start].ProvisionOp? {
      var a: nat :| start < a < |h| && IsPlacement(h[a]);
      HistoryAt(c, ops, rid, a);
      EventMeaning(Run(c, ops[..a]), ops[a], rid);
      assert AllocatesAt(c, ops, rid, a);
    }
  }

  lemma GrantWitness(h: seq<Event>, start: nat, r: ReplicaState) returns (w: nat, p: nat)
    requires Explains(h, start, r, true) && r.servingEligible && r.warmth.Warm?
    ensures start < w < p < |h| && IsFullWarming(h[w]) && IsLast(h, p, IsGrant)
  {
    p :| GrantedAfter(h, start, p, true);
    assert WarmBetween(h, start, p);
    w :| start < w < p <= |h| && IsFullWarming(h[w]);
  }

  lemma ReportWitness(h: seq<Event>, start: nat, r: ReplicaState) returns (q: nat)
    requires Explains(h, start, r, true) && r.readiness.Ready?
    ensures ReportedAfter(h, start, q)
  {
    q :| ReportedAfter(h, start, q);
  }

  lemma HealthWitness(h: seq<Event>, start: nat, r: ReplicaState) returns (e: nat)
    requires Explains(h, start, r, true) && HealthOk(r.health)
    ensures ObservedAfter(h, start, e)
  {
    e :| ObservedAfter(h, start, e);
  }

  // A replica whose flag, warmth, health and readiness all speak for it has a chain of events.
  lemma ExplanationYieldsEvents(h: seq<Event>, start: nat, r: ReplicaState) returns (k: Chain)
    requires Explains(h, start, r, true)
    requires r.servingEligible && r.warmth.Warm? && r.readiness.Ready? && HealthOk(r.health)
    ensures k.start == start && IsHistoryChain(h, k)
  {
    var w, p := GrantWitness(h, start, r);
    var q := ReportWitness(h, start, r);
    var e := HealthWitness(h, start, r);
    k := Chain(start, w, p, q, e);
  }

  lemma ExplanationYieldsChain(c: State, ops: seq<Op>, rid: ReplicaId, start: nat, r: ReplicaState)
    requires Explains(History(c, ops, rid), start, r, true)
    requires r.servingEligible && r.warmth.Warm? && r.readiness.Ready? && HealthOk(r.health) && r.placement.Assigned?
    ensures exists k :: IsChain(c, ops, rid, k) && WasPlaced(c, ops, rid, k.start)
  {
    var k := ExplanationYieldsEvents(History(c, ops, rid), start, r);
    ChainFromHistory(c, ops, rid, k);
    PlacementFromHistory(c, ops, rid, start);
  }

  // In every lawful run from a fresh controller, a replica that serves under a policy requiring
  // health has the whole chain of evidence behind it; and since a recovery counts as a birth, after
  // a recovery every step of the chain has recurred.
  lemma EvidenceChain(source: nat -> Id, ops: seq<Op>, rid: ReplicaId)
    requires (forall n: nat :: !source(n).IsNull()) && LawfulRun(Init(source), ops)
    requires Servable(Run(Init(source), ops), rid) && HealthRequired(Run(Init(source), ops), rid)
    ensures exists k :: IsChain(Init(source), ops, rid, k) && WasPlaced(Init(source), ops, rid, k.start)
  {
    var c0 := Init(source);
    InitHolds(source);
    ServableNeeds(Run(c0, ops), rid);
    RunIsAccounted(c0, ops, rid);
    var start :| Explains(History(c0, ops, rid), start, Run(c0, ops).replicas[rid], true);
    ExplanationYieldsChain(c0, ops, rid, start, Run(c0, ops).replicas[rid]);
  }
}
