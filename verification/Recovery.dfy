// Recovery: validating and installing what a checkpoint holds (src/snapshot.cpp:454-500), and what
// becomes of a controller that recovers from its own checkpoint.
module Recovery {
  import opened Base
  import opened Identity
  import opened Enums
  import opened Records
  import opened Layout
  import opened BodyLayout
  import opened ControllerModel
  import opened Controller
  import opened Invariants
  import opened Snapshot
  import opened Wire
  import opened Crc

  // ----- The routines -----

  method ValidateRecoveredState(rec: RecoveredState) returns (valid: bool)
    ensures valid <==> ValidRecovered(rec)
  {
    var replicas := rec.replicas.Keys;
    while replicas != {}
      invariant replicas <= rec.replicas.Keys
      invariant forall rid :: rid in rec.replicas && rid !in replicas ==>
        var r := rec.replicas[rid];
        !r.id.IsNull() && !r.setId.IsNull() && !r.generation.IsNull() && r.setId in rec.sets
    {
      var rid :| rid in replicas;
      replicas := replicas - {rid};
      var r := rec.replicas[rid];
      if r.id.IsNull() || r.setId.IsNull() || r.generation.IsNull() { return false; }
      if r.setId !in rec.sets { return false; }
    }
    var sets := rec.sets.Keys;
    while sets != {}
      invariant sets <= rec.sets.Keys
      invariant forall sid :: sid in rec.sets && sid !in sets ==>
        !rec.sets[sid].id.IsNull() && CountsValid(rec.sets[sid])
    {
      var sid :| sid in sets;
      sets := sets - {sid};
      var s := rec.sets[sid];
      if s.id.IsNull() { return false; }
      if s.maxReplicas == 0 || s.desiredCount == 0 || s.minHealthy == 0 || s.minHealthy > s.maxReplicas ||
         s.desiredCount > s.maxReplicas {
        return false;
      }
    }
    valid := true;
  }

  // Clears the controller's tables and logs and fills them again. The epoch stays.
  method InstallRecoveredState(rec: RecoveredState, ctrl: ReplicaSetController)
    modifies ctrl
    ensures ctrl.View() == Installed(old(ctrl.View()), rec)
  {
    ctrl.sets, ctrl.replicas, ctrl.workers := map[], map[], map[];
    ctrl.promotions, ctrl.drains, ctrl.failovers := [], [], [];
    InstallSets(rec.sets, ctrl);
    InstallReplicas(rec.replicas, ctrl);
    InstallWorkers(rec.workers, ctrl);
    InstallLogs(rec, ctrl);
  }

  method InstallLogs(rec: RecoveredState, ctrl: ReplicaSetController)
    requires ctrl.promotions == [] && ctrl.drains == [] && ctrl.failovers == []
    modifies ctrl`promotions, ctrl`drains, ctrl`failovers
    ensures ctrl.promotions == rec.promotions && ctrl.drains == rec.drains && ctrl.failovers == rec.failovers
  {
    for i := 0 to |rec.promotions|
      invariant ctrl.promotions == rec.promotions[..i] && ctrl.drains == [] && ctrl.failovers == []
    {
      ctrl.promotions := ctrl.promotions + [rec.promotions[i]];
    }
    for i := 0 to |rec.drains|
      invariant ctrl.promotions == rec.promotions && ctrl.drains == rec.drains[..i] && ctrl.failovers == []
    {
      ctrl.drains := ctrl.drains + [rec.drains[i]];
    }
    for i := 0 to |rec.failovers|
      invariant ctrl.promotions == rec.promotions && ctrl.drains == rec.drains
      invariant ctrl.failovers == rec.failovers[..i]
    {
      ctrl.failovers := ctrl.failovers + [rec.failovers[i]];
    }
  }

  method InstallSets(sets: map<ReplicaSetId, ReplicaSetState>, ctrl: ReplicaSetController)
    requires ctrl.sets == map[]
    modifies ctrl`sets
    ensures ctrl.sets == sets
  {
    var todo := sets.Keys;
    while todo != {}
      invariant todo <= sets.Keys
      invariant ctrl.sets == map sid | sid in sets && sid !in todo :: sets[sid]
    {
      var sid :| sid in todo;
      todo := todo - {sid};
      ctrl.sets := ctrl.sets[sid := sets[sid]];
    }
  }

  method InstallReplicas(replicas: map<ReplicaId, ReplicaState>, ctrl: ReplicaSetController)
    requires ctrl.replicas == map[]
    modifies ctrl`replicas
    ensures ctrl.replicas == map rid | rid in replicas :: Cleared(replicas[rid])
  {
    var todo := replicas.Keys;
    while todo != {}
      invariant todo <= replicas.Keys
      invariant ctrl.replicas == map rid | rid in replicas && rid !in todo :: Cleared(replicas[rid])
    {
      var rid :| rid in todo;
      todo := todo - {rid};
      var r := replicas[rid];
      r := r.(servingEligible := false, bootId := NULL_ID);
      r := r.(health := HealthState.Starting, healthRecord := r.healthRecord.(state := HealthState.Starting));
      r := r.(readiness := ReadinessState.Unknown, warmth := Cold);
      r := r.(promotion := NotPromoted, role := Nobody, activeRequests := 0, reservedCapacity := 0);
      ctrl.replicas := ctrl.replicas[rid := r];
    }
  }

  method InstallWorkers(ws: seq<WorkerRegistration>, ctrl: ReplicaSetController)
    requires ctrl.workers == map[]
    modifies ctrl`workers
    ensures ctrl.workers == Table(WorkerKey, ws)
  {
    for i := 0 to |ws|
      invariant ctrl.workers == Table(WorkerKey, ws[..i])
    {
      assert ws[..i + 1][..i] == ws[..i];
      if ws[i].workerId !in ctrl.workers {
        ctrl.workers := ctrl.workers[ws[i].workerId := ws[i]];
      }
    }
    assert ws[..|ws|] == ws;
  }

  // What recovering from `p` does to a controller in state `d`.
  ghost function Recovered(d: State, p: seq<U8>): Outcome {
    if Decoded(p).None? then Outcome(d, Rejected) else Recover(d, Decoded(p).value)
  }

  method RecoverInto(p: seq<U8>, ctrl: ReplicaSetController) returns (ok: bool)
    modifies ctrl
    ensures Recovered(old(ctrl.View()), p) == Outcome(ctrl.View(), if ok then OpStatus.Ok else Rejected)
  {
    var rec := DecodeSnapshot(p);
    if rec.None? { return false; }
    var valid := ValidateRecoveredState(rec.value);
    if !valid { return false; }
    InstallRecoveredState(rec.value, ctrl);
    ok := true;
  }

  // ----- Recovering from one's own checkpoint -----

  // The contents of a controller's own checkpoint.
  ghost function Own(c: State): RecoveredState {
    RecoveredState(c.sets, c.replicas, InOrder(c.workers), c.promotions, c.drains, c.failovers)
  }

  ghost predicate KeysAreIdentities(c: State) {
    && (forall sid :: sid in c.sets ==> c.sets[sid].id == sid)
    && (forall rid :: rid in c.replicas ==> c.replicas[rid].id == rid)
    && (forall w :: w in c.workers ==> c.workers[w].workerId == w)
  }

  // No NaN and no infinity in the only two fields that could hold one.
  ghost predicate FiniteState(c: State) {
    && (forall sid :: sid in c.sets ==> IsFinite(c.sets[sid].policies.health.healthThreshold))
    && (forall rid :: rid in c.replicas ==> IsFinite(c.replicas[rid].healthRecord.confidence))
  }

  ghost predicate NoNullIdentity(c: State) {
    NULL_ID !in c.sets && NULL_ID !in c.replicas
  }

  lemma OwnSetsFinite(m: map<ReplicaSetId, ReplicaSetState>)
    ensures FiniteSets(InOrder(m)) <==>
            forall sid :: sid in m ==> IsFinite(m[sid].policies.health.healthThreshold)
  {
    var xs := InOrder(m);
    if FiniteSets(xs) {
      forall sid | sid in m ensures IsFinite(m[sid].policies.health.healthThreshold) {
        var i := PlaceOf(m, sid);
      }
    }
  }

  lemma OwnReplicasFinite(m: map<ReplicaId, ReplicaState>)
    ensures FiniteReplicas(InOrder(m)) <==>
            forall rid :: rid in m ==> IsFinite(m[rid].healthRecord.confidence)
  {
    var xs := InOrder(m);
    if FiniteReplicas(xs) {
      forall rid | rid in m ensures IsFinite(m[rid].healthRecord.confidence) {
        var i := PlaceOf(m, rid);
      }
    }
  }

  lemma OwnContents(c: State)
    requires KeysAreIdentities(c)
    ensures RecoveredOf(Contents(c)) == Own(c)
    ensures Writable(Contents(c)) <==> FiniteState(c)
  {
    TableOfMap(SetKey, c.sets);
    TableOfMap(ReplicaKey, c.replicas);
    OwnSetsFinite(c.sets);
    OwnReplicasFinite(c.replicas);
  }

  // A controller's checkpoint decodes to its own tables and logs, unless it holds a NaN or an
  // infinity, which the reader refuses although the writer does not.
  lemma OwnDecodes(c: State)
    requires KeysAreIdentities(c) && |SnapshotOf(c)| < U64_MOD
    ensures Decoded(SnapshotOf(c)) == if FiniteState(c) then Some(Own(c)) else None
  {
    OwnContents(c);
    FileReadBack(Contents(c));
  }

  // The controller's tables with every replica stripped of its authority, in place of those of `d`.
  // The epoch, and the stream of identities, stay those of `d`.
  ghost function Restored(c: State, d: State): State {
    c.(replicas := map rid | rid in c.replicas :: Cleared(c.replicas[rid]),
       epoch := d.epoch, source := d.source, drawn := d.drawn)
  }

  // Recovering from the checkpoint of a state in which the invariant holds succeeds if and only if
  // that state has no null identity, NaN or infinity, and then brings back exactly its sets, workers
  // and logs, and its replicas without authority.
  lemma SelfRecovery(c: State, d: State)
    requires Inv(c) && |SnapshotOf(c)| < U64_MOD
    ensures Recovered(d, SnapshotOf(c)) == if FiniteState(c) && NoNullIdentity(c)
                                           then Outcome(Restored(c, d), OpStatus.Ok) else Outcome(d, Rejected)
  {
    OwnDecodes(c);
    OwnRecovers(c, d);
  }

  lemma OwnRecovers(c: State, d: State)
    requires Inv(c)
    ensures Recover(d, Own(c)) == if NoNullIdentity(c) then Outcome(Restored(c, d), OpStatus.Ok)
                                  else Outcome(d, Rejected)
  {
    OwnIsValid(c);
    OwnInstalled(c, d);
  }

  lemma OwnInstalled(c: State, d: State)
    requires TablesOk(c)
    ensures Installed(d, Own(c)) == Restored(c, d)
  {
    TableOfMap(WorkerKey, c.workers);
  }

  lemma OwnIsValid(c: State)
    requires Inv(c)
    ensures ValidRecovered(Own(c)) <==> NoNullIdentity(c)
  {
    if NoNullIdentity(c) {
      forall rid | rid in c.replicas
        ensures var r := c.replicas[rid];
                !r.id.IsNull() && !r.setId.IsNull() && !r.generation.IsNull() && r.setId in c.sets
      {
        assert ReplicaOk(c.replicas[rid], rid, c.sets);
        IsNullOnly(rid);
        IsNullOnly(c.replicas[rid].setId);
      }
      forall sid | sid in c.sets ensures !c.sets[sid].id.IsNull() { IsNullOnly(sid); }
    } else if NULL_ID in c.sets {
      assert c.sets[NULL_ID].id.IsNull();
    } else {
      assert ReplicaOk(c.replicas[NULL_ID], NULL_ID, c.sets);
    }
  }

  lemma IsNullOnly(id: Id)
    ensures id.IsNull() <==> id == NULL_ID
  {
  }

  // The invariant holds for what the controller wrote, so recovering from it is a lawful step: the
  // theorems about runs go on to hold after it.
  lemma SelfRecoveryIsLawful(c: State, d: State)
    requires Inv(c) && TablesOk(d)
    ensures Lawful(d, RecoverOp(Own(c))) && Inv(Restored(c, d))
  {
    TableOfMap(WorkerKey, c.workers);
    var u := Unpacked(d, Own(c));
    assert u.sets == c.sets && u.replicas == c.replicas && u.workers == c.workers;
    assert u.promotions == c.promotions && u.drains == c.drains;
    assert forall rid :: rid in u.replicas ==> ReplicaOk(c.replicas[rid], rid, c.sets);
    assert forall sid :: sid in u.sets ==> Members(u.replicas, sid) == Members(c.replicas, sid);
    assert Inv(u);
    RecoveryKeepsInv(d, Own(c));
    OwnInstalled(c, d);
  }

  // A second round of checkpoint and recovery changes nothing.
  lemma SecondRecoveryChangesNothing(c: State, d: State)
    requires Inv(c) && TablesOk(d) && FiniteState(c) && NoNullIdentity(c)
    requires |SnapshotOf(Restored(c, d))| < U64_MOD
    ensures var e := Restored(c, d); Recovered(e, SnapshotOf(e)) == Outcome(e, OpStatus.Ok)
  {
    var e := Restored(c, d);
    SelfRecoveryIsLawful(c, d);
    SelfRecovery(e, e);
    ClearingTwice(c, d);
  }

  lemma ClearingTwice(c: State, d: State)
    requires FiniteState(c) && NoNullIdentity(c)
    ensures var e := Restored(c, d); Restored(e, e) == e && FiniteState(e) && NoNullIdentity(e)
  {
    var e := Restored(c, d);
    forall rid | rid in e.replicas ensures Cleared(e.replicas[rid]) == e.replicas[rid] {
      ClearedIsCleared(c.replicas[rid]);
    }
    assert Restored(e, e).replicas == e.replicas;
  }

  lemma ClearedIsCleared(r: ReplicaState)
    ensures Cleared(Cleared(r)) == Cleared(r)
  {
  }

  // The checkpoint of a fresh controller: header, six empty tables, the null epoch and the checksum.
  lemma FreshCheckpoint(source: nat -> Id)
    ensures |SnapshotOf(Init(source))| == 96
    ensures Unframe(SnapshotOf(Init(source))).Some?
  {
    var b := Contents(Init(source));
    var body := Enc(BodyVal(b));
    assert |Enc(TablesVal(b))| == 24 && |Enc(LogsVal(b))| == 24 by {
      assert EncAll([]) == [];
      assert b.sets == [] && b.replicas == [] && b.workers == [];
      assert MapSeq(ReplicaSetStateVal, b.sets) == [] && MapSeq(ReplicaStateVal, b.replicas) == [];
    }
    assert |body| == 64;
    UnframeOfFile(body);
  }

  // The same for every state the controller can reach.
  lemma ReachableStatesSurvive(source: nat -> Id, ops: seq<Op>, d: State)
    requires forall n: nat :: !source(n).IsNull()
    requires LawfulRun(Init(source), ops) && |SnapshotOf(Run(Init(source), ops))| < U64_MOD
    ensures var c := Run(Init(source), ops);
      && (Recovered(d, SnapshotOf(c)).status.Ok? <==> FiniteState(c) && NoNullIdentity(c))
      && (Recovered(d, SnapshotOf(c)).status.Ok? ==> Recovered(d, SnapshotOf(c)).state == Restored(c, d))
  {
    InitHolds(source);
    RunKeepsInv(Init(source), ops);
    SelfRecovery(Run(Init(source), ops), d);
  }

  // ----- Damage and validation -----

  // A checkpoint damaged within eight consecutive bytes is never installed.
  lemma DamageIsNeverInstalled(c: State, d: State, q: seq<U8>, lo: nat, hi: nat)
    requires |SnapshotOf(c)| < U64_MOD
    requires DifferOnlyIn(SnapshotOf(c), q, lo, hi) && hi - lo <= 8 && q != SnapshotOf(c)
    ensures Recovered(d, q) == Outcome(d, Rejected)
  {
    UnframeOfFile(Enc(BodyVal(Contents(c))));
    DamageIsDetected(SnapshotOf(c), q, lo, hi);
  }

  // Neither is a truncated checkpoint, nor one with bytes appended.
  lemma TruncationIsNeverInstalled(c: State, d: State, q: seq<U8>)
    requires |SnapshotOf(c)| < U64_MOD && q != SnapshotOf(c)
    requires q <= SnapshotOf(c) || SnapshotOf(c) <= q
    ensures Recovered(d, q) == Outcome(d, Rejected)
  {
    UnframeOfFile(Enc(BodyVal(Contents(c))));
    if Unframe(q).Some? {
      if q <= SnapshotOf(c) { NoAcceptedPrefix(q, SnapshotOf(c)); } else { NoAcceptedPrefix(SnapshotOf(c), q); }
    }
  }

  // The header promises checks for impossible lifecycles and generations that disagree. There are
  // none: the verdict is the same whatever those fields of a replica hold.
  lemma ValidationIgnoresGenerations(rec: RecoveredState, rid: ReplicaId, r: ReplicaState)
    requires rid in rec.replicas
    requires var q := rec.replicas[rid];
      r.setId == q.setId && r.id.IsNull() == q.id.IsNull() && r.generation.IsNull() == q.generation.IsNull()
    ensures ValidRecovered(rec.(replicas := rec.replicas[rid := r])) <==> ValidRecovered(rec)
  {
    var rec' := rec.(replicas := rec.replicas[rid := r]);
    if ValidRecovered(rec') {
      forall k | k in rec.replicas
        ensures var x := rec.replicas[k];
                !x.id.IsNull() && !x.setId.IsNull() && !x.generation.IsNull() && x.setId in rec.sets
      {
        assert k in rec'.replicas;
        var x := rec'.replicas[k];
        assert !x.id.IsNull() && !x.setId.IsNull() && !x.generation.IsNull() && x.setId in rec'.sets;
      }
    }
  }
}
