// The body of a checkpoint: six counted tables and the epoch (src/snapshot.cpp:358-388, 421-449).
module BodyLayout {
  import opened Base
  import opened Identity
  import opened Enums
  import opened Records
  import opened Wire
  import opened Layout

  datatype Body = Body(
    sets: seq<ReplicaSetState>, replicas: seq<ReplicaState>, workers: seq<WorkerRegistration>,
    promotions: seq<PromotionRecord>, drains: seq<DrainRecord>, failovers: seq<FailoverRecord>, epoch: Epoch)

  function TablesVal(b: Body): Val {
    V2(VList(MapSeq(ReplicaSetStateVal, b.sets)), VList(MapSeq(ReplicaStateVal, b.replicas)),
       VList(MapSeq(WorkerRegistrationVal, b.workers)))
  }

  function LogsVal(b: Body): Val {
    V2(VList(MapSeq(PromotionRecordVal, b.promotions)), VList(MapSeq(DrainRecordVal, b.drains)),
       VList(MapSeq(FailoverRecordVal, b.failovers)))
  }

  function BodyVal(b: Body): Val {
    V2(TablesVal(b), LogsVal(b), VId(b.epoch))
  }

  const TABLES: Shape := S2(SList(REPLICA_SET_STATE), SList(REPLICA_STATE), SList(WORKER_REGISTRATION))
  const LOGS: Shape := S2(SList(PROMOTION_RECORD), SList(DRAIN_RECORD), SList(FAILOVER_RECORD))
  const BODY: Shape := S2(TABLES, LOGS, SId)

  function BodyOf(v: Val): Body {
    var (tables, logs) := (Field(v, 0), Field(v, 1));
    Body(
      MapSeq(ReplicaSetStateOf, ElemsOf(Field(tables, 0))), MapSeq(ReplicaStateOf, ElemsOf(Field(tables, 1))),
      MapSeq(WorkerRegistrationOf, ElemsOf(Tail(tables, 2))),
      MapSeq(PromotionRecordOf, ElemsOf(Field(logs, 0))), MapSeq(DrainRecordOf, ElemsOf(Field(logs, 1))),
      MapSeq(FailoverRecordOf, ElemsOf(Tail(logs, 2))),
      IdOf(Tail(v, 2)))
  }

  ghost predicate FiniteSets(sets: seq<ReplicaSetState>) {
    forall i :: 0 <= i < |sets| ==> IsFinite(sets[i].policies.health.healthThreshold)
  }

  ghost predicate FiniteReplicas(replicas: seq<ReplicaState>) {
    forall i :: 0 <= i < |replicas| ==> IsFinite(replicas[i].healthRecord.confidence)
  }

  lemma SetsRead(xs: seq<ReplicaSetState>) returns (vs: seq<Val>)
    ensures vs == MapSeq(ReplicaSetStateVal, xs) && MapSeq(ReplicaSetStateOf, vs) == xs
    ensures ShapedItems(REPLICA_SET_STATE, vs)
    ensures FiniteItems(REPLICA_SET_STATE, vs) <==> FiniteSets(xs)
  {
    vs := MapSeq(ReplicaSetStateVal, xs);
    forall i | 0 <= i < |xs|
      ensures Shaped(REPLICA_SET_STATE, ReplicaSetStateVal(xs[i]))
      ensures ReplicaSetStateOf(ReplicaSetStateVal(xs[i])) == xs[i]
      ensures Finite(REPLICA_SET_STATE, ReplicaSetStateVal(xs[i])) <==> IsFinite(xs[i].policies.health.healthThreshold)
    {
      ReplicaSetStateReads(xs[i]);
    }
    ListReads(REPLICA_SET_STATE, ReplicaSetStateVal, ReplicaSetStateOf, xs);
  }

  lemma ReplicasRead(xs: seq<ReplicaState>) returns (vs: seq<Val>)
    ensures vs == MapSeq(ReplicaStateVal, xs) && MapSeq(ReplicaStateOf, vs) == xs
    ensures ShapedItems(REPLICA_STATE, vs)
    ensures FiniteItems(REPLICA_STATE, vs) <==> FiniteReplicas(xs)
  {
    vs := MapSeq(ReplicaStateVal, xs);
    forall i | 0 <= i < |xs|
      ensures Shaped(REPLICA_STATE, ReplicaStateVal(xs[i])) && ReplicaStateOf(ReplicaStateVal(xs[i])) == xs[i]
      ensures Finite(REPLICA_STATE, ReplicaStateVal(xs[i])) <==> IsFinite(xs[i].healthRecord.confidence)
    {
      ReplicaStateReads(xs[i]);
    }
    ListReads(REPLICA_STATE, ReplicaStateVal, ReplicaStateOf, xs);
  }

  lemma WorkersRead(xs: seq<WorkerRegistration>) returns (vs: seq<Val>)
    ensures vs == MapSeq(WorkerRegistrationVal, xs) && MapSeq(WorkerRegistrationOf, vs) == xs
    ensures ShapedItems(WORKER_REGISTRATION, vs)
    ensures FiniteItems(WORKER_REGISTRATION, vs)
  {
    vs := MapSeq(WorkerRegistrationVal, xs);
    forall i | 0 <= i < |xs| { WorkerRegistrationReads(xs[i]); }
    ListReads(WORKER_REGISTRATION, WorkerRegistrationVal, WorkerRegistrationOf, xs);
  }

  lemma PromotionsRead(xs: seq<PromotionRecord>) returns (vs: seq<Val>)
    ensures vs == MapSeq(PromotionRecordVal, xs) && MapSeq(PromotionRecordOf, vs) == xs
    ensures ShapedItems(PROMOTION_RECORD, vs)
    ensures FiniteItems(PROMOTION_RECORD, vs)
  {
    vs := MapSeq(PromotionRecordVal, xs);
    forall i | 0 <= i < |xs| { PromotionRecordReads(xs[i]); }
    ListReads(PROMOTION_RECORD, PromotionRecordVal, PromotionRecordOf, xs);
  }

  lemma DrainsRead(xs: seq<DrainRecord>) returns (vs: seq<Val>)
    ensures vs == MapSeq(DrainRecordVal, xs) && MapSeq(DrainRecordOf, vs) == xs
    ensures ShapedItems(DRAIN_RECORD, vs)
    ensures FiniteItems(DRAIN_RECORD, vs)
  {
    vs := MapSeq(DrainRecordVal, xs);
    forall i | 0 <= i < |xs| { DrainRecordReads(xs[i]); }
    ListReads(DRAIN_RECORD, DrainRecordVal, DrainRecordOf, xs);
  }

  lemma FailoversRead(xs: seq<FailoverRecord>) returns (vs: seq<Val>)
    ensures vs == MapSeq(FailoverRecordVal, xs) && MapSeq(FailoverRecordOf, vs) == xs
    ensures ShapedItems(FAILOVER_RECORD, vs)
    ensures FiniteItems(FAILOVER_RECORD, vs)
  {
    vs := MapSeq(FailoverRecordVal, xs);
    forall i | 0 <= i < |xs| { FailoverRecordReads(xs[i]); }
    ListReads(FAILOVER_RECORD, FailoverRecordVal, FailoverRecordOf, xs);
  }

  lemma SetsFit(xs: seq<ReplicaSetState>) returns (vs: seq<Val>)
    ensures vs == MapSeq(ReplicaSetStateVal, xs) && ShapedItems(REPLICA_SET_STATE, vs)
    ensures FiniteItems(REPLICA_SET_STATE, vs) <==> FiniteSets(xs)
  {
    vs := SetsRead(xs);
  }

  lemma ReplicasFit(xs: seq<ReplicaState>) returns (vs: seq<Val>)
    ensures vs == MapSeq(ReplicaStateVal, xs) && ShapedItems(REPLICA_STATE, vs)
    ensures FiniteItems(REPLICA_STATE, vs) <==> FiniteReplicas(xs)
  {
    vs := ReplicasRead(xs);
  }

  lemma ThreeLists(e1: Shape, e2: Shape, e3: Shape, x1: seq<Val>, x2: seq<Val>, x3: seq<Val>)
    ensures Shaped(S2(SList(e1), SList(e2), SList(e3)), V2(VList(x1), VList(x2), VList(x3))) <==>
            ShapedItems(e1, x1) && ShapedItems(e2, x2) && ShapedItems(e3, x3)
    ensures Finite(S2(SList(e1), SList(e2), SList(e3)), V2(VList(x1), VList(x2), VList(x3))) <==>
            FiniteItems(e1, x1) && FiniteItems(e2, x2) && FiniteItems(e3, x3)
  {
    var s, w := Next2(S2(SList(e1), SList(e2), SList(e3)), V2(VList(x1), VList(x2), VList(x3)));
  }

  lemma TablesRead(b: Body)
    ensures Shaped(TABLES, TablesVal(b))
    ensures Finite(TABLES, TablesVal(b)) <==> FiniteSets(b.sets) && FiniteReplicas(b.replicas)
  {
    var x1 := SetsFit(b.sets);
    var x2 := ReplicasFit(b.replicas);
    var x3 := WorkersRead(b.workers);
    ThreeLists(REPLICA_SET_STATE, REPLICA_STATE, WORKER_REGISTRATION, x1, x2, x3);
  }

  lemma LogsRead(b: Body)
    ensures Shaped(LOGS, LogsVal(b))
    ensures Finite(LOGS, LogsVal(b))
  {
    var x1 := PromotionsRead(b.promotions);
    var x2 := DrainsRead(b.drains);
    var x3 := FailoversRead(b.failovers);
    ThreeLists(PROMOTION_RECORD, DRAIN_RECORD, FAILOVER_RECORD, x1, x2, x3);
  }

  lemma ThreeFields(s1: Shape, s2: Shape, s3: Shape, v1: Val, v2: Val, v3: Val)
    ensures Shaped(S2(s1, s2, s3), V2(v1, v2, v3)) <==>
            Shaped(s1, v1) && Shaped(s2, v2) && Shaped(s3, v3)
    ensures Finite(S2(s1, s2, s3), V2(v1, v2, v3)) <==>
            Finite(s1, v1) && Finite(s2, v2) && Finite(s3, v3)
  {
    var s, w := Next2(S2(s1, s2, s3), V2(v1, v2, v3));
  }

  lemma BodyComesBack(b: Body)
    ensures BodyOf(BodyVal(b)) == b
  {
    var x1 := SetsRead(b.sets);
    var x2 := ReplicasRead(b.replicas);
    var x3 := WorkersRead(b.workers);
    var y1 := PromotionsRead(b.promotions);
    var y2 := DrainsRead(b.drains);
    var y3 := FailoversRead(b.failovers);
  }

  lemma BodyFits(b: Body)
    ensures Shaped(BODY, BodyVal(b))
    ensures Finite(BODY, BodyVal(b)) <==> FiniteSets(b.sets) && FiniteReplicas(b.replicas)
  {
    TablesRead(b);
    LogsRead(b);
    ThreeFields(TABLES, LOGS, SId, TablesVal(b), LogsVal(b), VId(b.epoch));
  }

  lemma BodyReads(b: Body)
    ensures BodyOf(BodyVal(b)) == b
    ensures Shaped(BODY, BodyVal(b))
    ensures Finite(BODY, BodyVal(b)) <==> FiniteSets(b.sets) && FiniteReplicas(b.replicas)
  {
    BodyComesBack(b);
    BodyFits(b);
  }

  lemma SetsWrite(vs: seq<Val>)
    requires ShapedItems(REPLICA_SET_STATE, vs)
    ensures MapSeq(ReplicaSetStateVal, MapSeq(ReplicaSetStateOf, vs)) == vs
  {
    ItemsByIndex(REPLICA_SET_STATE, vs);
    forall i | 0 <= i < |vs| { ReplicaSetStateWrites(vs[i]); }
    ListWrites(ReplicaSetStateVal, ReplicaSetStateOf, vs);
  }

  lemma ReplicasWrite(vs: seq<Val>)
    requires ShapedItems(REPLICA_STATE, vs)
    ensures MapSeq(ReplicaStateVal, MapSeq(ReplicaStateOf, vs)) == vs
  {
    ItemsByIndex(REPLICA_STATE, vs);
    forall i | 0 <= i < |vs| { ReplicaStateWrites(vs[i]); }
    ListWrites(ReplicaStateVal, ReplicaStateOf, vs);
  }

  lemma WorkersWrite(vs: seq<Val>)
    requires ShapedItems(WORKER_REGISTRATION, vs)
    ensures MapSeq(WorkerRegistrationVal, MapSeq(WorkerRegistrationOf, vs)) == vs
  {
    ItemsByIndex(WORKER_REGISTRATION, vs);
    forall i | 0 <= i < |vs| { WorkerRegistrationWrites(vs[i]); }
    ListWrites(WorkerRegistrationVal, WorkerRegistrationOf, vs);
  }

  lemma PromotionsWrite(vs: seq<Val>)
    requires ShapedItems(PROMOTION_RECORD, vs)
    ensures MapSeq(PromotionRecordVal, MapSeq(PromotionRecordOf, vs)) == vs
  {
    ItemsByIndex(PROMOTION_RECORD, vs);
    forall i | 0 <= i < |vs| { PromotionRecordWrites(vs[i]); }
    ListWrites(PromotionRecordVal, PromotionRecordOf, vs);
  }

  lemma DrainsWrite(vs: seq<Val>)
    requires ShapedItems(DRAIN_RECORD, vs)
    ensures MapSeq(DrainRecordVal, MapSeq(DrainRecordOf, vs)) == vs
  {
    ItemsByIndex(DRAIN_RECORD, vs);
    forall i | 0 <= i < |vs| { DrainRecordWrites(vs[i]); }
    ListWrites(DrainRecordVal, DrainRecordOf, vs);
  }

  lemma FailoversWrite(vs: seq<Val>)
    requires ShapedItems(FAILOVER_RECORD, vs)
    ensures MapSeq(FailoverRecordVal, MapSeq(FailoverRecordOf, vs)) == vs
  {
    ItemsByIndex(FAILOVER_RECORD, vs);
    forall i | 0 <= i < |vs| { FailoverRecordWrites(vs[i]); }
    ListWrites(FailoverRecordVal, FailoverRecordOf, vs);
  }

  lemma ThreeListsParts(e1: Shape, e2: Shape, e3: Shape, v: Val) returns (x1: seq<Val>, x2: seq<Val>, x3: seq<Val>)
    requires Shaped(S2(SList(e1), SList(e2), SList(e3)), v)
    ensures v == V2(VList(x1), VList(x2), VList(x3))
    ensures ShapedItems(e1, x1) && ShapedItems(e2, x2) && ShapedItems(e3, x3)
  {
    var s, w := Next2(S2(SList(e1), SList(e2), SList(e3)), v);
    x1, x2, x3 := v.first.elems, v.rest.first.elems, v.rest.rest.elems;
  }

  lemma TablesWrite(v: Val, b: Body)
    requires Shaped(TABLES, v)
    requires b.sets == MapSeq(ReplicaSetStateOf, ElemsOf(Field(v, 0)))
    requires b.replicas == MapSeq(ReplicaStateOf, ElemsOf(Field(v, 1)))
    requires b.workers == MapSeq(WorkerRegistrationOf, ElemsOf(Tail(v, 2)))
    ensures TablesVal(b) == v
  {
    var x1, x2, x3 := ThreeListsParts(REPLICA_SET_STATE, REPLICA_STATE, WORKER_REGISTRATION, v);
    SetsWrite(x1);
    ReplicasWrite(x2);
    WorkersWrite(x3);
  }

  lemma LogsWrite(v: Val, b: Body)
    requires Shaped(LOGS, v)
    requires b.promotions == MapSeq(PromotionRecordOf, ElemsOf(Field(v, 0)))
    requires b.drains == MapSeq(DrainRecordOf, ElemsOf(Field(v, 1)))
    requires b.failovers == MapSeq(FailoverRecordOf, ElemsOf(Tail(v, 2)))
    ensures LogsVal(b) == v
  {
    var x1, x2, x3 := ThreeListsParts(PROMOTION_RECORD, DRAIN_RECORD, FAILOVER_RECORD, v);
    PromotionsWrite(x1);
    DrainsWrite(x2);
    FailoversWrite(x3);
  }

  lemma BodyWrites(v: Val)
    requires Shaped(BODY, v)
    ensures BodyVal(BodyOf(v)) == v
  {
    var s, w := Next2(BODY, v);
    TablesWrite(Field(v, 0), BodyOf(v));
    LogsWrite(Field(v, 1), BodyOf(v));
  }
}
