/** What crates/godworks-protocol/src/json.rs writes for operations built in memory, which carry no fields of
    their own, and which operations it knows. */
module ProtocolWrites {
  import opened Wrappers
  import opened Json
  import opened WireNames
  import opened Protocol

  // ---------------------------------------------------------------- operations without fields

  lemma {:induction false} BehindOp(kind: Kind, rest: seq<Field>, k: Key)
    requires k != KOp
    ensures Look(ObjectWithOp(kind, rest), k) == Look(Obj(rest), k)
  {
    hide Look, Put, KindName;
  }

  lemma {:induction false} NothingThere(k: Key)
    ensures Look(Obj([]), k) == None
  {}

  lemma {:induction false} FourFields(k1: Key, v1: Option<Value>, k2: Key, v2: Option<Value>,
                                      k3: Key, v3: Option<Value>, k4: Key, v4: Option<Value>, rest: seq<Field>, k: Key)
    requires k1 != k2 && k1 != k3 && k1 != k4 && k2 != k3 && k2 != k4 && k3 != k4
    requires Look(Obj(rest), k1).None? && Look(Obj(rest), k2).None? && Look(Obj(rest), k3).None?
      && Look(Obj(rest), k4).None?
    ensures Look(Obj(Put(k1, v1, Put(k2, v2, Put(k3, v3, Put(k4, v4, rest))))), k) ==
      if k == k1 then v1 else if k == k2 then v2 else if k == k3 then v3 else if k == k4 then v4
      else Look(Obj(rest), k)
  {
    hide Look, Put;
  }

  /** The second half of a handoff's fields. */
  function HandoffEnds(vel: Point, epoch: Option<u64>, lease: Option<u64>, gen: Option<u64>): seq<Field> {
    Put(KVel, PointValue(vel), Put(KAuthorityEpoch, OptU(epoch), Put(KLeaseEpoch, OptU(lease),
      Put(KSourceDurableGen, OptU(gen), []))))
  }

  lemma {:induction false} EndsLook(vel: Point, epoch: Option<u64>, lease: Option<u64>, gen: Option<u64>, k: Key)
    ensures Look(Obj(HandoffEnds(vel, epoch, lease, gen)), k) ==
      if k == KVel then PointValue(vel) else if k == KAuthorityEpoch then OptU(epoch)
      else if k == KLeaseEpoch then OptU(lease) else if k == KSourceDurableGen then OptU(gen) else None
  {
    hide Look, Put, PointValue, OptU;
    NothingThere(KVel);
    NothingThere(KAuthorityEpoch);
    NothingThere(KLeaseEpoch);
    NothingThere(KSourceDurableGen);
    NothingThere(k);
    FourFields(KVel, PointValue(vel), KAuthorityEpoch, OptU(epoch), KLeaseEpoch, OptU(lease),
               KSourceDurableGen, OptU(gen), [], k);
  }

  /** The first half in front of it. */
  lemma {:induction false} HandoffIs(e: string, source: Option<string>, target: string, pos: Point, vel: Point,
                                     epoch: Option<u64>, lease: Option<u64>, gen: Option<u64>)
    ensures Encode(MeshHandoff(e, source, target, pos, vel, epoch, lease, gen, [])) ==
      ObjectWithOp(IsMeshHandoff, Put(KEntity, S(e), Put(KSourceRegion, OptS(source), Put(KTarget, S(target),
        Put(KPos, PointValue(pos), HandoffEnds(vel, epoch, lease, gen))))))
  {
    hide Put, PointValue, OptU, OptS, ObjectWithOp;
  }

  lemma {:induction false} HandoffLooks(e: string, source: Option<string>, target: string, pos: Point, vel: Point,
                                        epoch: Option<u64>, lease: Option<u64>, gen: Option<u64>, k: Key)
    requires k != KOp
    ensures Look(Encode(MeshHandoff(e, source, target, pos, vel, epoch, lease, gen, [])), k) ==
      if k == KEntity then S(e) else if k == KSourceRegion then OptS(source) else if k == KTarget then S(target)
      else if k == KPos then PointValue(pos)
      else Look(Obj(HandoffEnds(vel, epoch, lease, gen)), k)
  {
    hide *;
    var ends := HandoffEnds(vel, epoch, lease, gen);
    var rest := Put(KEntity, S(e), Put(KSourceRegion, OptS(source), Put(KTarget, S(target),
                  Put(KPos, PointValue(pos), ends))));
    HandoffIs(e, source, target, pos, vel, epoch, lease, gen);
    BehindOp(IsMeshHandoff, rest, k);
    EndsLook(vel, epoch, lease, gen, KEntity);
    EndsLook(vel, epoch, lease, gen, KSourceRegion);
    EndsLook(vel, epoch, lease, gen, KTarget);
    EndsLook(vel, epoch, lease, gen, KPos);
    FourFields(KEntity, S(e), KSourceRegion, OptS(source), KTarget, S(target), KPos, PointValue(pos), ends, k);
  }

  lemma {:induction false} HandoffFrom(v: Value, e: string, source: Option<string>, target: string, pos: Point,
                                       vel: Point, epoch: Option<u64>, lease: Option<u64>, gen: Option<u64>)
    requires e != "" && target != "" && source != Some("")
    requires Look(v, KEntity) == S(e) && Look(v, KSourceRegion) == OptS(source) && Look(v, KSrcRegion).None?
    requires Look(v, KTarget) == S(target) && Look(v, KPos) == PointValue(pos) && Look(v, KVel) == PointValue(vel)
    requires Look(v, KAuthorityEpoch) == OptU(epoch) && Look(v, KEpoch).None? && Look(v, KLeaseEpoch) == OptU(lease)
    requires Look(v, KSourceDurableGen) == OptU(gen)
    ensures DecodeMeshHandoff(v) == Ok(MeshHandoff(e, source, target, pos, vel, epoch, lease, gen, FieldsOf(v)))
  {
    PointBack(pos);
    PointBack(vel);
    hide Look, FieldsOf, PointValue, MapPoint, WireName;
  }

  /** A handoff built in memory reads back field by field, with what was written as its fields. */
  lemma {:induction false} HandoffWritten(e: string, source: Option<string>, target: string, pos: Point, vel: Point,
                                          epoch: Option<u64>, lease: Option<u64>, gen: Option<u64>)
    requires e != "" && target != "" && source != Some("")
    ensures var w := Encode(MeshHandoff(e, source, target, pos, vel, epoch, lease, gen, []));
      DecodeMeshHandoff(w) == Ok(MeshHandoff(e, source, target, pos, vel, epoch, lease, gen, FieldsOf(w)))
  {
    hide *;
    var w := Encode(MeshHandoff(e, source, target, pos, vel, epoch, lease, gen, []));
    HandoffLooks(e, source, target, pos, vel, epoch, lease, gen, KEntity);
    HandoffLooks(e, source, target, pos, vel, epoch, lease, gen, KSourceRegion);
    HandoffLooks(e, source, target, pos, vel, epoch, lease, gen, KTarget);
    HandoffLooks(e, source, target, pos, vel, epoch, lease, gen, KPos);
    HandoffLater(e, source, target, pos, vel, epoch, lease, gen, KSrcRegion);
    HandoffLater(e, source, target, pos, vel, epoch, lease, gen, KVel);
    HandoffLater(e, source, target, pos, vel, epoch, lease, gen, KAuthorityEpoch);
    HandoffLater(e, source, target, pos, vel, epoch, lease, gen, KEpoch);
    HandoffLater(e, source, target, pos, vel, epoch, lease, gen, KLeaseEpoch);
    HandoffLater(e, source, target, pos, vel, epoch, lease, gen, KSourceDurableGen);
    HandoffFrom(w, e, source, target, pos, vel, epoch, lease, gen);
  }

  lemma {:induction false} HandoffLater(e: string, source: Option<string>, target: string, pos: Point, vel: Point,
                                        epoch: Option<u64>, lease: Option<u64>, gen: Option<u64>, k: Key)
    requires k != KOp && k != KEntity && k != KSourceRegion && k != KTarget && k != KPos
    ensures Look(Encode(MeshHandoff(e, source, target, pos, vel, epoch, lease, gen, [])), k) ==
      if k == KVel then PointValue(vel) else if k == KAuthorityEpoch then OptU(epoch)
      else if k == KLeaseEpoch then OptU(lease) else if k == KSourceDurableGen then OptU(gen) else None
  {
    hide *;
    HandoffLooks(e, source, target, pos, vel, epoch, lease, gen, k);
    EndsLook(vel, epoch, lease, gen, k);
  }

  lemma {:induction false} PointBack(p: Point)
    ensures MapPoint(PointValue(p)) == Some(p)
  {}

  lemma {:induction false} ChangeLooks(e: string, component: string, authoritative: bool, at: u64, mode: string, k: Key)
    requires k != KOp
    ensures Look(EncodeAuthorityChange(AuthorityChange(e, component, authoritative, at, mode, [])), k) ==
      if k == KEntity then S(e)
      else if k == KComp then S(component)
      else if k == KAuthoritative then Some(Bool(authoritative))
      else if k == KAuthorityEpoch then U(at)
      else if k == KMode then S(mode)
      else None
  {
    NothingThere(k);
    hide Look, Put, KindName;
  }

  lemma {:induction false} Dispatched(op: Op)
    ensures op.AuthorityChange? ==> Encode(op) == EncodeAuthorityChange(op)
    ensures op.UpdateRejected? ==> Encode(op) == EncodeUpdateRejected(op)
  {
    hide EncodeAuthorityChange, EncodeUpdateRejected;
  }

  lemma {:induction false} ChangeFrom(v: Value, e: string, component: string, authoritative: bool, at: u64,
                                      mode: string)
    requires e != "" && component != "" && Look(v, KEntity) == S(e) && Look(v, KComp) == S(component)
    requires Look(v, KAuthoritative) == Some(Bool(authoritative)) && Look(v, KAuthorityEpoch) == U(at)
    requires Look(v, KMode) == S(mode)
    ensures DecodeAuthorityChange(v) == Ok(AuthorityChange(e, component, authoritative, at, mode, FieldsOf(v)))
  {
    hide Look, FieldsOf, WireName;
  }

  /** An authority change built in memory reads back field by field. */
  lemma {:induction false} AuthorityChangeWritten(e: string, component: string, authoritative: bool, at: u64,
                                                  mode: string)
    requires e != "" && component != ""
    ensures var w := Encode(AuthorityChange(e, component, authoritative, at, mode, []));
      DecodeAuthorityChange(w) == Ok(AuthorityChange(e, component, authoritative, at, mode, FieldsOf(w)))
  {
    hide *;
    Dispatched(AuthorityChange(e, component, authoritative, at, mode, []));
    ChangeLooks(e, component, authoritative, at, mode, KEntity);
    ChangeLooks(e, component, authoritative, at, mode, KComp);
    ChangeLooks(e, component, authoritative, at, mode, KAuthoritative);
    ChangeLooks(e, component, authoritative, at, mode, KAuthorityEpoch);
    ChangeLooks(e, component, authoritative, at, mode, KMode);
    ChangeFrom(Encode(AuthorityChange(e, component, authoritative, at, mode, [])),
               e, component, authoritative, at, mode);
  }

  lemma {:induction false} RejectionLooks(about: Option<string>, which: Option<string>, reason: string, k: Key)
    requires k != KOp
    ensures Look(EncodeUpdateRejected(UpdateRejected(about, which, reason, [])), k) ==
      if k == KEntity then OptS(about) else if k == KComp then OptS(which) else if k == KReason then S(reason) else None
  {
    NothingThere(k);
    hide Look, Put, KindName;
  }

  lemma {:induction false} RejectionFrom(v: Value, about: Option<string>, which: Option<string>, reason: string)
    requires about != Some("") && which != Some("") && Look(v, KEntity) == OptS(about) && Look(v, KComp) == OptS(which)
    requires Look(v, KComponent).None? && Look(v, KReason) == S(reason)
    ensures DecodeUpdateRejected(v) == UpdateRejected(about, which, reason, FieldsOf(v))
  {
    hide Look, FieldsOf, WireName;
  }

  /** A rejection built in memory reads back field by field. */
  lemma {:induction false} RejectionWritten(about: Option<string>, which: Option<string>, reason: string)
    requires about != Some("") && which != Some("")
    ensures var w := Encode(UpdateRejected(about, which, reason, []));
      DecodeUpdateRejected(w) == UpdateRejected(about, which, reason, FieldsOf(w))
  {
    hide *;
    Dispatched(UpdateRejected(about, which, reason, []));
    RejectionLooks(about, which, reason, KEntity);
    RejectionLooks(about, which, reason, KComp);
    RejectionLooks(about, which, reason, KComponent);
    RejectionLooks(about, which, reason, KReason);
    RejectionFrom(Encode(UpdateRejected(about, which, reason, [])), about, which, reason);
  }

  // ---------------------------------------------------------------- the operations there are

  /** The operations with a payload of their own. */
  const TYPED: seq<string> := [
    "WorkerConnect", "AuthReject", "Disconnect", "Heartbeat", "Interest", "CriticalSection", "AddEntity",
    "RemoveEntity", "CreateEntity", "DeleteEntity", "ReserveEntityIds", "AddComponent", "RemoveComponent",
    "UpdateComponent", "BatchUpdate", "AuthorityChange", "UpdateRejected", "MeshHandoff", "MeshAck", "Health"]

  lemma {:induction false} ConnectionKinds()
    ensures KindOf("WorkerConnect") == Some(IsWorkerConnect) && KindOf("AuthReject") == Some(IsAuthReject)
    ensures KindOf("Disconnect") == Some(IsDisconnect) && KindOf("Heartbeat") == Some(IsHeartbeat)
    ensures KindOf("Interest") == Some(IsInterest) && KindOf("CriticalSection") == Some(IsCriticalSection)
  {}

  lemma {:induction false} LifecycleKinds()
    ensures KindOf("AddEntity") == Some(IsAddEntity) && KindOf("RemoveEntity") == Some(IsRemoveEntity)
    ensures KindOf("CreateEntity") == Some(IsCreateEntity) && KindOf("DeleteEntity") == Some(IsDeleteEntity)
    ensures KindOf("ReserveEntityIds") == Some(IsReserveEntityIds)
  {}

  lemma {:induction false} ComponentKinds()
    ensures KindOf("AddComponent") == Some(IsAddComponent) && KindOf("RemoveComponent") == Some(IsRemoveComponent)
    ensures KindOf("UpdateComponent") == Some(IsUpdateComponent) && KindOf("BatchUpdate") == Some(IsBatchUpdate)
    ensures KindOf("AuthorityChange") == Some(IsAuthorityChange)
  {}

  lemma {:induction false} MeshKinds()
    ensures KindOf("UpdateRejected") == Some(IsUpdateRejected) && KindOf("MeshHandoff") == Some(IsMeshHandoff)
    ensures KindOf("MeshAck") == Some(IsMeshAck) && KindOf("Health") == Some(IsHealth)
  {}

  /** The operations that only carry their fields: entity answers and updates. */
  predicate Answers(name: string) {
    || name == "CreateEntityResponse" || name == "DeleteEntityResponse" || name == "ReserveEntityIdsResponse"
    || name == "ComponentUpdate" || name == "SetComponentAuthority" || name == "SetComponentAuthorityResponse"
  }

  /** Transactions, queries and commands. */
  predicate Queries(name: string) {
    || name == "Fold" || name == "ThresholdTx" || name == "ThresholdTxResponse" || name == "EntityQuery"
    || name == "EntityQueryResponse" || name == "InspectorQuery" || name == "InspectorFrame"
    || name == "CommandRequest" || name == "CommandResponse"
  }

  /** Events, snapshots, the mesh and logs. */
  predicate Notices(name: string) {
    || name == "EntityEvent" || name == "FlagUpdate" || name == "Metrics" || name == "SnapshotMarker"
    || name == "SnapshotManifest" || name == "MeshGhost" || name == "MeshGhostRemove" || name == "LogMessage"
  }

  lemma {:induction false} AnswersCarried(name: string)
    requires Answers(name)
    ensures name in BAGS
  {
    assert BAGS[..6] == ["CreateEntityResponse", "DeleteEntityResponse", "ReserveEntityIdsResponse", "ComponentUpdate",
                         "SetComponentAuthority", "SetComponentAuthorityResponse"];
    assert name in BAGS[..6];
    hide BAGS;
  }

  lemma {:induction false} QueriesCarried(name: string)
    requires Queries(name)
    ensures name in BAGS
  {
    assert BAGS[6..15] == ["Fold", "ThresholdTx", "ThresholdTxResponse", "EntityQuery", "EntityQueryResponse",
                           "InspectorQuery", "InspectorFrame", "CommandRequest", "CommandResponse"];
    assert name in BAGS[6..15];
    hide BAGS;
  }

  lemma {:induction false} NoticesCarried(name: string)
    requires Notices(name)
    ensures name in BAGS
  {
    assert BAGS[15..] == ["EntityEvent", "FlagUpdate", "Metrics", "SnapshotMarker", "SnapshotManifest", "MeshGhost",
                          "MeshGhostRemove", "LogMessage"];
    assert name in BAGS[15..];
    hide BAGS;
  }

  lemma {:induction false} CarriedOnly(name: string)
    requires name in BAGS
    ensures Answers(name) || Queries(name) || Notices(name)
  {}

  lemma {:induction false} BagsAre(name: string)
    ensures name in BAGS <==> Answers(name) || Queries(name) || Notices(name)
  {
    hide BAGS, Answers, Queries, Notices;
    if Answers(name) {
      AnswersCarried(name);
    }
    if Queries(name) {
      QueriesCarried(name);
    }
    if Notices(name) {
      NoticesCarried(name);
    }
    if name in BAGS {
      CarriedOnly(name);
    }
  }

  lemma {:induction false} AnswersUntyped(name: string)
    requires Answers(name)
    ensures name !in TYPED
  {}

  lemma {:induction false} QueriesUntyped(name: string)
    requires Queries(name)
    ensures name !in TYPED
  {}

  lemma {:induction false} NoticesUntyped(name: string)
    requires Notices(name)
    ensures name !in TYPED
  {}

  /** An operation is known exactly if it is one of the twenty with a payload or one of those that only
      carry their fields; the latter are known as such. */
  lemma {:induction false} KnownOperations(name: string)
    ensures KindOf(name).Some? <==> name in TYPED || Answers(name) || Queries(name) || Notices(name)
    ensures Answers(name) || Queries(name) || Notices(name) ==> KindOf(name) == Some(IsBag(name))
  {
    BagsAre(name);
    if name in BAGS {
      if Answers(name) {
        AnswersUntyped(name);
      } else if Queries(name) {
        QueriesUntyped(name);
      } else {
        NoticesUntyped(name);
      }
    }
    hide BAGS, Answers, Queries, Notices;
    KnownIff(name);
  }

  lemma {:induction false} KnownIff(name: string)
    ensures KindOf(name).Some? <==> name in TYPED || name in BAGS
    ensures name in BAGS && name !in TYPED ==> KindOf(name) == Some(IsBag(name))
  {
    hide BAGS;
  }
}
