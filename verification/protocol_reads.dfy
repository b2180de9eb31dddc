/** What the decoders of crates/godworks-protocol/src/json.rs read from an object: the fields in full, the
    defaults where they are missing, the older names they also answer to, and what they refuse. */
module ProtocolReads {
  import opened Wrappers
  import opened Json
  import opened WireNames
  import opened Protocol

  // ---------------------------------------------------------------- fields

  /** The field holds a string that is not empty. */
  predicate Text(v: Value, k: Key, s: string) { Look(v, k) == Some(Str(s)) && s != "" }

  predicate Missing(v: Value, k: Key) { Look(v, k) == None }

  /** A point of two floats. */
  predicate At2(v: Value, k: Key, p: Point) { Look(v, k) == Some(Arr([Num(Float(p.x)), Num(Float(p.y))])) }

  predicate Count(v: Value, k: Key, n: u64) { Look(v, k) == Some(Num(Unsigned(n))) }

  lemma {:induction false} PointRead(v: Value, k: Key, p: Point)
    requires At2(v, k, p)
    ensures MapPoint(Look(v, k)) == Some(p)
  {
    hide Look;
  }

  lemma {:induction false} TextRead(v: Value, k: Key, s: string)
    requires Text(v, k, s)
    ensures OptionalStr(v, k) == Some(s) && RequiredStr(v, k) == Ok(s)
  {
    hide Look;
  }

  lemma {:induction false} EpochRead(v: Value, n: u64)
    requires Count(v, KAuthorityEpoch, n) || (Missing(v, KAuthorityEpoch) && Count(v, KEpoch, n))
    ensures AuthorityEpoch(v) == Some(n)
  {
    hide Look;
  }

  lemma {:induction false} NoEpochRead(v: Value)
    requires Missing(v, KAuthorityEpoch) && Missing(v, KEpoch)
    ensures AuthorityEpoch(v) == None
  {
    hide Look;
  }

  /** The component goes by `comp`, or by `component` if there is no `comp`. */
  predicate Named(v: Value, component: string) {
    Text(v, KComp, component) || (Missing(v, KComp) && Text(v, KComponent, component))
  }

  lemma {:induction false} ComponentRead(v: Value, component: string)
    requires Named(v, component)
    ensures ComponentNameOf(v) == Some(component) && RequiredComponentName(v) == Ok(component)
  {
    hide Look;
  }

  // ---------------------------------------------------------------- mesh handoff

  /** A handoff with all its fields decodes to these fields. */
  lemma {:induction false} HandoffReads(v: Value, e: string, source: string, target: string, pos: Point, vel: Point,
                                        epoch: u64, lease: u64, gen: u64)
    requires Text(v, KEntity, e) && At2(v, KPos, pos) && At2(v, KVel, vel)
    requires Text(v, KTarget, target) || (Missing(v, KTarget) && Text(v, KRegion, target))
    requires Text(v, KSourceRegion, source) || (Missing(v, KSourceRegion) && Text(v, KSrcRegion, source))
    requires Count(v, KAuthorityEpoch, epoch) || (Missing(v, KAuthorityEpoch) && Count(v, KEpoch, epoch))
    requires Count(v, KLeaseEpoch, lease) && Count(v, KSourceDurableGen, gen)
    ensures DecodeMeshHandoff(v) ==
      Ok(MeshHandoff(e, Some(source), target, pos, vel, Some(epoch), Some(lease), Some(gen), FieldsOf(v)))
  {
    hide Look, FieldsOf, WireName, MapPoint, AuthorityEpoch;
    PointRead(v, KPos, pos);
    PointRead(v, KVel, vel);
    EpochRead(v, epoch);
  }

  /** A handoff that names only its entity and target stands still at the origin. */
  lemma {:induction false} HandoffDefaults(v: Value, e: string, target: string)
    requires Text(v, KEntity, e) && Text(v, KTarget, target) && Missing(v, KPos) && Missing(v, KVel)
    requires Missing(v, KSourceRegion) && Missing(v, KSrcRegion) && Missing(v, KAuthorityEpoch) && Missing(v, KEpoch)
    requires Missing(v, KLeaseEpoch) && Missing(v, KSourceDurableGen)
    ensures DecodeMeshHandoff(v) ==
      Ok(MeshHandoff(e, None, target, Point(0.0, 0.0), Point(0.0, 0.0), None, None, None, FieldsOf(v)))
  {
    hide Look, FieldsOf, WireName;
  }

  /** Without a target it is refused for the target, else without an entity for the entity. */
  lemma {:induction false} HandoffRefused(v: Value, target: string)
    ensures Missing(v, KTarget) && Missing(v, KRegion) ==>
      DecodeMeshHandoff(v) == Err(MissingRequiredField(WireName(KTarget)))
    ensures Text(v, KTarget, target) && Missing(v, KEntity) ==>
      DecodeMeshHandoff(v) == Err(MissingRequiredField(WireName(KEntity)))
  {
    hide Look, FieldsOf, WireName, MapPoint, AuthorityEpoch;
  }

  // ---------------------------------------------------------------- authority and rejections

  lemma {:induction false} AuthorityChangeReads(v: Value, e: string, component: string, authoritative: bool, epoch: u64,
                                                mode: string)
    requires Text(v, KEntity, e) && Text(v, KComp, component) && Look(v, KAuthoritative) == Some(Bool(authoritative))
    requires Count(v, KAuthorityEpoch, epoch) || (Missing(v, KAuthorityEpoch) && Count(v, KEpoch, epoch))
    requires Text(v, KMode, mode)
    ensures DecodeAuthorityChange(v) == Ok(AuthorityChange(e, component, authoritative, epoch, mode, FieldsOf(v)))
  {
    hide Look, FieldsOf, WireName, AuthorityEpoch;
    EpochRead(v, epoch);
  }

  /** A change that names only its entity revokes the position, at epoch 0. */
  lemma {:induction false} AuthorityChangeDefaults(v: Value, e: string)
    requires Text(v, KEntity, e) && Missing(v, KComp) && Missing(v, KAuthoritative) && Missing(v, KAuthorityEpoch)
    requires Missing(v, KEpoch) && Missing(v, KMode)
    ensures DecodeAuthorityChange(v) == Ok(AuthorityChange(e, "pos", false, 0, "", FieldsOf(v)))
  {
    hide Look, FieldsOf, WireName;
  }

  lemma {:induction false} RejectionReads(v: Value, e: string, component: string, reason: string)
    requires Text(v, KEntity, e) && Named(v, component) && Text(v, KReason, reason)
    ensures DecodeUpdateRejected(v) == UpdateRejected(Some(e), Some(component), reason, FieldsOf(v))
  {
    hide Look, FieldsOf, WireName, ComponentNameOf;
    ComponentRead(v, component);
  }

  lemma {:induction false} RejectionDefaults(v: Value)
    requires Missing(v, KEntity) && Missing(v, KComp) && Missing(v, KComponent) && Missing(v, KReason)
    ensures DecodeUpdateRejected(v) == UpdateRejected(None, None, "", FieldsOf(v))
  {
    hide Look, FieldsOf, WireName;
  }

  // ---------------------------------------------------------------- components

  lemma {:induction false} ComponentReads(v: Value, e: string, component: string, value: Value, epoch: u64)
    requires Text(v, KEntity, e) && Named(v, component) && Look(v, KValue) == Some(value)
    requires Count(v, KAuthorityEpoch, epoch) || (Missing(v, KAuthorityEpoch) && Count(v, KEpoch, epoch))
    ensures DecodeAddComponent(v) == Ok(AddComponent(e, component, value, Some(epoch)))
    ensures DecodeUpdateComponent(v) == Ok(UpdateComponent(e, component, value, Some(epoch)))
    ensures DecodeRemoveComponent(v) == Ok(RemoveComponent(e, component, Some(epoch)))
  {
    hide Look, WireName, AuthorityEpoch, RequiredComponentName, RequiredStr;
    TextRead(v, KEntity, e);
    ComponentRead(v, component);
    EpochRead(v, epoch);
  }

  lemma {:induction false} ComponentDefaults(v: Value, e: string, component: string)
    requires Text(v, KEntity, e) && Named(v, component) && Missing(v, KValue)
    requires Missing(v, KAuthorityEpoch) && Missing(v, KEpoch)
    ensures DecodeAddComponent(v) == Ok(AddComponent(e, component, Null, None))
    ensures DecodeUpdateComponent(v) == Ok(UpdateComponent(e, component, Null, None))
    ensures DecodeRemoveComponent(v) == Ok(RemoveComponent(e, component, None))
  {
    hide Look, WireName, AuthorityEpoch, RequiredComponentName, RequiredStr;
    TextRead(v, KEntity, e);
    ComponentRead(v, component);
    NoEpochRead(v);
  }

  /** The entity is asked for before the component. */
  lemma {:induction false} ComponentRefused(v: Value, e: string)
    ensures Missing(v, KEntity) ==> DecodeAddComponent(v) == Err(MissingRequiredField(WireName(KEntity)))
    ensures Text(v, KEntity, e) && Missing(v, KComp) && Missing(v, KComponent) ==>
      DecodeAddComponent(v) == Err(MissingRequiredField(WireName(KComp)))
  {
    hide Look, WireName, AuthorityEpoch;
  }

  /** A batch entry written as an array or as an object. */
  lemma {:induction false} BatchEntryReads(e: string, value: Value, epoch: u64)
    ensures DecodeBatchEntry(Arr([Str(e), value, Num(Unsigned(epoch))])) == Ok(BatchEntry(e, value, Some(epoch)))
    ensures DecodeBatchEntry(Arr([Str(e), value])) == Ok(BatchEntry(e, value, None))
    ensures DecodeBatchEntry(Arr([Str(e)])) == Ok(BatchEntry(e, Null, None))
    ensures DecodeBatchEntry(Arr([])).Err? && DecodeBatchEntry(Null).Err?
  {
    hide WireName;
  }

  // ---------------------------------------------------------------- entities

  lemma {:induction false} CreateReads(v: Value, e: string, request: string, region: string)
    requires Text(v, KEntity, e) && Text(v, KRequestId, request) && Text(v, KRegion, region)
    ensures DecodeCreateEntity(v) == Ok(CreateEntity(e, Some(request), Some(region), ComponentBag(v)))
  {
    hide Look, WireName, ComponentBag;
  }

  lemma {:induction false} BagReads(v: Value, components: Value)
    ensures Look(v, KComponents) == Some(components) ==> ComponentBag(v) == components
    ensures Missing(v, KComponents) ==>
      && Look(ComponentBag(v), KPos) == Look(v, KPos) && Look(ComponentBag(v), KVel) == Look(v, KVel)
  {
    assert Look(Obj([]), KPos) == None && Look(Obj([]), KVel) == None;
    hide Look, Put;
  }

  lemma {:induction false} DeleteReads(v: Value, e: string, request: string, epoch: u64)
    requires Text(v, KEntity, e) && Text(v, KRequestId, request)
    requires Count(v, KAuthorityEpoch, epoch) || (Missing(v, KAuthorityEpoch) && Count(v, KEpoch, epoch))
    ensures DecodeDeleteEntity(v) == Ok(DeleteEntity(e, Some(request), Some(epoch)))
  {
    hide Look, WireName, AuthorityEpoch;
    EpochRead(v, epoch);
  }

  lemma {:induction false} ReserveReads(v: Value, request: string, n: u64)
    requires Text(v, KRequestId, request)
    ensures Count(v, KCount, n) || (Missing(v, KCount) && Count(v, KN, n)) ==>
      DecodeReserveEntityIds(v) == ReserveEntityIds(Some(request), n)
    ensures Missing(v, KCount) && Missing(v, KN) ==> DecodeReserveEntityIds(v) == ReserveEntityIds(Some(request), 0)
  {
    hide Look, WireName;
  }

  // ---------------------------------------------------------------- connections

  lemma {:induction false} ConnectReads(v: Value, worker: string, region: string, token: string)
    requires Text(v, KWorkerId, worker) && Text(v, KRegion, region) && Text(v, KAuthToken, token)
    requires Missing(v, KProto) || Count(v, KProto, 1)
    ensures
      var r := DecodeWorkerConnect(v);
      && r.Ok? && r.value.WorkerConnect? && r.value.workerId == worker && r.value.region == region
      && r.value.authToken == Some(token) && r.value.proto == (if Missing(v, KProto) then None else Some(1))
  {
    hide Look, WireName, Strings;
  }

  /** Only version 1 is spoken; the version is looked at first, then the worker, then the region. */
  lemma {:induction false} ConnectRefused(v: Value, n: u64, worker: string)
    ensures Count(v, KProto, n) && n != 1 ==> DecodeWorkerConnect(v) == Err(UnsupportedVersion(n))
    ensures Count(v, KProto, 1) && Missing(v, KWorkerId) ==>
      DecodeWorkerConnect(v) == Err(MissingRequiredField(WireName(KWorkerId)))
    ensures Count(v, KProto, 1) && Text(v, KWorkerId, worker) && Missing(v, KRegion) ==>
      DecodeWorkerConnect(v) == Err(MissingRequiredField(WireName(KRegion)))
  {
    hide Look, WireName, Strings;
  }

  /** Of the attributes the strings are kept, in order. */
  lemma {:induction false} AttributesRead(items: seq<Value>, other: Value)
    requires !other.Str?
    ensures Strings([other] + items) == Strings(items)
    ensures forall s :: Strings([Str(s)] + items) == [s] + Strings(items)
  {
    assert ([other] + items)[1..] == items;
    forall s ensures Strings([Str(s)] + items) == [s] + Strings(items) {
      assert ([Str(s)] + items)[1..] == items;
    }
  }

  lemma {:induction false} AuthRejectReads(v: Value, worker: string, error: string, reason: string)
    ensures Text(v, KWorkerId, worker) && Text(v, KError, error) && Text(v, KReason, reason) ==>
      DecodeAuthReject(v) == AuthReject(Some(worker), error, reason)
    ensures Missing(v, KWorkerId) && Missing(v, KError) && Missing(v, KReason) ==>
      DecodeAuthReject(v) == AuthReject(None, "auth_error", "")
  {
    hide Look, WireName;
  }

  /** An interest in full, under the current names or the older ones. */
  lemma {:induction false} InterestReads(v: Value, center: Point, radius: real, full: real, rate: u64, grid: real)
    requires At2(v, KCenter, center) && Look(v, KRadius) == Some(Num(Float(radius)))
    requires Look(v, KFullRadius) == Some(Num(Float(full)))
      || (Missing(v, KFullRadius) && Look(v, KFullRadiusCamel) == Some(Num(Float(full))))
    requires Count(v, KCoarseRate, rate) || (Missing(v, KCoarseRate) && Count(v, KCoarseRateCamel, rate))
    requires Look(v, KCoarseGrid) == Some(Num(Float(grid)))
      || (Missing(v, KCoarseGrid) && Look(v, KCoarseGridCamel) == Some(Num(Float(grid))))
    ensures DecodeInterest(v) == Interest(Some(Circle(center, radius)), Some(full), rate, grid)
  {
    hide Look, MapPoint;
    PointRead(v, KCenter, center);
  }

  /** An empty interest has no area and no radius, is told every time, and on no grid. */
  lemma {:induction false} InterestDefaults(v: Value)
    requires Missing(v, KCenter) && Missing(v, KRadius) && Missing(v, KFullRadius) && Missing(v, KFullRadiusCamel)
    requires Missing(v, KCoarseRate) && Missing(v, KCoarseRateCamel)
    requires Missing(v, KCoarseGrid) && Missing(v, KCoarseGridCamel)
    ensures DecodeInterest(v) == Interest(None, None, 1, 0.0)
  {
    hide Look;
  }

  /** The operations that only name an entity, a worker or a phase. */
  lemma {:induction false} SmallReads(v: Value, e: string, worker: string, phase: string)
    requires Text(v, KEntity, e) && Text(v, KWorkerId, worker) && Text(v, KPhase, phase)
    ensures DecodeKind(IsAddEntity, v) == Ok(AddEntity(e, Look(v, KComponents)))
    ensures DecodeKind(IsRemoveEntity, v) == Ok(RemoveEntity(e)) && DecodeKind(IsMeshAck, v) == Ok(MeshAck(e))
    ensures DecodeKind(IsHeartbeat, v) == Ok(Heartbeat(Some(worker)))
    ensures DecodeKind(IsCriticalSection, v) == Ok(CriticalSection(phase, Some(e)))
  {
    hide Look, WireName, OptionalStr, RequiredStr;
    TextRead(v, KEntity, e);
    TextRead(v, KWorkerId, worker);
    TextRead(v, KPhase, phase);
  }

  /** A number of any form is a coordinate; anything else counts as zero. */
  lemma {:induction false} CoordinatesRead(a: u64, b: int, c: real, other: Value)
    requires !other.Num?
    ensures PointFrom(Arr([Num(Unsigned(a)), Num(Negative(b))])) == Point(a as real, b as real)
    ensures PointFrom(Arr([Num(Float(c)), other])) == Point(c, 0.0) && PointFrom(Arr([])) == Point(0.0, 0.0)
  {}

  /** An object without an operation is refused for it, one with an unknown operation by its name. */
  lemma {:induction false} DecodeRefused(v: Value, name: string)
    ensures Missing(v, KOp) ==> Decode(v) == Err(MissingRequiredField(WireName(KOp)))
    ensures Text(v, KOp, name) && KindOf(name).None? ==> Decode(v) == Err(UnknownOperation(name))
    ensures Text(v, KOp, name) && KindOf(name).Some? ==> Decode(v) == DecodeKind(KindOf(name).value, v)
  {
    hide Look, WireName, KindOf, DecodeKind;
  }
}
