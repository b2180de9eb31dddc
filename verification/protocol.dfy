/** The typed operations of the v1 wire and their JSON codec, crates/godworks-protocol/src/json.rs. */
module Protocol {
  import opened Wrappers
  import opened Json
  import opened WireNames

  const MIN_PROTOCOL_VERSION: u64 := 1
  const PROTOCOL_VERSION: u64 := 1

  datatype ProtocolError =
    | UnsupportedVersion(version: u64)
    | MalformedFrame(message: string)
    | UnknownOperation(op: string)
    | MissingRequiredField(field: string)

  // ---------------------------------------------------------------- operations

  datatype Point = Point(x: real, y: real)

  datatype Aoi = Circle(center: Point, radius: real) | Box(min: Point, max: Point)

  datatype BatchEntry = BatchEntry(entity: string, value: Value, authorityEpoch: Option<u64>)

  /** One constructor per operation with a typed payload; the operations that only carry their JSON
      fields share the last one, told apart by their wire name. */
  datatype Op =
    | WorkerConnect(workerId: string, region: string, proto: Option<u64>, attributes: seq<string>,
                    authToken: Option<string>)
    | AuthReject(peer: Option<string>, error: string, reason: string)
    | Disconnect
    | Heartbeat(peer: Option<string>)
    | Interest(aoi: Option<Aoi>, fullRadius: Option<real>, coarseRate: u64, coarseGrid: real)
    | CriticalSection(phase: string, about: Option<string>)
    | AddEntity(entity: string, shown: Option<Value>)
    | RemoveEntity(entity: string)
    | CreateEntity(entity: string, requestId: Option<string>, requestedRegion: Option<string>, components: Value)
    | DeleteEntity(entity: string, requestId: Option<string>, epoch: Option<u64>)
    | ReserveEntityIds(requestId: Option<string>, count: u64)
    | AddComponent(entity: string, component: string, value: Value, epoch: Option<u64>)
    | RemoveComponent(entity: string, component: string, epoch: Option<u64>)
    | UpdateComponent(entity: string, component: string, value: Value, epoch: Option<u64>)
    | BatchUpdate(component: string, updates: seq<BatchEntry>)
    | AuthorityChange(entity: string, component: string, authoritative: bool, at: u64, mode: string, fields: seq<Field>)
    | UpdateRejected(about: Option<string>, which: Option<string>, reason: string, fields: seq<Field>)
    | MeshHandoff(entity: string, sourceRegion: Option<string>, targetRegion: string, pos: Point, vel: Point,
                  epoch: Option<u64>, leaseEpoch: Option<u64>, sourceDurableGen: Option<u64>, fields: seq<Field>)
    | MeshAck(entity: string)
    | Health
    | Bag(name: string, fields: seq<Field>)

  // ---------------------------------------------------------------- field access

  function Look(v: Value, key: Key): Option<Value> { Get(v, WireName(key)) }

  /** An empty string counts as absent. */
  function OptionalStr(v: Value, key: Key): Option<string> {
    var s := AsStr(Look(v, key));
    if s.Some? && s.value != "" then s else None
  }

  function RequiredStr(v: Value, key: Key): Result<string, ProtocolError> {
    match OptionalStr(v, key)
    case Some(s) => Ok(s)
    case None => Err(MissingRequiredField(WireName(key)))
  }

  function OrElse<T>(a: Option<T>, b: Option<T>): Option<T> { if a.Some? then a else b }

  function UnwrapOr<T>(a: Option<T>, default: T): T { if a.Some? then a.value else default }

  function ComponentNameOf(v: Value): Option<string> {
    OrElse(OptionalStr(v, KComp), OptionalStr(v, KComponent))
  }

  function RequiredComponentName(v: Value): Result<string, ProtocolError> {
    match ComponentNameOf(v)
    case Some(s) => Ok(s)
    case None => Err(MissingRequiredField(WireName(KComp)))
  }

  function AuthorityEpoch(v: Value): Option<u64> {
    OrElse(AsU64(Look(v, KAuthorityEpoch)), AsU64(Look(v, KEpoch)))
  }

  function At(items: Option<seq<Value>>, i: nat): Option<Value> {
    if items.Some? && i < |items.value| then Some(items.value[i]) else None
  }

  function PointFrom(v: Value): Point {
    var items := AsArray(Some(v));
    Point(UnwrapOr(AsF64(At(items, 0)), 0.0), UnwrapOr(AsF64(At(items, 1)), 0.0))
  }

  function MapPoint(v: Option<Value>): Option<Point> { if v.Some? then Some(PointFrom(v.value)) else None }

  /** Every field but the operation's name. */
  function JsonFields(fields: seq<Field>): seq<Field> {
    if fields == [] then []
    else if fields[0].key == WireName(KOp) then JsonFields(fields[1..])
    else [fields[0]] + JsonFields(fields[1..])
  }

  function FieldsOf(v: Value): seq<Field> { if v.Obj? then JsonFields(v.fields) else [] }

  // ---------------------------------------------------------------- decoding

  function Strings(items: seq<Value>): seq<string> {
    if items == [] then []
    else if items[0].Str? then [items[0].s] + Strings(items[1..])
    else Strings(items[1..])
  }

  function DecodeWorkerConnect(v: Value): Result<Op, ProtocolError> {
    var proto := AsU64(Look(v, KProto));
    if proto.Some? && !(MIN_PROTOCOL_VERSION <= proto.value <= PROTOCOL_VERSION) then
      Err(UnsupportedVersion(proto.value))
    else
      var worker, region := RequiredStr(v, KWorkerId), RequiredStr(v, KRegion);
      if worker.Err? then Err(worker.error)
      else if region.Err? then Err(region.error)
      else Ok(WorkerConnect(worker.value, region.value, proto,
                            Strings(UnwrapOr(AsArray(Look(v, KAttributes)), [])), OptionalStr(v, KAuthToken)))
  }

  function AoiOf(v: Value): Option<Aoi> {
    var center, radius := MapPoint(Look(v, KCenter)), AsF64(Look(v, KRadius));
    if center.Some? && radius.Some? then Some(Circle(center.value, radius.value)) else None
  }

  function FullRadiusOf(v: Value): Option<real> {
    OrElse(AsF64(Look(v, KFullRadius)), AsF64(Look(v, KFullRadiusCamel)))
  }

  function CoarseRateOf(v: Value): u64 {
    UnwrapOr(OrElse(AsU64(Look(v, KCoarseRate)), AsU64(Look(v, KCoarseRateCamel))), 1)
  }

  function CoarseGridOf(v: Value): real {
    UnwrapOr(OrElse(AsF64(Look(v, KCoarseGrid)), AsF64(Look(v, KCoarseGridCamel))), 0.0)
  }

  function DecodeInterest(v: Value): Op {
    Interest(AoiOf(v), FullRadiusOf(v), CoarseRateOf(v), CoarseGridOf(v))
  }

  /** The explicit components, or an object of the position and velocity that are given. */
  function ComponentBag(v: Value): Value {
    match Look(v, KComponents)
    case Some(components) => components
    case None => Obj(Put(KPos, Look(v, KPos), Put(KVel, Look(v, KVel), [])))
  }

  function DecodeCreateEntity(v: Value): Result<Op, ProtocolError> {
    match RequiredStr(v, KEntity)
    case Err(e) => Err(e)
    case Ok(entity) => Ok(CreateEntity(entity, OptionalStr(v, KRequestId), OptionalStr(v, KRegion), ComponentBag(v)))
  }

  function DecodeDeleteEntity(v: Value): Result<Op, ProtocolError> {
    match RequiredStr(v, KEntity)
    case Err(e) => Err(e)
    case Ok(entity) => Ok(DeleteEntity(entity, OptionalStr(v, KRequestId), AuthorityEpoch(v)))
  }

  /** An entity and a component name, the entity demanded first. */
  function EntityAndComponent(v: Value): Result<(string, string), ProtocolError> {
    match RequiredStr(v, KEntity)
    case Err(e) => Err(e)
    case Ok(entity) =>
      match RequiredComponentName(v)
      case Err(e) => Err(e)
      case Ok(component) => Ok((entity, component))
  }

  function DecodeAddComponent(v: Value): Result<Op, ProtocolError> {
    match EntityAndComponent(v)
    case Err(e) => Err(e)
    case Ok(names) => Ok(AddComponent(names.0, names.1, UnwrapOr(Look(v, KValue), Null), AuthorityEpoch(v)))
  }

  function DecodeRemoveComponent(v: Value): Result<Op, ProtocolError> {
    match EntityAndComponent(v)
    case Err(e) => Err(e)
    case Ok(names) => Ok(RemoveComponent(names.0, names.1, AuthorityEpoch(v)))
  }

  function DecodeUpdateComponent(v: Value): Result<Op, ProtocolError> {
    match EntityAndComponent(v)
    case Err(e) => Err(e)
    case Ok(names) => Ok(UpdateComponent(names.0, names.1, UnwrapOr(Look(v, KValue), Null), AuthorityEpoch(v)))
  }

  function DecodeBatchEntry(item: Value): Result<BatchEntry, ProtocolError> {
    match item
    case Arr(items) =>
      (match AsStr(At(Some(items), 0))
       case None => Err(MalformedFrame("BatchUpdate entry missing entity"))
       case Some(entity) => Ok(BatchEntry(entity, UnwrapOr(At(Some(items), 1), Null), AsU64(At(Some(items), 2)))))
    case Obj(fields) =>
      (match AsStr(Find(fields, WireName(KEntity)))
       case None => Err(MalformedFrame("BatchUpdate object entry missing entity"))
       case Some(entity) =>
         Ok(BatchEntry(entity, UnwrapOr(Find(fields, WireName(KValue)), Null),
                       AsU64(Find(fields, WireName(KAuthorityEpoch))))))
    case _ => Err(MalformedFrame("BatchUpdate updates entries must be arrays or objects"))
  }

  /** All entries, or the error of the first bad one. */
  function DecodeBatchEntries(items: seq<Value>): Result<seq<BatchEntry>, ProtocolError> {
    if items == [] then Ok([])
    else
      match DecodeBatchEntry(items[0])
      case Err(e) => Err(e)
      case Ok(entry) =>
        match DecodeBatchEntries(items[1..])
        case Err(e) => Err(e)
        case Ok(entries) => Ok([entry] + entries)
  }

  method DecodeBatchUpdateArray(items: seq<Value>) returns (r: Result<seq<BatchEntry>, ProtocolError>)
    ensures r == DecodeBatchEntries(items)
  {
    var updates: seq<BatchEntry> := [];
    assert items[0..] == items;
    NoEntriesYet(items);
    for i := 0 to |items|
      invariant Continued(updates, DecodeBatchEntries(items[i..])) == DecodeBatchEntries(items)
    {
      assert items[i..][1..] == items[i + 1..];
      var entry := DecodeBatchEntry(items[i]);
      if entry.Err? {
        return Err(entry.error);
      }
      BatchEntriesGrow(updates, entry.value, items[i + 1..]);
      hide DecodeBatchEntry;
      updates := updates + [entry.value];
    }
    assert items[|items|..] == [] && updates + [] == updates;
    r := Ok(updates);
  }

  /** Entries already decoded, in front of those still to come. */
  function Continued(updates: seq<BatchEntry>, r: Result<seq<BatchEntry>, ProtocolError>)
    : Result<seq<BatchEntry>, ProtocolError>
  {
    if r.Ok? then Ok(updates + r.value) else r
  }

  lemma {:induction false} NoEntriesYet(items: seq<Value>)
    ensures Continued([], DecodeBatchEntries(items)) == DecodeBatchEntries(items)
  {
    var r := DecodeBatchEntries(items);
    if r.Ok? {
      assert [] + r.value == r.value;
    }
  }

  lemma {:induction false} BatchEntriesGrow(updates: seq<BatchEntry>, entry: BatchEntry, items: seq<Value>)
    ensures DecodeBatchEntries(items).Ok? ==>
      updates + ([entry] + DecodeBatchEntries(items).value) == updates + [entry] + DecodeBatchEntries(items).value
  {}

  function MapEntries(fields: seq<Field>, epoch: Option<u64>): seq<BatchEntry> {
    seq(|fields|, i requires 0 <= i < |fields| => BatchEntry(fields[i].key, fields[i].value, epoch))
  }

  function DecodeBatchUpdate(v: Value): Result<Op, ProtocolError> {
    match RequiredComponentName(v)
    case Err(e) => Err(e)
    case Ok(component) =>
      match AsArray(Look(v, KUpdates))
      case Some(items) =>
        (match DecodeBatchEntries(items)
         case Err(e) => Err(e)
         case Ok(updates) => Ok(BatchUpdate(component, updates)))
      case None =>
        match AsObject(Look(v, KValues))
        case Some(values) => Ok(BatchUpdate(component, MapEntries(values, AuthorityEpoch(v))))
        case None => Ok(BatchUpdate(component, []))
  }

  function DecodeAuthorityChange(v: Value): Result<Op, ProtocolError> {
    match RequiredStr(v, KEntity)
    case Err(e) => Err(e)
    case Ok(entity) =>
      Ok(AuthorityChange(
        entity, UnwrapOr(OptionalStr(v, KComp), "pos"), UnwrapOr(AsBool(Look(v, KAuthoritative)), false),
        UnwrapOr(AuthorityEpoch(v), 0), UnwrapOr(OptionalStr(v, KMode), ""), FieldsOf(v)))
  }

  function DecodeUpdateRejected(v: Value): Op {
    UpdateRejected(OptionalStr(v, KEntity), ComponentNameOf(v), UnwrapOr(OptionalStr(v, KReason), ""), FieldsOf(v))
  }

  function DecodeMeshHandoff(v: Value): Result<Op, ProtocolError> {
    match OrElse(OptionalStr(v, KTarget), OptionalStr(v, KRegion))
    case None => Err(MissingRequiredField(WireName(KTarget)))
    case Some(target) =>
      match RequiredStr(v, KEntity)
      case Err(e) => Err(e)
      case Ok(entity) =>
        Ok(MeshHandoff(
          entity, OrElse(OptionalStr(v, KSourceRegion), OptionalStr(v, KSrcRegion)), target,
          UnwrapOr(MapPoint(Look(v, KPos)), Point(0.0, 0.0)), UnwrapOr(MapPoint(Look(v, KVel)), Point(0.0, 0.0)),
          AuthorityEpoch(v), AsU64(Look(v, KLeaseEpoch)), AsU64(Look(v, KSourceDurableGen)), FieldsOf(v)))
  }

  function DecodeWithEntity(v: Value, make: string -> Op): Result<Op, ProtocolError> {
    match RequiredStr(v, KEntity)
    case Err(e) => Err(e)
    case Ok(entity) => Ok(make(entity))
  }

  function DecodeAuthReject(v: Value): Op {
    AuthReject(OptionalStr(v, KWorkerId), UnwrapOr(OptionalStr(v, KError), "auth_error"),
               UnwrapOr(OptionalStr(v, KReason), ""))
  }

  function CountOf(v: Value): u64 { UnwrapOr(OrElse(AsU64(Look(v, KCount)), AsU64(Look(v, KN))), 0) }

  function DecodeReserveEntityIds(v: Value): Op { ReserveEntityIds(OptionalStr(v, KRequestId), CountOf(v)) }

  function DecodeKind(kind: Kind, v: Value): Result<Op, ProtocolError> {
    match kind
    case IsWorkerConnect => DecodeWorkerConnect(v)
    case IsAuthReject => Ok(DecodeAuthReject(v))
    case IsDisconnect => Ok(Disconnect)
    case IsHeartbeat => Ok(Heartbeat(OptionalStr(v, KWorkerId)))
    case IsInterest => Ok(DecodeInterest(v))
    case IsCriticalSection => Ok(CriticalSection(UnwrapOr(OptionalStr(v, KPhase), ""), OptionalStr(v, KEntity)))
    case IsAddEntity => DecodeWithEntity(v, entity => AddEntity(entity, Look(v, KComponents)))
    case IsRemoveEntity => DecodeWithEntity(v, entity => RemoveEntity(entity))
    case IsCreateEntity => DecodeCreateEntity(v)
    case IsDeleteEntity => DecodeDeleteEntity(v)
    case IsReserveEntityIds => Ok(DecodeReserveEntityIds(v))
    case IsAddComponent => DecodeAddComponent(v)
    case IsRemoveComponent => DecodeRemoveComponent(v)
    case IsUpdateComponent => DecodeUpdateComponent(v)
    case IsBatchUpdate => DecodeBatchUpdate(v)
    case IsAuthorityChange => DecodeAuthorityChange(v)
    case IsUpdateRejected => Ok(DecodeUpdateRejected(v))
    case IsMeshHandoff => DecodeMeshHandoff(v)
    case IsMeshAck => DecodeWithEntity(v, entity => MeshAck(entity))
    case IsHealth => Ok(Health)
    case IsBag(name) => Ok(Bag(name, FieldsOf(v)))
  }

  function Decode(v: Value): Result<Op, ProtocolError> {
    match RequiredStr(v, KOp)
    case Err(e) => Err(e)
    case Ok(name) =>
      match KindOf(name)
      case Some(kind) => DecodeKind(kind, v)
      case None => Err(UnknownOperation(name))
  }

  // ---------------------------------------------------------------- encoding

  /** Adds a field in front, if there is a value for it. */
  function Put(key: Key, v: Option<Value>, rest: seq<Field>): (r: seq<Field>)
    ensures forall k {:trigger Look(Obj(r), k)} ::
      Look(Obj(r), k) == if k == key && v.Some? then v else Look(Obj(rest), k)
  {
    AllKeysDiffer();
    if v.Some? then
      var r := [Field(WireName(key), v.value)] + rest;
      assert r[0] == Field(WireName(key), v.value) && r[1..] == rest;
      r
    else rest
  }

  function S(s: string): Option<Value> { Some(Str(s)) }

  function OptS(s: Option<string>): Option<Value> { if s.Some? then Some(Str(s.value)) else None }

  function U(n: u64): Option<Value> { Some(Num(Unsigned(n))) }

  function OptU(n: Option<u64>): Option<Value> { if n.Some? then U(n.value) else None }

  function F(r: real): Option<Value> { Some(Num(Float(r))) }

  function OptF(r: Option<real>): Option<Value> { if r.Some? then F(r.value) else None }

  function PointValue(p: Point): Option<Value> { Some(Arr([Num(Float(p.x)), Num(Float(p.y))])) }

  function StrValues(ss: seq<string>): seq<Value> {
    seq(|ss|, i requires 0 <= i < |ss| => Str(ss[i]))
  }

  function EncodeBatchEntry(e: BatchEntry): Value {
    if e.authorityEpoch.Some? then Arr([Str(e.entity), e.value, Num(Unsigned(e.authorityEpoch.value))])
    else Arr([Str(e.entity), e.value])
  }

  function EncodeBatchEntries(es: seq<BatchEntry>): seq<Value> {
    seq(|es|, i requires 0 <= i < |es| => EncodeBatchEntry(es[i]))
  }

  function KindFor(op: Op): Kind {
    match op
    case WorkerConnect(_, _, _, _, _) => IsWorkerConnect
    case AuthReject(_, _, _) => IsAuthReject
    case Disconnect => IsDisconnect
    case Heartbeat(_) => IsHeartbeat
    case Interest(_, _, _, _) => IsInterest
    case CriticalSection(_, _) => IsCriticalSection
    case AddEntity(_, _) => IsAddEntity
    case RemoveEntity(_) => IsRemoveEntity
    case CreateEntity(_, _, _, _) => IsCreateEntity
    case DeleteEntity(_, _, _) => IsDeleteEntity
    case ReserveEntityIds(_, _) => IsReserveEntityIds
    case AddComponent(_, _, _, _) => IsAddComponent
    case RemoveComponent(_, _, _) => IsRemoveComponent
    case UpdateComponent(_, _, _, _) => IsUpdateComponent
    case BatchUpdate(_, _) => IsBatchUpdate
    case AuthorityChange(_, _, _, _, _, _) => IsAuthorityChange
    case UpdateRejected(_, _, _, _) => IsUpdateRejected
    case MeshHandoff(_, _, _, _, _, _, _, _, _) => IsMeshHandoff
    case MeshAck(_) => IsMeshAck
    case Health => IsHealth
    case Bag(name, _) => IsBag(name)
  }

  predicate Named(kind: Kind, v: Value) { v.Obj? && Look(v, KOp) == S(KindName(kind)) }

  /** An object that starts with the operation's name. */
  function ObjectWithOp(kind: Kind, rest: seq<Field>): (r: Value)
    ensures Named(kind, r)
  {
    Obj(Put(KOp, S(KindName(kind)), rest))
  }

  function EncodeWorkerConnect(op: Op): Value
    requires op.WorkerConnect?
  {
    ObjectWithOp(IsWorkerConnect,
      Put(KWorkerId, S(op.workerId), Put(KRegion, S(op.region), Put(KProto, OptU(op.proto),
        Put(KAttributes, if op.attributes == [] then None else Some(Arr(StrValues(op.attributes))),
          Put(KAuthToken, OptS(op.authToken), []))))))
  }

  function EncodeAuthReject(op: Op): Value
    requires op.AuthReject?
  {
    ObjectWithOp(IsAuthReject, Put(KWorkerId, OptS(op.peer), Put(KError, S(op.error), Put(KReason, S(op.reason), []))))
  }

  function EncodeHeartbeat(op: Op): Value
    requires op.Heartbeat?
  {
    ObjectWithOp(IsHeartbeat, Put(KWorkerId, OptS(op.peer), []))
  }

  function EncodeAoi(aoi: Option<Aoi>, rest: seq<Field>): seq<Field> {
    match aoi
    case None => rest
    case Some(Circle(center, radius)) => Put(KCenter, PointValue(center), Put(KRadius, F(radius), rest))
    case Some(Box(min, max)) => Put(KMin, PointValue(min), Put(KMax, PointValue(max), rest))
  }

  function EncodeInterest(op: Op): Value
    requires op.Interest?
  {
    ObjectWithOp(IsInterest, EncodeAoi(op.aoi, Put(KFullRadius, OptF(op.fullRadius),
      Put(KCoarseRate, if op.coarseRate != 1 then U(op.coarseRate) else None,
        Put(KCoarseGrid, if op.coarseGrid != 0.0 then F(op.coarseGrid) else None, [])))))
  }

  function EncodeCriticalSection(op: Op): Value
    requires op.CriticalSection?
  {
    ObjectWithOp(IsCriticalSection, Put(KPhase, S(op.phase), Put(KEntity, OptS(op.about), [])))
  }

  function EncodeAddEntity(op: Op): Value
    requires op.AddEntity?
  {
    ObjectWithOp(IsAddEntity, Put(KEntity, S(op.entity), Put(KComponents, op.shown, [])))
  }

  function EncodeCreateEntity(op: Op): Value
    requires op.CreateEntity?
  {
    ObjectWithOp(IsCreateEntity, Put(KEntity, S(op.entity), Put(KRequestId, OptS(op.requestId),
      Put(KRegion, OptS(op.requestedRegion), Put(KComponents, Some(op.components), [])))))
  }

  function EncodeDeleteEntity(op: Op): Value
    requires op.DeleteEntity?
  {
    ObjectWithOp(IsDeleteEntity, Put(KEntity, S(op.entity), Put(KRequestId, OptS(op.requestId),
      Put(KAuthorityEpoch, OptU(op.epoch), []))))
  }

  function EncodeReserveEntityIds(op: Op): Value
    requires op.ReserveEntityIds?
  {
    ObjectWithOp(IsReserveEntityIds, Put(KRequestId, OptS(op.requestId), Put(KCount, U(op.count), [])))
  }

  /** What the three component operations share. */
  function EncodeComponent(kind: Kind, entity: string, component: string, value: Option<Value>, epoch: Option<u64>)
    : Value
  {
    ObjectWithOp(kind, Put(KEntity, S(entity), Put(KComp, S(component), Put(KValue, value,
      Put(KAuthorityEpoch, OptU(epoch), [])))))
  }

  function EncodeBatchUpdate(op: Op): Value
    requires op.BatchUpdate?
  {
    ObjectWithOp(IsBatchUpdate,
      Put(KComp, S(op.component), Put(KUpdates, Some(Arr(EncodeBatchEntries(op.updates))), [])))
  }

  function EncodeAuthorityChange(op: Op): Value
    requires op.AuthorityChange?
  {
    if op.fields != [] then EncodeFields(IsAuthorityChange, op.fields)
    else
      ObjectWithOp(IsAuthorityChange, Put(KEntity, S(op.entity), Put(KComp, S(op.component),
        Put(KAuthoritative, Some(Bool(op.authoritative)), Put(KAuthorityEpoch, U(op.at), Put(KMode, S(op.mode), []))))))
  }

  function EncodeUpdateRejected(op: Op): Value
    requires op.UpdateRejected?
  {
    if op.fields != [] then EncodeFields(IsUpdateRejected, op.fields)
    else
      ObjectWithOp(IsUpdateRejected,
        Put(KEntity, OptS(op.about), Put(KComp, OptS(op.which), Put(KReason, S(op.reason), []))))
  }

  function EncodeMeshHandoff(op: Op): Value
    requires op.MeshHandoff?
  {
    if op.fields != [] then EncodeFields(IsMeshHandoff, op.fields)
    else
      ObjectWithOp(IsMeshHandoff, Put(KEntity, S(op.entity), Put(KSourceRegion, OptS(op.sourceRegion),
        Put(KTarget, S(op.targetRegion), Put(KPos, PointValue(op.pos), Put(KVel, PointValue(op.vel),
          Put(KAuthorityEpoch, OptU(op.epoch), Put(KLeaseEpoch, OptU(op.leaseEpoch),
            Put(KSourceDurableGen, OptU(op.sourceDurableGen), [])))))))))
  }

  function EncodeEntityOnly(kind: Kind, entity: string): Value { ObjectWithOp(kind, Put(KEntity, S(entity), [])) }

  function EncodeFields(kind: Kind, fields: seq<Field>): Value { ObjectWithOp(kind, JsonFields(fields)) }

  function Encode(op: Op): Value {
    match op
    case WorkerConnect(_, _, _, _, _) => EncodeWorkerConnect(op)
    case AuthReject(_, _, _) => EncodeAuthReject(op)
    case Disconnect => ObjectWithOp(IsDisconnect, [])
    case Heartbeat(_) => EncodeHeartbeat(op)
    case Interest(_, _, _, _) => EncodeInterest(op)
    case CriticalSection(_, _) => EncodeCriticalSection(op)
    case AddEntity(_, _) => EncodeAddEntity(op)
    case RemoveEntity(entity) => EncodeEntityOnly(IsRemoveEntity, entity)
    case CreateEntity(_, _, _, _) => EncodeCreateEntity(op)
    case DeleteEntity(_, _, _) => EncodeDeleteEntity(op)
    case ReserveEntityIds(_, _) => EncodeReserveEntityIds(op)
    case AddComponent(entity, component, value, epoch) =>
      EncodeComponent(IsAddComponent, entity, component, Some(value), epoch)
    case RemoveComponent(entity, component, epoch) =>
      EncodeComponent(IsRemoveComponent, entity, component, None, epoch)
    case UpdateComponent(entity, component, value, epoch) =>
      EncodeComponent(IsUpdateComponent, entity, component, Some(value), epoch)
    case BatchUpdate(_, _) => EncodeBatchUpdate(op)
    case AuthorityChange(_, _, _, _, _, _) => EncodeAuthorityChange(op)
    case UpdateRejected(_, _, _, _) => EncodeUpdateRejected(op)
    case MeshHandoff(_, _, _, _, _, _, _, _, _) => EncodeMeshHandoff(op)
    case MeshAck(entity) => EncodeEntityOnly(IsMeshAck, entity)
    case Health => ObjectWithOp(IsHealth, [])
    case Bag(name, fields) => EncodeFields(IsBag(name), fields)
  }

  // ---------------------------------------------------------------- the field map, built in place

  /** serde_json's insertion: a known key keeps its place, a new one goes last. */
  function Insert(fields: seq<Field>, key: string, v: Value): seq<Field> {
    if fields == [] then [Field(key, v)]
    else if fields[0].key == key then [Field(key, v)] + fields[1..]
    else [fields[0]] + Insert(fields[1..], key, v)
  }

  lemma {:induction false} InsertNew(fields: seq<Field>, key: string, v: Value)
    requires Find(fields, key).None?
    ensures Insert(fields, key, v) == fields + [Field(key, v)]
  {
    if fields != [] {
      InsertNew(fields[1..], key, v);
    }
  }

  lemma {:induction false} JsonFieldsAppend(fields: seq<Field>, f: Field)
    ensures JsonFields(fields + [f]) == JsonFields(fields) + (if f.key != WireName(KOp) then [f] else [])
  {
    if fields == [] {
      assert fields + [f] == [f];
    } else {
      assert (fields + [f])[1..] == fields[1..] + [f];
      JsonFieldsAppend(fields[1..], f);
    }
  }

  lemma {:induction false} FindJsonFields(fields: seq<Field>, key: string)
    ensures Find(JsonFields(fields), key) == if key == WireName(KOp) then None else Find(fields, key)
  {
    if fields != [] {
      FindJsonFields(fields[1..], key);
      var kept := JsonFields(fields);
      if fields[0].key != WireName(KOp) {
        assert kept[0] == fields[0] && kept[1..] == JsonFields(fields[1..]);
      }
    }
  }

  method CollectFields(source: seq<Field>) returns (fields: seq<Field>)
    requires DistinctKeys(source)
    ensures fields == JsonFields(source)
  {
    fields := [];
    for i := 0 to |source|
      invariant fields == JsonFields(source[..i])
    {
      assert source[..i + 1] == source[..i] + [source[i]];
      JsonFieldsAppend(source[..i], source[i]);
      if source[i].key != WireName(KOp) {
        FindJsonFields(source[..i], source[i].key);
        FindNone(source[..i], source[i].key);
        InsertNew(fields, source[i].key, source[i].value);
        fields := Insert(fields, source[i].key, source[i].value);
      }
    }
    assert source[..|source|] == source;
  }

  lemma {:induction false} NotYetThere(fields: seq<Field>, i: nat, name: Field)
    requires DistinctKeys(fields) && i < |fields| && name.key == WireName(KOp) != fields[i].key
    ensures Find([name] + JsonFields(fields[..i]), fields[i].key).None?
  {
    hide WireName;
    FindJsonFields(fields[..i], fields[i].key);
    FindNone(fields[..i], fields[i].key);
    assert ([name] + JsonFields(fields[..i]))[1..] == JsonFields(fields[..i]);
  }

  method EncodeJsonFields(kind: Kind, fields: seq<Field>) returns (v: Value)
    requires DistinctKeys(fields)
    ensures v == EncodeFields(kind, fields)
  {
    hide KindName, WireName;
    var name := Field(WireName(KOp), Str(KindName(kind)));
    var obj := [name];
    for i := 0 to |fields|
      invariant obj == [name] + JsonFields(fields[..i])
    {
      assert fields[..i + 1] == fields[..i] + [fields[i]];
      JsonFieldsAppend(fields[..i], fields[i]);
      if fields[i].key != name.key {
        NotYetThere(fields, i, name);
        InsertNew(obj, fields[i].key, fields[i].value);
        obj := Insert(obj, fields[i].key, fields[i].value);
      }
      hide Insert, JsonFields;
    }
    assert fields[..|fields|] == fields;
    v := Obj(obj);
  }
}
