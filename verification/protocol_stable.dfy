/** Decoding is stable under re-encoding, for every JSON value that decodes. */
module ProtocolStable {
  import opened Wrappers
  import opened Json
  import opened Protocol
  import opened WireNames

  /** Nothing is found among no fields. */
  lemma {:induction false} NoFields()
    ensures forall k :: Look(Obj([]), k) == None
  {}

  lemma {:induction false} NotEmpty(v: Value, key: Key)
    ensures OptionalStr(v, key) != Some("")
  {
    hide Look;
  }

  lemma {:induction false} OptionalBack(w: Value, key: Key, s: Option<string>)
    requires Look(w, key) == OptS(s) && s != Some("")
    ensures OptionalStr(w, key) == s
  {
    hide Look;
  }

  lemma {:induction false} EpochBack(w: Value, epoch: Option<u64>)
    requires Look(w, KAuthorityEpoch) == OptU(epoch) && Look(w, KEpoch) == None
    ensures AuthorityEpoch(w) == epoch
  {
    hide Look;
  }

  // ---------------------------------------------------------------- operations that carry their fields

  lemma {:induction false} JsonFieldsTwice(fields: seq<Field>)
    ensures JsonFields(JsonFields(fields)) == JsonFields(fields)
  {
    hide WireName;
    if fields != [] {
      JsonFieldsTwice(fields[1..]);
      if fields[0].key != WireName(KOp) {
        assert JsonFields(fields)[1..] == JsonFields(fields[1..]);
      }
    }
  }

  /** A value and its fields re-encoded answer every lookup but the name's alike. */
  lemma {:induction false} SameAnswers(v: Value, kind: Kind, w: Value)
    requires v.Obj? && w == EncodeFields(kind, FieldsOf(v))
    ensures forall k {:trigger Look(w, k)} :: k != KOp ==> Look(w, k) == Look(v, k)
    ensures FieldsOf(w) == FieldsOf(v)
  {
    JsonFieldsTwice(v.fields);
    AllKeysDiffer();
    hide WireName, KindName;
    forall k | k != KOp ensures Look(w, k) == Look(v, k) {
      FindJsonFields(v.fields, WireName(k));
    }
    assert w.fields[0].key == WireName(KOp) && w.fields[1..] == JsonFields(FieldsOf(v));
  }

  lemma {:induction false} FieldsPresent(v: Value, key: Key)
    requires Look(v, key).Some? && key != KOp
    ensures FieldsOf(v) != []
  {
    KeysDiffer(key, KOp);
    hide WireName;
    FindJsonFields(v.fields, WireName(key));
  }

  lemma {:induction false} FieldsAbsent(v: Value, key: Key)
    requires v.Obj? && FieldsOf(v) == [] && key != KOp
    ensures Look(v, key).None?
  {
    KeysDiffer(key, KOp);
    hide WireName;
    FindJsonFields(v.fields, WireName(key));
  }

  lemma {:induction false} StableAuthorityChange(v: Value)
    requires DecodeAuthorityChange(v).Ok?
    ensures
      var op := DecodeAuthorityChange(v).value;
      op.AuthorityChange? && DecodeAuthorityChange(EncodeAuthorityChange(op)) == Ok(op)
  {
    hide Look;
    var op := DecodeAuthorityChange(v).value;
    FieldsPresent(v, KEntity);
    var w := EncodeAuthorityChange(op);
    SameAnswers(v, IsAuthorityChange, w);
    hide FieldsOf, EncodeAuthorityChange;
    assert Look(w, KEntity) == Look(v, KEntity) && Look(w, KComp) == Look(v, KComp) && Look(w, KMode) == Look(v, KMode);
    assert Look(w, KAuthoritative) == Look(v, KAuthoritative);
    assert Look(w, KAuthorityEpoch) == Look(v, KAuthorityEpoch) && Look(w, KEpoch) == Look(v, KEpoch);
  }

  lemma {:induction false} StableMeshHandoff(v: Value)
    requires DecodeMeshHandoff(v).Ok?
    ensures
      var op := DecodeMeshHandoff(v).value;
      op.MeshHandoff? && DecodeMeshHandoff(EncodeMeshHandoff(op)) == Ok(op)
  {
    hide Look, PointFrom;
    var op := DecodeMeshHandoff(v).value;
    FieldsPresent(v, KEntity);
    var w := EncodeMeshHandoff(op);
    SameAnswers(v, IsMeshHandoff, w);
    hide FieldsOf, EncodeMeshHandoff;
    assert Look(w, KTarget) == Look(v, KTarget) && Look(w, KRegion) == Look(v, KRegion);
    assert Look(w, KEntity) == Look(v, KEntity);
    assert Look(w, KSourceRegion) == Look(v, KSourceRegion) && Look(w, KSrcRegion) == Look(v, KSrcRegion);
    assert Look(w, KPos) == Look(v, KPos) && Look(w, KVel) == Look(v, KVel);
    assert Look(w, KAuthorityEpoch) == Look(v, KAuthorityEpoch) && Look(w, KEpoch) == Look(v, KEpoch);
    assert Look(w, KLeaseEpoch) == Look(v, KLeaseEpoch);
    assert Look(w, KSourceDurableGen) == Look(v, KSourceDurableGen);
  }

  /** A rejection with at least one field survives; a bare one comes back with an empty reason added,
      and from then on survives. */
  lemma {:induction false} StableUpdateRejected(v: Value)
    requires v.Obj?
    ensures
      var op := DecodeUpdateRejected(v);
      var again := DecodeUpdateRejected(EncodeUpdateRejected(op));
      && (again == op <==> op.fields != [])
      && DecodeUpdateRejected(EncodeUpdateRejected(again)) == again
  {
    hide Look, EncodeUpdateRejected, FieldsOf;
    var op := DecodeUpdateRejected(v);
    var w := EncodeUpdateRejected(op);
    if op.fields != [] {
      SameRejection(v, op, w);
    } else {
      BareDecoded(v);
      BareReason(op, w);
      var again := DecodeUpdateRejected(w);
      SameRejection(w, again, EncodeUpdateRejected(again));
    }
  }

  lemma {:induction false} SameRejection(v: Value, op: Op, w: Value)
    requires v.Obj? && op == DecodeUpdateRejected(v) && op.fields != [] && w == EncodeUpdateRejected(op)
    ensures DecodeUpdateRejected(w) == op
  {
    hide Look;
    SameAnswers(v, IsUpdateRejected, w);
    hide FieldsOf, EncodeUpdateRejected;
    assert Look(w, KEntity) == Look(v, KEntity) && Look(w, KComp) == Look(v, KComp);
    assert Look(w, KComponent) == Look(v, KComponent) && Look(w, KReason) == Look(v, KReason);
  }

  lemma {:induction false} BareDecoded(v: Value)
    requires v.Obj? && FieldsOf(v) == []
    ensures DecodeUpdateRejected(v) == UpdateRejected(None, None, "", [])
  {
    hide Look, FieldsOf;
    FieldsAbsent(v, KEntity);
    FieldsAbsent(v, KComp);
    FieldsAbsent(v, KComponent);
    FieldsAbsent(v, KReason);
  }

  lemma {:induction false} BareReason(op: Op, w: Value)
    requires op == UpdateRejected(None, None, "", []) && w == EncodeUpdateRejected(op)
    ensures w.Obj? && FieldsOf(w) == [Field(WireName(KReason), Str(""))]
  {
    KeysDiffer(KReason, KOp);
    hide WireName, KindName;
    var payload := [Field(WireName(KReason), Str(""))];
    assert Put(KReason, S(""), []) == payload;
    assert w.fields[0].key == WireName(KOp) && w.fields[1..] == payload;
    assert payload[1..] == [];
  }

  lemma {:induction false} StableBag(v: Value, name: string)
    requires v.Obj?
    ensures FieldsOf(EncodeFields(IsBag(name), FieldsOf(v))) == FieldsOf(v)
  {
    SameAnswers(v, IsBag(name), EncodeFields(IsBag(name), FieldsOf(v)));
  }

  // ---------------------------------------------------------------- connection operations

  lemma {:induction false} StringsOfValues(ss: seq<string>)
    ensures Strings(StrValues(ss)) == ss
  {
    if ss != [] {
      assert StrValues(ss)[1..] == StrValues(ss[1..]);
      StringsOfValues(ss[1..]);
    }
  }

  lemma {:induction false} EncodedWorkerConnect(op: Op, w: Value)
    requires op.WorkerConnect? && w == EncodeWorkerConnect(op)
    ensures Look(w, KWorkerId) == S(op.workerId) && Look(w, KRegion) == S(op.region)
    ensures Look(w, KProto) == OptU(op.proto) && Look(w, KAuthToken) == OptS(op.authToken)
  {
    hide Look, Put, KindName, Named, StrValues;
    NoFields();
  }

  lemma {:induction false} EncodedAttributes(op: Op, w: Value)
    requires op.WorkerConnect? && w == EncodeWorkerConnect(op)
    ensures Look(w, KAttributes) == if op.attributes == [] then None else Some(Arr(StrValues(op.attributes)))
  {
    NoFields();
    hide Look, Put, KindName, Named, StrValues, OptS, OptU, S;
  }

  lemma {:induction false} AttributesComeBack(op: Op, w: Value)
    requires op.WorkerConnect? && w == EncodeWorkerConnect(op)
    ensures Strings(UnwrapOr(AsArray(Look(w, KAttributes)), [])) == op.attributes
  {
    assert Strings([]) == [];
    hide EncodeWorkerConnect, Look, Strings, StrValues;
    EncodedAttributes(op, w);
    StringsOfValues(op.attributes);
  }

  lemma {:induction false} StableWorkerConnect(v: Value)
    requires DecodeWorkerConnect(v).Ok?
    ensures
      var op := DecodeWorkerConnect(v).value;
      op.WorkerConnect? && DecodeWorkerConnect(EncodeWorkerConnect(op)) == Ok(op)
  {
    hide Look, Strings, EncodeWorkerConnect, UnwrapOr, AsArray;
    var op := DecodeWorkerConnect(v).value;
    EncodedWorkerConnect(op, EncodeWorkerConnect(op));
    AttributesComeBack(op, EncodeWorkerConnect(op));
  }

  lemma {:induction false} StableAuthReject(v: Value)
    ensures var op := DecodeAuthReject(v); op.AuthReject? && DecodeAuthReject(EncodeAuthReject(op)) == op
  {
    NotEmpty(v, KWorkerId);
    NotEmpty(v, KError);
    hide Look, OptionalStr, EncodeAuthReject;
    RejectComesBack(DecodeAuthReject(v));
  }

  lemma {:induction false} EncodedAuthReject(op: Op, w: Value)
    requires op.AuthReject? && w == EncodeAuthReject(op)
    ensures Look(w, KWorkerId) == OptS(op.peer) && Look(w, KError) == S(op.error) && Look(w, KReason) == S(op.reason)
  {
    hide Look, Put, KindName, Named;
    NoFields();
  }

  lemma {:induction false} RejectComesBack(op: Op)
    requires op.AuthReject? && op.peer != Some("") && op.error != ""
    ensures DecodeAuthReject(EncodeAuthReject(op)) == op
  {
    hide EncodeAuthReject, Look;
    var w := EncodeAuthReject(op);
    EncodedAuthReject(op, w);
    assert OptionalStr(w, KError) == Some(op.error);
    assert UnwrapOr(OptionalStr(w, KReason), "") == op.reason;
    OptionalBack(w, KWorkerId, op.peer);
    hide OptionalStr, OptS, S;
  }

  lemma {:induction false} StableHeartbeat(v: Value)
    ensures var op := Heartbeat(OptionalStr(v, KWorkerId)); OptionalStr(EncodeHeartbeat(op), KWorkerId) == op.peer
  {
    hide Look, Put, KindName, Named;
    NoFields();
  }

  lemma {:induction false} StableCriticalSection(v: Value)
    ensures
      var op := CriticalSection(UnwrapOr(OptionalStr(v, KPhase), ""), OptionalStr(v, KEntity));
      var w := EncodeCriticalSection(op);
      CriticalSection(UnwrapOr(OptionalStr(w, KPhase), ""), OptionalStr(w, KEntity)) == op
  {
    hide Look, Put, KindName, Named;
    NoFields();
  }

  lemma {:induction false} AoiLookups(aoi: Option<Aoi>, rest: seq<Field>, k: Key)
    ensures Look(Obj(EncodeAoi(aoi, rest)), k) ==
      match aoi
      case Some(Circle(center, radius)) =>
        if k == KCenter then PointValue(center) else if k == KRadius then F(radius) else Look(Obj(rest), k)
      case Some(Box(min, max)) =>
        if k == KMin then PointValue(min) else if k == KMax then PointValue(max) else Look(Obj(rest), k)
      case None => Look(Obj(rest), k)
  {
    hide Look, Put;
  }

  function InterestScalars(op: Op): seq<Field>
    requires op.Interest?
  {
    Put(KFullRadius, OptF(op.fullRadius),
      Put(KCoarseRate, if op.coarseRate != 1 then U(op.coarseRate) else None,
        Put(KCoarseGrid, if op.coarseGrid != 0.0 then F(op.coarseGrid) else None, [])))
  }

  lemma {:induction false} ScalarLookups(op: Op, k: Key)
    requires op.Interest?
    ensures Look(Obj(InterestScalars(op)), k) ==
      match k
      case KFullRadius => OptF(op.fullRadius)
      case KCoarseRate => if op.coarseRate != 1 then U(op.coarseRate) else None
      case KCoarseGrid => if op.coarseGrid != 0.0 then F(op.coarseGrid) else None
      case _ => None
  {
    hide Look, Put;
    NoFields();
  }

  lemma {:induction false} InterestLookups(op: Op, k: Key)
    requires op.Interest? && k != KOp
    ensures Look(EncodeInterest(op), k) == Look(Obj(EncodeAoi(op.aoi, InterestScalars(op))), k)
  {
    hide Look, Put, EncodeAoi, KindName, Named;
  }

  /** What the decoder finds under one key of an encoded interest. */
  lemma {:induction false} EncodedInterest(op: Op, k: Key)
    requires op.Interest? && k != KOp && k != KMin && k != KMax
    ensures Look(EncodeInterest(op), k) ==
      match k
      case KFullRadius => OptF(op.fullRadius)
      case KCoarseRate => if op.coarseRate != 1 then U(op.coarseRate) else None
      case KCoarseGrid => if op.coarseGrid != 0.0 then F(op.coarseGrid) else None
      case KCenter => if op.aoi.Some? && op.aoi.value.Circle? then PointValue(op.aoi.value.center) else None
      case KRadius => if op.aoi.Some? && op.aoi.value.Circle? then F(op.aoi.value.radius) else None
      case _ => None
  {
    hide EncodeInterest, EncodeAoi, InterestScalars, Look, PointValue, OptF, F, U;
    InterestLookups(op, k);
    AoiLookups(op.aoi, InterestScalars(op), k);
    ScalarLookups(op, k);
  }

  lemma {:induction false} PointBack(p: Point)
    ensures PointFrom(PointValue(p).value) == p
  {}

  /** The area of interest that decoding gives back. */
  function ReadableAoi(aoi: Option<Aoi>): Option<Aoi> {
    if aoi.Some? && aoi.value.Circle? then aoi else None
  }

  lemma {:induction false} RadiusComesBack(op: Op, w: Value)
    requires op.Interest? && w == EncodeInterest(op)
    ensures FullRadiusOf(w) == op.fullRadius
  {
    hide EncodeInterest, Look;
    EncodedInterest(op, KFullRadius);
    EncodedInterest(op, KFullRadiusCamel);
  }

  lemma {:induction false} RateComesBack(op: Op, w: Value)
    requires op.Interest? && w == EncodeInterest(op)
    ensures CoarseRateOf(w) == op.coarseRate
  {
    hide EncodeInterest, Look;
    EncodedInterest(op, KCoarseRate);
    EncodedInterest(op, KCoarseRateCamel);
  }

  lemma {:induction false} GridComesBack(op: Op, w: Value)
    requires op.Interest? && w == EncodeInterest(op)
    ensures CoarseGridOf(w) == op.coarseGrid
  {
    hide EncodeInterest, Look;
    EncodedInterest(op, KCoarseGrid);
    EncodedInterest(op, KCoarseGridCamel);
  }

  lemma {:induction false} AreaComesBack(op: Op, w: Value)
    requires op.Interest? && w == EncodeInterest(op)
    ensures AoiOf(w) == ReadableAoi(op.aoi)
  {
    hide EncodeInterest, Look, PointFrom;
    EncodedInterest(op, KCenter);
    EncodedInterest(op, KRadius);
    if op.aoi.Some? && op.aoi.value.Circle? {
      PointBack(op.aoi.value.center);
    }
  }

  /** An interest keeps everything but a box, which the decoder has no reader for. */
  lemma {:induction false} InterestComesBack(op: Op)
    requires op.Interest?
    ensures DecodeInterest(EncodeInterest(op)) == op.(aoi := ReadableAoi(op.aoi))
  {
    hide EncodeInterest, AoiOf, FullRadiusOf, CoarseRateOf, CoarseGridOf, ReadableAoi;
    var w := EncodeInterest(op);
    RadiusComesBack(op, w);
    RateComesBack(op, w);
    GridComesBack(op, w);
    AreaComesBack(op, w);
  }

  lemma {:induction false} StableInterest(v: Value)
    ensures var op := DecodeInterest(v); op.Interest? && DecodeInterest(EncodeInterest(op)) == op
  {
    var op := DecodeInterest(v);
    assert ReadableAoi(op.aoi) == op.aoi;
    hide EncodeInterest, AoiOf, FullRadiusOf, CoarseRateOf, CoarseGridOf, ReadableAoi;
    InterestComesBack(op);
  }

  // ---------------------------------------------------------------- entity operations

  lemma {:induction false} StableEntityOnly(kind: Kind, entity: string)
    requires entity != ""
    ensures RequiredStr(EncodeEntityOnly(kind, entity), KEntity) == Ok(entity)
  {
    hide Look, Put, KindName, Named;
    NoFields();
  }

  lemma {:induction false} StableAddEntity(v: Value)
    requires RequiredStr(v, KEntity).Ok?
    ensures
      var w := EncodeAddEntity(AddEntity(RequiredStr(v, KEntity).value, Look(v, KComponents)));
      RequiredStr(w, KEntity) == RequiredStr(v, KEntity) && Look(w, KComponents) == Look(v, KComponents)
  {
    hide Look, Put, KindName, Named;
    NoFields();
  }

  lemma {:induction false} BagGiven(v: Value, components: Value)
    requires Look(v, KComponents) == Some(components)
    ensures ComponentBag(v) == components
  {}

  lemma {:induction false} EncodedCreateEntity(op: Op, w: Value)
    requires op.CreateEntity? && w == EncodeCreateEntity(op)
    ensures Look(w, KEntity) == S(op.entity) && Look(w, KRequestId) == OptS(op.requestId)
    ensures Look(w, KRegion) == OptS(op.requestedRegion) && Look(w, KComponents) == Some(op.components)
  {
    hide Look, Put, KindName, Named;
    NoFields();
  }

  lemma {:induction false} CreateComesBack(op: Op)
    requires op.CreateEntity? && op.entity != "" && op.requestId != Some("") && op.requestedRegion != Some("")
    ensures DecodeCreateEntity(EncodeCreateEntity(op)) == Ok(op)
  {
    hide EncodeCreateEntity, Look, ComponentBag;
    var w := EncodeCreateEntity(op);
    EncodedCreateEntity(op, w);
    BagGiven(w, op.components);
    assert OptionalStr(w, KEntity) == Some(op.entity);
    OptionalBack(w, KRequestId, op.requestId);
    OptionalBack(w, KRegion, op.requestedRegion);
    hide OptionalStr, OptS;
  }

  lemma {:induction false} StableCreateEntity(v: Value)
    requires DecodeCreateEntity(v).Ok?
    ensures
      var op := DecodeCreateEntity(v).value;
      op.CreateEntity? && DecodeCreateEntity(EncodeCreateEntity(op)) == Ok(op)
  {
    NotEmpty(v, KEntity);
    NotEmpty(v, KRequestId);
    NotEmpty(v, KRegion);
    hide Look, ComponentBag, OptionalStr, EncodeCreateEntity;
    CreateComesBack(DecodeCreateEntity(v).value);
  }

  lemma {:induction false} EncodedDeleteEntity(op: Op, w: Value)
    requires op.DeleteEntity? && w == EncodeDeleteEntity(op)
    ensures Look(w, KEntity) == S(op.entity) && Look(w, KRequestId) == OptS(op.requestId)
    ensures Look(w, KAuthorityEpoch) == OptU(op.epoch) && Look(w, KEpoch) == None
  {
    NoFields();
    hide Look, Put, KindName, Named;
  }

  lemma {:induction false} DeleteComesBack(op: Op)
    requires op.DeleteEntity? && op.entity != "" && op.requestId != Some("")
    ensures DecodeDeleteEntity(EncodeDeleteEntity(op)) == Ok(op)
  {
    var w := EncodeDeleteEntity(op);
    EncodedDeleteEntity(op, w);
    assert OptionalStr(w, KEntity) == Some(op.entity);
    hide EncodeDeleteEntity, Look;
    OptionalBack(w, KRequestId, op.requestId);
    EpochBack(w, op.epoch);
    hide OptionalStr, OptS, OptU, AuthorityEpoch;
  }

  lemma {:induction false} StableDeleteEntity(v: Value)
    requires DecodeDeleteEntity(v).Ok?
    ensures
      var op := DecodeDeleteEntity(v).value;
      op.DeleteEntity? && DecodeDeleteEntity(EncodeDeleteEntity(op)) == Ok(op)
  {
    NotEmpty(v, KEntity);
    NotEmpty(v, KRequestId);
    hide Look, OptionalStr, AuthorityEpoch, EncodeDeleteEntity;
    DeleteComesBack(DecodeDeleteEntity(v).value);
  }

  lemma {:induction false} StableReserveEntityIds(v: Value)
    ensures
      var op := DecodeReserveEntityIds(v);
      op.ReserveEntityIds? && DecodeReserveEntityIds(EncodeReserveEntityIds(op)) == op
  {
    hide Look, Put, KindName, Named;
    NoFields();
    var op := DecodeReserveEntityIds(v);
    var w := EncodeReserveEntityIds(op);
    assert Look(w, KRequestId) == OptS(op.requestId) && Look(w, KCount) == U(op.count);
    assert CountOf(w) == op.count;
    hide EncodeReserveEntityIds, CountOf;
  }

  // ---------------------------------------------------------------- component operations

  lemma {:induction false} ComponentFields(kind: Kind, entity: string, component: string, value: Option<Value>,
                                           epoch: Option<u64>, w: Value)
    requires w == EncodeComponent(kind, entity, component, value, epoch)
    ensures Look(w, KEntity) == S(entity) && Look(w, KComp) == S(component) && Look(w, KValue) == value
    ensures Look(w, KAuthorityEpoch) == OptU(epoch) && Look(w, KEpoch) == None
  {
    NoFields();
    hide Look, Put, KindName, Named, S, OptU;
  }

  lemma {:induction false} EncodedComponent(kind: Kind, entity: string, component: string, value: Option<Value>,
                                            epoch: Option<u64>, w: Value)
    requires entity != "" && component != "" && w == EncodeComponent(kind, entity, component, value, epoch)
    ensures EntityAndComponent(w) == Ok((entity, component))
    ensures Look(w, KValue) == value && AuthorityEpoch(w) == epoch
  {
    hide EncodeComponent, Look;
    ComponentFields(kind, entity, component, value, epoch, w);
  }

  lemma {:induction false} NamesNotEmpty(v: Value)
    requires EntityAndComponent(v).Ok?
    ensures EntityAndComponent(v).value.0 != "" && EntityAndComponent(v).value.1 != ""
  {
    hide Look;
  }

  lemma {:induction false} StableComponentOps(v: Value, names: (string, string), value: Value, epoch: Option<u64>)
    requires EntityAndComponent(v) == Ok(names)
    ensures DecodeAddComponent(EncodeComponent(IsAddComponent, names.0, names.1, Some(value), epoch))
      == Ok(AddComponent(names.0, names.1, value, epoch))
    ensures DecodeRemoveComponent(EncodeComponent(IsRemoveComponent, names.0, names.1, None, epoch))
      == Ok(RemoveComponent(names.0, names.1, epoch))
    ensures DecodeUpdateComponent(EncodeComponent(IsUpdateComponent, names.0, names.1, Some(value), epoch))
      == Ok(UpdateComponent(names.0, names.1, value, epoch))
  {
    NamesNotEmpty(v);
    EncodedComponent(IsAddComponent, names.0, names.1, Some(value), epoch,
                     EncodeComponent(IsAddComponent, names.0, names.1, Some(value), epoch));
    EncodedComponent(IsRemoveComponent, names.0, names.1, None, epoch,
                     EncodeComponent(IsRemoveComponent, names.0, names.1, None, epoch));
    EncodedComponent(IsUpdateComponent, names.0, names.1, Some(value), epoch,
                     EncodeComponent(IsUpdateComponent, names.0, names.1, Some(value), epoch));
    hide EncodeComponent, EntityAndComponent, Look, AuthorityEpoch;
  }

  // ---------------------------------------------------------------- batches

  lemma {:induction false} BatchEntriesBack(es: seq<BatchEntry>)
    ensures DecodeBatchEntries(EncodeBatchEntries(es)) == Ok(es)
  {
    hide WireName;
    if es != [] {
      assert EncodeBatchEntries(es)[1..] == EncodeBatchEntries(es[1..]);
      BatchEntriesBack(es[1..]);
      assert DecodeBatchEntry(EncodeBatchEntry(es[0])) == Ok(es[0]);
      assert es == [es[0]] + es[1..];
    }
  }

  lemma {:induction false} BatchComesBack(op: Op)
    requires op.BatchUpdate? && op.component != ""
    ensures DecodeBatchUpdate(EncodeBatchUpdate(op)) == Ok(op)
  {
    NoFields();
    hide Look, Put, KindName, DecodeBatchEntries, EncodeBatchEntries, MapEntries;
    BatchEntriesBack(op.updates);
    var w := EncodeBatchUpdate(op);
    assert Look(w, KComp) == S(op.component) && Look(w, KUpdates) == Some(Arr(EncodeBatchEntries(op.updates)));
    hide EncodeBatchUpdate;
  }

  lemma {:induction false} StableBatchUpdate(v: Value)
    requires DecodeBatchUpdate(v).Ok?
    ensures
      var op := DecodeBatchUpdate(v).value;
      op.BatchUpdate? && DecodeBatchUpdate(EncodeBatchUpdate(op)) == Ok(op)
  {
    hide Look, DecodeBatchEntries, MapEntries, EncodeBatchUpdate;
    BatchComesBack(DecodeBatchUpdate(v).value);
  }

  function ArrayForm(e: BatchEntry): Value { EncodeBatchEntry(e) }

  function ObjectForm(e: BatchEntry): Value {
    Obj(Put(KEntity, S(e.entity), Put(KValue, Some(e.value), Put(KAuthorityEpoch, OptU(e.authorityEpoch), []))))
  }

  lemma {:induction false} ObjectFormDecodes(e: BatchEntry)
    ensures DecodeBatchEntry(ObjectForm(e)) == Ok(e)
  {
    NoFields();
    hide Put, WireName;
    var w := ObjectForm(e);
    assert Look(w, KEntity) == S(e.entity) && Look(w, KValue) == Some(e.value);
    assert Look(w, KAuthorityEpoch) == OptU(e.authorityEpoch);
  }

  lemma {:induction false} ArrayFormDecodes(e: BatchEntry)
    ensures DecodeBatchEntry(ArrayForm(e)) == Ok(e)
  {
    hide WireName;
  }

  /** A batch may list its entries as arrays, as objects or as a mixture: the entries decode alike. */
  lemma {:induction false} BatchFormsAgree(es: seq<BatchEntry>, items: seq<Value>)
    requires |items| == |es|
    requires forall i :: 0 <= i < |es| ==> items[i] == ArrayForm(es[i]) || items[i] == ObjectForm(es[i])
    ensures DecodeBatchEntries(items) == Ok(es)
  {
    hide ArrayForm, ObjectForm, DecodeBatchEntry;
    if es != [] {
      assert items[0] == ArrayForm(es[0]) || items[0] == ObjectForm(es[0]);
      ArrayFormDecodes(es[0]);
      ObjectFormDecodes(es[0]);
      assert forall i :: 0 <= i < |es[1..]| ==> es[1..][i] == es[i + 1] && items[1..][i] == items[i + 1];
      BatchFormsAgree(es[1..], items[1..]);
      assert es == [es[0]] + es[1..];
    }
  }

  /** A batch whose entries share one epoch may also be a map from entity to value. */
  lemma {:induction false} MapFormAgrees(v: Value, component: string, es: seq<BatchEntry>, epoch: Option<u64>,
                                         values: seq<Field>)
    requires component != "" && |values| == |es|
    requires forall i :: 0 <= i < |es| ==>
      values[i] == Field(es[i].entity, es[i].value) && es[i].authorityEpoch == epoch
    requires v == Obj(Put(KComp, S(component), Put(KValues, Some(Obj(values)), Put(KAuthorityEpoch, OptU(epoch), []))))
    ensures DecodeBatchUpdate(v) == Ok(BatchUpdate(component, es))
  {
    hide Look, Put, DecodeBatchEntries, MapEntries, AuthorityEpoch, RequiredComponentName;
    MapEntriesAre(es, epoch, values);
    MapLookups(v, component, epoch, values);
  }

  lemma {:induction false} MapEntriesAre(es: seq<BatchEntry>, epoch: Option<u64>, values: seq<Field>)
    requires |values| == |es|
    requires forall i :: 0 <= i < |es| ==>
      values[i] == Field(es[i].entity, es[i].value) && es[i].authorityEpoch == epoch
    ensures MapEntries(values, epoch) == es
  {
    forall i | 0 <= i < |es| ensures MapEntries(values, epoch)[i] == es[i] {
      assert es[i] == BatchEntry(es[i].entity, es[i].value, es[i].authorityEpoch);
    }
  }

  lemma {:induction false} MapLookups(v: Value, component: string, epoch: Option<u64>, values: seq<Field>)
    requires v == Obj(Put(KComp, S(component), Put(KValues, Some(Obj(values)), Put(KAuthorityEpoch, OptU(epoch), []))))
    requires component != ""
    ensures RequiredComponentName(v) == Ok(component)
    ensures Look(v, KUpdates) == None && Look(v, KValues) == Some(Obj(values))
    ensures AuthorityEpoch(v) == epoch
  {
    hide Look, Put;
    MapFields(v, component, epoch, values);
  }

  lemma {:induction false} MapFields(v: Value, component: string, epoch: Option<u64>, values: seq<Field>)
    requires v == Obj(Put(KComp, S(component), Put(KValues, Some(Obj(values)), Put(KAuthorityEpoch, OptU(epoch), []))))
    ensures Look(v, KUpdates) == None && Look(v, KValues) == Some(Obj(values)) && Look(v, KComp) == S(component)
    ensures Look(v, KAuthorityEpoch) == OptU(epoch) && Look(v, KEpoch) == None
  {
    NoFields();
    hide Look, Put, S, OptU;
  }

  // ---------------------------------------------------------------- the theorem

  lemma {:induction false} EncodeNamed(op: Op)
    ensures Named(KindFor(op), Encode(op))
  {
    hide Put, Look, KindName, Named, EncodeAoi;
  }

  lemma {:induction false} NameComesBack(op: Op, kind: Kind)
    requires KindFor(op) == kind && KindName(kind) != "" && KindOf(KindName(kind)) == Some(kind)
    ensures Decode(Encode(op)) == DecodeKind(kind, Encode(op))
  {
    EncodeNamed(op);
    hide DecodeKind, KindOf, KindName, Encode, Look, KindFor;
  }

  predicate EntityKind(kind: Kind) { kind.IsAddEntity? || kind.IsRemoveEntity? || kind.IsMeshAck? }

  predicate ComponentKind(kind: Kind) { kind.IsAddComponent? || kind.IsRemoveComponent? || kind.IsUpdateComponent? }

  predicate FieldKind(kind: Kind) { kind.IsAuthorityChange? || kind.IsMeshHandoff? || kind.IsBag? }

  lemma {:induction false} StableEntityKind(kind: Kind, v: Value)
    requires EntityKind(kind) && DecodeKind(kind, v).Ok?
    ensures var op := DecodeKind(kind, v).value; KindFor(op) == kind && DecodeKind(kind, Encode(op)) == Ok(op)
  {
    hide Look, EncodeEntityOnly, EncodeAddEntity;
    EntityNotEmpty(v);
    StableEntityOnly(kind, RequiredStr(v, KEntity).value);
    StableAddEntity(v);
    hide RequiredStr;
  }

  lemma {:induction false} EntityNotEmpty(v: Value)
    ensures RequiredStr(v, KEntity).Ok? ==> RequiredStr(v, KEntity).value != ""
  {
    hide Look;
  }

  lemma {:induction false} StableComponentKind(kind: Kind, v: Value)
    requires ComponentKind(kind) && DecodeKind(kind, v).Ok?
    ensures var op := DecodeKind(kind, v).value; KindFor(op) == kind && DecodeKind(kind, Encode(op)) == Ok(op)
  {
    hide Look, EntityAndComponent, AuthorityEpoch, EncodeComponent;
    assert EntityAndComponent(v).Ok?;
    StableComponentOps(v, EntityAndComponent(v).value, UnwrapOr(Look(v, KValue), Null), AuthorityEpoch(v));
  }

  lemma {:induction false} StableFieldKind(kind: Kind, v: Value)
    requires FieldKind(kind) && v.Obj? && DecodeKind(kind, v).Ok?
    ensures var op := DecodeKind(kind, v).value; KindFor(op) == kind && DecodeKind(kind, Encode(op)) == Ok(op)
  {
    hide DecodeAuthorityChange, DecodeMeshHandoff, FieldsOf, EncodeAuthorityChange, EncodeMeshHandoff, EncodeFields;
    match kind
    case IsAuthorityChange => StableAuthorityChange(v);
    case IsMeshHandoff => StableMeshHandoff(v);
    case IsBag(name) => StableBag(v, name);
  }

  lemma {:induction false} StableConnectionKind(kind: Kind, v: Value)
    requires kind.IsWorkerConnect? || kind.IsAuthReject? || kind.IsDisconnect? || kind.IsHeartbeat? || kind.IsInterest?
      || kind.IsCriticalSection? || kind.IsHealth?
    requires DecodeKind(kind, v).Ok?
    ensures var op := DecodeKind(kind, v).value; KindFor(op) == kind && DecodeKind(kind, Encode(op)) == Ok(op)
  {
    hide Look, OptionalStr, DecodeWorkerConnect, DecodeAuthReject, DecodeInterest,
         EncodeWorkerConnect, EncodeAuthReject, EncodeHeartbeat, EncodeInterest, EncodeCriticalSection;
    match kind
    case IsWorkerConnect => StableWorkerConnect(v);
    case IsAuthReject => StableAuthReject(v);
    case IsHeartbeat => StableHeartbeat(v);
    case IsInterest => StableInterest(v);
    case IsCriticalSection => StableCriticalSection(v);
    case _ =>
  }

  lemma {:induction false} StableLifecycleKind(kind: Kind, v: Value)
    requires kind.IsCreateEntity? || kind.IsDeleteEntity? || kind.IsReserveEntityIds? || kind.IsBatchUpdate?
    requires DecodeKind(kind, v).Ok?
    ensures var op := DecodeKind(kind, v).value; KindFor(op) == kind && DecodeKind(kind, Encode(op)) == Ok(op)
  {
    hide DecodeCreateEntity, DecodeDeleteEntity, DecodeReserveEntityIds, DecodeBatchUpdate,
         EncodeCreateEntity, EncodeDeleteEntity, EncodeReserveEntityIds, EncodeBatchUpdate;
    match kind
    case IsCreateEntity => StableCreateEntity(v);
    case IsDeleteEntity => StableDeleteEntity(v);
    case IsReserveEntityIds => StableReserveEntityIds(v);
    case IsBatchUpdate => StableBatchUpdate(v);
  }

  lemma {:induction false} StableKind(kind: Kind, v: Value)
    requires !kind.IsUpdateRejected? && v.Obj? && DecodeKind(kind, v).Ok?
    ensures var op := DecodeKind(kind, v).value; KindFor(op) == kind && DecodeKind(kind, Encode(op)) == Ok(op)
  {
    hide DecodeKind, Encode, KindFor;
    if FieldKind(kind) {
      StableFieldKind(kind, v);
    } else if EntityKind(kind) {
      StableEntityKind(kind, v);
    } else if ComponentKind(kind) {
      StableComponentKind(kind, v);
    } else if kind.IsCreateEntity? || kind.IsDeleteEntity? || kind.IsReserveEntityIds? || kind.IsBatchUpdate? {
      StableLifecycleKind(kind, v);
    } else {
      StableConnectionKind(kind, v);
    }
  }

  /** An operation that is encoded and decoded comes back. */
  ghost predicate Survives(op: Op) { Decode(Encode(op)) == Ok(op) }

  predicate BareRejection(op: Op) { op.UpdateRejected? && op.fields == [] }

  lemma {:induction false} RejectionKind(v: Value)
    ensures DecodeKind(IsUpdateRejected, v) == Ok(DecodeUpdateRejected(v))
    ensures DecodeUpdateRejected(v).UpdateRejected?
    ensures KindFor(DecodeUpdateRejected(v)) == IsUpdateRejected
    ensures Encode(DecodeUpdateRejected(v)) == EncodeUpdateRejected(DecodeUpdateRejected(v))
  {
    hide EncodeUpdateRejected, Look, FieldsOf, OptionalStr, ComponentNameOf;
  }

  lemma {:induction false} RejectionSettles(v: Value)
    requires v.Obj? && KindOf(KindName(IsUpdateRejected)) == Some(IsUpdateRejected)
    requires KindName(IsUpdateRejected) != ""
    ensures
      var op := DecodeUpdateRejected(v);
      && (Survives(op) <==> !BareRejection(op))
      && Decode(Encode(op)).Ok? && Survives(Decode(Encode(op)).value)
  {
    hide Encode, DecodeKind, DecodeUpdateRejected, EncodeUpdateRejected, Decode, KindName, KindOf, KindFor;
    StableUpdateRejected(v);
    var op := DecodeUpdateRejected(v);
    RejectionKind(v);
    RejectionKind(Encode(op));
    NameComesBack(op, IsUpdateRejected);
    var again := DecodeUpdateRejected(Encode(op));
    RejectionKind(Encode(again));
    NameComesBack(again, IsUpdateRejected);
  }

  lemma {:induction false} DecodedKind(v: Value) returns (kind: Kind)
    requires Decode(v).Ok?
    ensures v.Obj? && KindName(kind) != "" && KindOf(KindName(kind)) == Some(kind)
    ensures Decode(v) == DecodeKind(kind, v)
  {
    hide DecodeKind, Look;
    assert v.Obj? by { NotAnObject(v, KOp); }
    hide KindOf, KindName;
    kind := KindOf(RequiredStr(v, KOp).value).value;
  }

  lemma {:induction false} NotAnObject(v: Value, k: Key)
    ensures Look(v, k).Some? ==> v.Obj?
  {}

  /** Decoding is stable under re-encoding except for a rejection without any field, which settles on
      the second pass. */
  lemma {:induction false} DecodeIsStable(v: Value)
    requires Decode(v).Ok?
    ensures
      var op := Decode(v).value;
      && (Survives(op) <==> !BareRejection(op))
      && Decode(Encode(op)).Ok? && Survives(Decode(Encode(op)).value)
  {
    hide DecodeKind, Encode, KindOf, Look, KindName, Decode;
    var kind := DecodedKind(v);
    var op := Decode(v).value;
    if kind.IsUpdateRejected? {
      RejectionKind(v);
      RejectionSettles(v);
    } else {
      StableKind(kind, v);
      NameComesBack(op, kind);
    }
  }

  /** A rejection without any field does exist on the wire, and does not survive its first re-encoding. */
  lemma {:induction false} BareRejectionExample()
    ensures
      var d := Decode(Obj([Field(WireName(KOp), Str(KindName(IsUpdateRejected)))]));
      d == Ok(UpdateRejected(None, None, "", [])) && !Survives(d.value)
  {
    var v := Obj([Field(WireName(KOp), Str(KindName(IsUpdateRejected)))]);
    RejectionNamed();
    hide KindOf, KindName, WireName;
    assert Look(v, KOp) == S(KindName(IsUpdateRejected));
    assert FieldsOf(v) == [];
    BareDecoded(v);
    RejectionKind(v);
    hide DecodeKind, DecodeUpdateRejected, Survives, Look, FieldsOf;
    DecodeIsStable(v);
  }

  lemma {:induction false} RejectionNamed()
    ensures KindOf(KindName(IsUpdateRejected)) == Some(IsUpdateRejected) && KindName(IsUpdateRejected) != ""
  {}
}
