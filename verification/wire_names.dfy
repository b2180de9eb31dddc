/** The names of fields and operations on the v1 wire, as they appear in
    crates/godworks-protocol/src/json.rs and lib.rs.  Proofs work with the enumerations, so that the text of a
    name matters only here. */
module WireNames {
  import opened Wrappers

  datatype Key =
    | KOp | KWorkerId | KRegion | KProto | KAttributes | KAuthToken | KError | KReason | KEntity | KPhase
    | KCenter | KRadius | KMin | KMax | KFullRadius | KFullRadiusCamel | KCoarseRate | KCoarseRateCamel
    | KCoarseGrid | KCoarseGridCamel | KComponents | KPos | KVel | KRequestId | KCount | KN | KComp
    | KComponent | KValue | KAuthorityEpoch | KEpoch | KUpdates | KValues | KAuthoritative | KMode | KTarget
    | KSourceRegion | KSrcRegion | KLeaseEpoch | KSourceDurableGen | KVersion | KKind | KCols | KRows | KLayers
    | KCellW | KCellH | KCellD | KOrigin | KBoundaries | KSplits

  /** The fields by the length of their names, so that a proof about some names need not unfold all. */
  predicate IsShort(k: Key) {
    k.KOp? || k.KProto? || k.KError? || k.KPhase? || k.KMin? || k.KMax? || k.KPos? || k.KVel? || k.KCount? || k.KN?
    || k.KComp? || k.KValue? || k.KEpoch? || k.KMode? || k.KKind? || k.KCols? || k.KRows?
  }

  predicate IsSix(k: Key) {
    k.KRegion? || k.KReason? || k.KEntity? || k.KCenter? || k.KRadius? || k.KValues? || k.KTarget? || k.KLayers?
    || k.KCellW? || k.KCellH? || k.KCellD? || k.KOrigin? || k.KSplits?
  }

  predicate IsTen(k: Key) {
    k.KAttributes? || k.KAuthToken? || k.KFullRadiusCamel? || k.KCoarseRateCamel? || k.KCoarseGridCamel?
    || k.KComponents? || k.KRequestId? || k.KSrcRegion? || k.KBoundaries?
  }

  function ShortName(k: Key): string
    requires IsShort(k)
  {
    match k
    case KOp => "op"
    case KProto => "proto"
    case KError => "error"
    case KPhase => "phase"
    case KMin => "min"
    case KMax => "max"
    case KPos => "pos"
    case KVel => "vel"
    case KCount => "count"
    case KN => "n"
    case KComp => "comp"
    case KValue => "value"
    case KEpoch => "epoch"
    case KMode => "mode"
    case KKind => "kind"
    case KCols => "cols"
    case KRows => "rows"
  }

  function NameOfSix(k: Key): string
    requires IsSix(k)
  {
    match k
    case KRegion => "region"
    case KReason => "reason"
    case KEntity => "entity"
    case KCenter => "center"
    case KRadius => "radius"
    case KValues => "values"
    case KTarget => "target"
    case KLayers => "layers"
    case KCellW => "cell_w"
    case KCellH => "cell_h"
    case KCellD => "cell_d"
    case KOrigin => "origin"
    case KSplits => "splits"
  }

  function NameOfTen(k: Key): string
    requires IsTen(k)
  {
    match k
    case KAttributes => "attributes"
    case KAuthToken => "auth_token"
    case KFullRadiusCamel => "fullRadius"
    case KCoarseRateCamel => "coarseRate"
    case KCoarseGridCamel => "coarseGrid"
    case KComponents => "components"
    case KRequestId => "request_id"
    case KSrcRegion => "src_region"
    case KBoundaries => "boundaries"
  }

  function LongName(k: Key): string
    requires !IsShort(k) && !IsSix(k) && !IsTen(k)
  {
    match k
    case KWorkerId => "worker_id"
    case KFullRadius => "full_radius"
    case KCoarseRate => "coarse_rate"
    case KCoarseGrid => "coarse_grid"
    case KComponent => "component"
    case KAuthorityEpoch => "authority_epoch"
    case KUpdates => "updates"
    case KAuthoritative => "authoritative"
    case KSourceRegion => "source_region"
    case KLeaseEpoch => "lease_epoch"
    case KSourceDurableGen => "source_durable_gen"
    case KVersion => "version"
  }

  function WireName(k: Key): string {
    if IsShort(k) then ShortName(k)
    else if IsSix(k) then NameOfSix(k)
    else if IsTen(k) then NameOfTen(k)
    else LongName(k)
  }

  /** The field a name stands for, read off its length and one or two of its characters. */
  function KeyOf(name: string): Key {
    match |name|
    case 1 => KN
    case 2 => KOp
    case 3 => if name[1] == 'i' then KMin else if name[1] == 'a' then KMax else if name[1] == 'o' then KPos else KVel
    case 4 =>
      if name[0] == 'm' then KMode
      else if name[0] == 'k' then KKind
      else if name[0] == 'r' then KRows
      else if name[2] == 'm' then KComp else KCols
    case 5 => KeyOfFive(name)
    case 6 => if name[2] == 'l' then KeyOfCell(name) else KeyOfSix(name)
    case 7 => if name[0] == 'u' then KUpdates else KVersion
    case 9 => if name[0] == 'w' then KWorkerId else KComponent
    case 10 => if name[0] == 'c' then KeyOfC(name) else KeyOfTen(name)
    case 11 =>
      if name[0] == 'f' then KFullRadius
      else if name[0] == 'l' then KLeaseEpoch
      else if name[7] == 'r' then KCoarseRate else KCoarseGrid
    case 13 => if name[0] == 'a' then KAuthoritative else KSourceRegion
    case 15 => KAuthorityEpoch
    case _ => KSourceDurableGen
  }

  function KeyOfFive(name: string): Key
    requires |name| == 5
  {
    if name[1] == 'r' then (if name[0] == 'p' then KProto else KError)
    else if name[1] == 'h' then KPhase
    else if name[1] == 'o' then KCount
    else if name[1] == 'a' then KValue
    else KEpoch
  }

  function KeyOfCell(name: string): Key
    requires |name| == 6
  {
    if name[0] == 'v' then KValues
    else if name[0] == 's' then KSplits
    else if name[5] == 'w' then KCellW
    else if name[5] == 'h' then KCellH
    else KCellD
  }

  function KeyOfSix(name: string): Key
    requires |name| == 6
  {
    if name[2] == 'g' then KRegion
    else if name[2] == 'a' then KReason
    else if name[2] == 't' then KEntity
    else if name[2] == 'n' then KCenter
    else if name[2] == 'd' then KRadius
    else if name[2] == 'y' then KLayers
    else if name[2] == 'i' then KOrigin
    else KTarget
  }

  function KeyOfC(name: string): Key
    requires |name| == 10
  {
    if name[6] == 'e' then KComponents else if name[6] == 'R' then KCoarseRateCamel else KCoarseGridCamel
  }

  function KeyOfTen(name: string): Key
    requires |name| == 10
  {
    if name[6] == 'u' then KAttributes
    else if name[6] == 'o' then KAuthToken
    else if name[6] == 'd' then KFullRadiusCamel
    else if name[6] == 't' then KRequestId
    else if name[6] == 'g' then KSrcRegion
    else KBoundaries
  }

  lemma {:induction false} ShortNames(k: Key)
    requires IsShort(k)
    ensures KeyOf(ShortName(k)) == k
  {
    hide KeyOfCell, KeyOfSix, KeyOfC, KeyOfTen;
  }

  lemma {:induction false} NamesOfSix(k: Key)
    requires IsSix(k)
    ensures KeyOf(NameOfSix(k)) == k
  {
    hide KeyOfFive, KeyOfC, KeyOfTen;
  }

  lemma {:induction false} NamesOfTen(k: Key)
    requires IsTen(k)
    ensures KeyOf(NameOfTen(k)) == k
  {
    hide KeyOfFive, KeyOfCell, KeyOfSix;
  }

  lemma {:induction false} LongNames(k: Key)
    requires !IsShort(k) && !IsSix(k) && !IsTen(k)
    ensures KeyOf(LongName(k)) == k
  {
    hide KeyOfFive, KeyOfCell, KeyOfSix, KeyOfC, KeyOfTen;
  }

  /** Every field is read back from its name. */
  lemma {:induction false} NameReadsBack(k: Key)
    ensures KeyOf(WireName(k)) == k
  {
    hide KeyOf, IsShort, IsSix, IsTen, ShortName, NameOfSix, NameOfTen, LongName;
    if IsShort(k) {
      ShortNames(k);
    } else if IsSix(k) {
      NamesOfSix(k);
    } else if IsTen(k) {
      NamesOfTen(k);
    } else {
      LongNames(k);
    }
  }

  /** No two fields share a name. */
  lemma {:induction false} KeysDiffer(a: Key, b: Key)
    ensures WireName(a) == WireName(b) ==> a == b
  {
    NameReadsBack(a);
    NameReadsBack(b);
    hide *;
  }

  lemma {:induction false} AllKeysDiffer()
    ensures forall a, b {:trigger WireName(a), WireName(b)} :: WireName(a) == WireName(b) ==> a == b
  {
    forall a, b ensures WireName(a) == WireName(b) ==> a == b {
      KeysDiffer(a, b);
    }
  }

  // ---------------------------------------------------------------- the texts on the wire

  lemma {:induction false} Texts1()
    ensures WireName(KOp) == "op" && WireName(KProto) == "proto" && WireName(KError) == "error"
    ensures WireName(KPhase) == "phase" && WireName(KMin) == "min" && WireName(KMax) == "max"
  {
    hide NameOfSix, NameOfTen, LongName;
  }

  lemma {:induction false} Texts2()
    ensures WireName(KPos) == "pos" && WireName(KVel) == "vel" && WireName(KCount) == "count" && WireName(KN) == "n"
    ensures WireName(KComp) == "comp" && WireName(KValue) == "value"
  {
    hide NameOfSix, NameOfTen, LongName;
  }

  lemma {:induction false} Texts3()
    ensures WireName(KEpoch) == "epoch" && WireName(KMode) == "mode" && WireName(KKind) == "kind"
    ensures WireName(KCols) == "cols" && WireName(KRows) == "rows"
  {
    hide NameOfSix, NameOfTen, LongName;
  }

  lemma {:induction false} Texts4()
    ensures WireName(KRegion) == "region" && WireName(KReason) == "reason" && WireName(KEntity) == "entity"
    ensures WireName(KCenter) == "center" && WireName(KRadius) == "radius"
  {
    hide ShortName, NameOfTen, LongName;
  }

  lemma {:induction false} Texts5()
    ensures WireName(KValues) == "values" && WireName(KTarget) == "target" && WireName(KLayers) == "layers"
    ensures WireName(KCellW) == "cell_w" && WireName(KCellH) == "cell_h"
  {
    hide ShortName, NameOfTen, LongName;
  }

  lemma {:induction false} Texts6()
    ensures WireName(KCellD) == "cell_d" && WireName(KOrigin) == "origin" && WireName(KSplits) == "splits"
  {
    hide ShortName, NameOfTen, LongName;
  }

  lemma {:induction false} Texts7()
    ensures WireName(KAttributes) == "attributes" && WireName(KAuthToken) == "auth_token"
    ensures WireName(KFullRadiusCamel) == "fullRadius"
  {
    hide ShortName, NameOfSix, LongName;
  }

  lemma {:induction false} Texts8()
    ensures WireName(KCoarseRateCamel) == "coarseRate" && WireName(KCoarseGridCamel) == "coarseGrid"
    ensures WireName(KComponents) == "components"
  {
    hide ShortName, NameOfSix, LongName;
  }

  lemma {:induction false} Texts9()
    ensures WireName(KRequestId) == "request_id" && WireName(KSrcRegion) == "src_region"
    ensures WireName(KBoundaries) == "boundaries"
  {
    hide ShortName, NameOfSix, LongName;
  }

  lemma {:induction false} Texts10()
    ensures WireName(KWorkerId) == "worker_id" && WireName(KFullRadius) == "full_radius"
  {
    hide ShortName, NameOfSix, NameOfTen;
  }

  lemma {:induction false} Texts11()
    ensures WireName(KCoarseRate) == "coarse_rate" && WireName(KCoarseGrid) == "coarse_grid"
  {
    hide ShortName, NameOfSix, NameOfTen;
  }

  lemma {:induction false} Texts12()
    ensures WireName(KComponent) == "component" && WireName(KAuthorityEpoch) == "authority_epoch"
  {
    hide ShortName, NameOfSix, NameOfTen;
  }

  lemma {:induction false} Texts13()
    ensures WireName(KUpdates) == "updates" && WireName(KAuthoritative) == "authoritative"
  {
    hide ShortName, NameOfSix, NameOfTen;
  }

  lemma {:induction false} Texts14()
    ensures WireName(KSourceRegion) == "source_region" && WireName(KLeaseEpoch) == "lease_epoch"
  {
    hide ShortName, NameOfSix, NameOfTen;
  }

  lemma {:induction false} Texts15()
    ensures WireName(KSourceDurableGen) == "source_durable_gen" && WireName(KVersion) == "version"
  {
    hide ShortName, NameOfSix, NameOfTen;
  }

  // ---------------------------------------------------------------- operations

  /** The operations with a payload of their own, and those that only carry their fields. */
  datatype Kind =
    | IsWorkerConnect | IsAuthReject | IsDisconnect | IsHeartbeat | IsInterest | IsCriticalSection |
    IsAddEntity | IsRemoveEntity | IsCreateEntity | IsDeleteEntity | IsReserveEntityIds | IsAddComponent |
    IsRemoveComponent | IsUpdateComponent | IsBatchUpdate | IsAuthorityChange | IsUpdateRejected |
    IsMeshHandoff | IsMeshAck | IsHealth | IsBag(name: string)

  const BAGS: seq<string> := [
    "CreateEntityResponse", "DeleteEntityResponse", "ReserveEntityIdsResponse", "ComponentUpdate",
    "SetComponentAuthority", "SetComponentAuthorityResponse", "Fold", "ThresholdTx", "ThresholdTxResponse",
    "EntityQuery", "EntityQueryResponse", "InspectorQuery", "InspectorFrame", "CommandRequest", "CommandResponse",
    "EntityEvent", "FlagUpdate", "Metrics", "SnapshotMarker", "SnapshotManifest", "MeshGhost", "MeshGhostRemove",
    "LogMessage"]

  function KindName(k: Kind): string {
    match k
    case IsWorkerConnect => "WorkerConnect"
    case IsAuthReject => "AuthReject"
    case IsDisconnect => "Disconnect"
    case IsHeartbeat => "Heartbeat"
    case IsInterest => "Interest"
    case IsCriticalSection => "CriticalSection"
    case IsAddEntity => "AddEntity"
    case IsRemoveEntity => "RemoveEntity"
    case IsCreateEntity => "CreateEntity"
    case IsDeleteEntity => "DeleteEntity"
    case IsReserveEntityIds => "ReserveEntityIds"
    case IsAddComponent => "AddComponent"
    case IsRemoveComponent => "RemoveComponent"
    case IsUpdateComponent => "UpdateComponent"
    case IsBatchUpdate => "BatchUpdate"
    case IsAuthorityChange => "AuthorityChange"
    case IsUpdateRejected => "UpdateRejected"
    case IsMeshHandoff => "MeshHandoff"
    case IsMeshAck => "MeshAck"
    case IsHealth => "Health"
    case IsBag(name) => name
  }

  /** The operation with a given name, if there is one. */
  function KindOf(name: string): (k: Option<Kind>)
    ensures k.Some? ==> KindName(k.value) == name
  {
    if name == "WorkerConnect" then Some(IsWorkerConnect)
    else if name == "AuthReject" then Some(IsAuthReject)
    else if name == "Disconnect" then Some(IsDisconnect)
    else if name == "Heartbeat" then Some(IsHeartbeat)
    else if name == "Interest" then Some(IsInterest)
    else if name == "CriticalSection" then Some(IsCriticalSection)
    else if name == "AddEntity" then Some(IsAddEntity)
    else if name == "RemoveEntity" then Some(IsRemoveEntity)
    else if name == "CreateEntity" then Some(IsCreateEntity)
    else if name == "DeleteEntity" then Some(IsDeleteEntity)
    else if name == "ReserveEntityIds" then Some(IsReserveEntityIds)
    else if name == "AddComponent" then Some(IsAddComponent)
    else if name == "RemoveComponent" then Some(IsRemoveComponent)
    else if name == "UpdateComponent" then Some(IsUpdateComponent)
    else if name == "BatchUpdate" then Some(IsBatchUpdate)
    else if name == "AuthorityChange" then Some(IsAuthorityChange)
    else if name == "UpdateRejected" then Some(IsUpdateRejected)
    else if name == "MeshHandoff" then Some(IsMeshHandoff)
    else if name == "MeshAck" then Some(IsMeshAck)
    else if name == "Health" then Some(IsHealth)
    else if name in BAGS then Some(IsBag(name))
    else None
  }
}
