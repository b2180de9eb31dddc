/** The client's view of the world, crates/godworks-client-sdk/src/lib.rs: what every operation does to
    the cache, as functions on its state. */
module ClientState {
  import opened Wrappers
  import opened Json
  import opened Protocol
  import Text

  datatype Authority = Authority(authoritative: bool, epoch: u64, mode: string)

  datatype Rejection = Rejection(entity: Option<string>, component: Option<string>, reason: string)

  datatype Row = Row(
    components: map<string, Value>,
    authority: map<string, Authority>,
    ghostly: bool,
    ownerRegion: Option<string>)

  const NEW_ROW := Row(map[], map[], false, None)

  datatype Phase = Disconnected | Connecting | Resyncing | Live

  datatype State = State(entities: map<string, Row>, rejections: seq<Rejection>, depth: nat, phase: Phase)

  const INIT := State(map[], [], 0, Disconnected)

  datatype CacheEvent =
    | Ignored
    | EntityAdded(entity: string)
    | EntityRemoved(entity: string)
    | ComponentUpdated(entity: string, component: string)
    | AuthorityChanged(entity: string, component: string)
    | Refused(rejection: Rejection)
    | DepthChanged(depth: nat)

  // ---------------------------------------------------------------- rows

  function RowOf(s: State, e: string): Option<Row> { if e in s.entities then Some(s.entities[e]) else None }

  function OrNew(row: Option<Row>): Row { if row.Some? then row.value else NEW_ROW }

  function Component(row: Row, name: string): Option<Value> {
    if name in row.components then Some(row.components[name]) else None
  }

  function WithComponent(row: Row, name: string, v: Value): Row { row.(components := row.components[name := v]) }

  function WithOptional(row: Row, name: string, v: Option<Value>): Row {
    if v.Some? then WithComponent(row, name, v.value) else row
  }

  /** The ghost flag and the owner region follow their components, and stay when those say nothing. */
  function Refresh(row: Row): Row {
    row.(
      ghostly := UnwrapOr(AsBool(Component(row, "ghost")), row.ghostly),
      ownerRegion := OrElse(AsStr(Component(row, "owner_region")), row.ownerRegion))
  }

  function InsertAll(row: Row, fields: seq<Field>): Row {
    if fields == [] then row
    else
      var last := fields[|fields| - 1];
      WithComponent(InsertAll(row, fields[..|fields| - 1]), last.key, last.value)
  }

  function MergeBag(row: Row, v: Option<Value>): Row {
    if v.Some? && v.value.Obj? then Refresh(InsertAll(row, v.value.fields)) else row
  }

  function SetComponent(row: Option<Row>, name: string, v: Value): Row {
    Refresh(WithComponent(OrNew(row), name, v))
  }

  function FieldStr(fields: seq<Field>, key: string): Option<string> { AsStr(Find(fields, key)) }

  /** A mirror of an entity that another region owns; its owner region comes from this frame alone. */
  function Mirror(row: Option<Row>, fields: seq<Field>): Row {
    var merged := MergeBag(OrNew(row), Find(fields, "components"));
    var moved := WithOptional(WithOptional(merged, "pos", Find(fields, "pos")), "vel", Find(fields, "vel"));
    var owner := FieldStr(fields, "owner_region");
    var owned := moved.(ghostly := true, ownerRegion := owner);
    WithComponent(if owner.Some? then WithComponent(owned, "owner_region", Str(owner.value)) else owned,
                  "ghost", Bool(true))
  }

  // ---------------------------------------------------------------- operations

  function PutRow(s: State, e: string, row: Row): State { s.(entities := s.entities[e := row]) }

  function DropRow(s: State, e: string): State { s.(entities := s.entities - {e}) }

  function Set(s: State, e: string, name: string, v: Value): State { PutRow(s, e, SetComponent(RowOf(s, e), name, v)) }

  function SetAll(s: State, name: string, updates: seq<BatchEntry>): State {
    if updates == [] then s
    else
      var last := updates[|updates| - 1];
      Set(SetAll(s, name, updates[..|updates| - 1]), last.entity, name, last.value)
  }

  predicate Ends(phase: string) {
    var p := Text.Lower(phase);
    p == "end" || p == "finish" || p == "close" || p == "commit"
  }

  predicate Begins(phase: string) {
    var p := Text.Lower(phase);
    p == "begin" || p == "start" || p == "open" || p == "prepare"
  }

  function Deepen(depth: nat, phase: string): nat {
    if Ends(phase) then (if depth > 0 then depth - 1 else 0)
    else if Begins(phase) then depth + 1
    else depth
  }

  function ComponentField(fields: seq<Field>): Option<string> {
    OrElse(FieldStr(fields, "comp"), FieldStr(fields, "component"))
  }

  /** The operations that carry their fields and mean something to the cache. */
  function ApplyBag(s: State, name: string, fields: seq<Field>): (State, CacheEvent) {
    var entity := FieldStr(fields, "entity");
    if entity.None? then (s, Ignored)
    else
      var e := entity.value;
      if name == "ComponentUpdate" then
        var component := ComponentField(fields);
        if component.None? then (s, Ignored)
        else
          (Set(s, e, component.value, UnwrapOr(Find(fields, "value"), Null)), ComponentUpdated(e, component.value))
      else if name == "MeshGhost" then (PutRow(s, e, Mirror(RowOf(s, e), fields)), EntityAdded(e))
      else if name == "MeshGhostRemove" then (DropRow(s, e), EntityRemoved(e))
      else (s, Ignored)
  }

  function ApplyOp(s: State, op: Op): (State, CacheEvent) {
    match op
    case AddEntity(e, shown) => (PutRow(s, e, Refresh(MergeBag(OrNew(RowOf(s, e)), shown))), EntityAdded(e))
    case RemoveEntity(e) => (DropRow(s, e), EntityRemoved(e))
    case AddComponent(e, name, v, _) => (Set(s, e, name, v), ComponentUpdated(e, name))
    case RemoveComponent(e, name, _) =>
      (if e in s.entities then PutRow(s, e, WithoutComponent(s.entities[e], name)) else s, ComponentUpdated(e, name))
    case BatchUpdate(name, updates) =>
      (SetAll(s, name, updates),
       if updates == [] then Ignored else ComponentUpdated(updates[|updates| - 1].entity, name))
    case AuthorityChange(e, name, authoritative, at, mode, _) =>
      (PutRow(s, e, Granted(RowOf(s, e), name, Authority(authoritative, at, mode))), AuthorityChanged(e, name))
    case UpdateRejected(about, which, reason, _) =>
      (s.(rejections := s.rejections + [Rejection(about, which, reason)]), Refused(Rejection(about, which, reason)))
    case CriticalSection(phase, _) => (s.(depth := Deepen(s.depth, phase)), DepthChanged(Deepen(s.depth, phase)))
    case Bag(name, fields) => ApplyBag(s, name, fields)
    case _ => (s, Ignored)
  }

  function WithoutComponent(row: Row, name: string): Row {
    Refresh(row.(components := row.components - {name}, authority := row.authority - {name}))
  }

  function Granted(row: Option<Row>, name: string, a: Authority): Row {
    OrNew(row).(authority := OrNew(row).authority[name := a])
  }

  // ---------------------------------------------------------------- reconnects and resyncs

  function Cleared(s: State): State { State(map[], [], 0, s.phase) }

  function GrantAll(row: Row, fields: seq<Field>): Row {
    if fields == [] then row
    else
      var before, last := GrantAll(row, fields[..|fields| - 1]), fields[|fields| - 1];
      if last.value.Obj? then
        var spec := last.value.fields;
        var epoch := Find(spec, "authority_epoch");
        before.(authority := before.authority[last.key := Authority(
          true,
          UnwrapOr(AsU64(if epoch.Some? then epoch else Find(spec, "epoch")), 0),
          UnwrapOr(FieldStr(spec, "mode"), ""))])
      else before
  }

  const TOP_LEVEL: seq<string> := ["pos", "vel", "region", "ghost", "owner_region"]

  function TopLevel(row: Row, fields: seq<Field>, names: seq<string>): Row {
    if names == [] then row
    else
      var last := names[|names| - 1];
      WithOptional(TopLevel(row, fields, names[..|names| - 1]), last, Find(fields, last))
  }

  /** One row of a checkout. */
  function CheckoutRow(fields: seq<Field>): Row {
    var merged := MergeBag(NEW_ROW, Find(fields, "components"));
    var placed := TopLevel(merged, fields, TOP_LEVEL);
    var authority := AsObject(Find(fields, "authority"));
    Refresh(if authority.Some? then GrantAll(placed, authority.value) else placed)
  }

  function Ingest(s: State, v: Value): State {
    if v.Obj? && FieldStr(v.fields, "entity").Some? then
      PutRow(s, FieldStr(v.fields, "entity").value, CheckoutRow(v.fields))
    else s
  }

  function IngestAll(s: State, rows: seq<Value>): State {
    if rows == [] then s else Ingest(IngestAll(s, rows[..|rows| - 1]), rows[|rows| - 1])
  }

  function RowsOf(response: seq<Field>): seq<Value> { UnwrapOr(AsArray(Find(response, "entities")), []) }

  /** A checkout replaces everything that came from the stream. */
  function Checkout(response: seq<Field>): State { IngestAll(State(map[], [], 0, Live), RowsOf(response)) }

  datatype Event =
    | Stream(op: Op)
    | TransportClosed
    | TransportConnecting
    | ResyncBegun
    | ResyncFinished(response: seq<Field>)
    | WentLive

  function Step(s: State, e: Event): State {
    match e
    case Stream(op) => ApplyOp(s, op).0
    case TransportClosed => Cleared(s).(phase := Disconnected)
    case TransportConnecting => s.(phase := Connecting)
    case ResyncBegun => Cleared(s).(phase := Resyncing)
    case ResyncFinished(response) => Checkout(response)
    case WentLive => s.(phase := Live)
  }

  function Run(s: State, events: seq<Event>): State {
    if events == [] then s else Step(Run(s, events[..|events| - 1]), events[|events| - 1])
  }
}
