/** The cache object of crates/godworks-client-sdk/src/lib.rs, updated in place: each of its methods
    proved to take the step of the state functions. */
module ClientCacheObject {
  import opened Wrappers
  import opened Json
  import opened Protocol
  import opened ClientState

  // ---------------------------------------------------------------- rows, filled field by field

  method MergeComponentMap(row: Row, components: seq<Field>) returns (r: Row)
    ensures r == Refresh(InsertAll(row, components))
  {
    r := row;
    for i := 0 to |components|
      invariant r == InsertAll(row, components[..i])
    {
      assert components[..i + 1][..i] == components[..i];
      r := r.(components := r.components[components[i].key := components[i].value]);
    }
    assert components[..|components|] == components;
    r := RefreshMetadata(r);
  }

  method MergeComponentBag(row: Row, components: Option<Value>) returns (r: Row)
    ensures r == MergeBag(row, components)
  {
    r := row;
    if components.Some? && components.value.Obj? {
      r := MergeComponentMap(row, components.value.fields);
    }
  }

  method RefreshMetadata(row: Row) returns (r: Row)
    ensures r == Refresh(row)
  {
    r := row;
    var ghostly := AsBool(Component(r, "ghost"));
    if ghostly.Some? {
      r := r.(ghostly := ghostly.value);
    }
    var owner := AsStr(Component(r, "owner_region"));
    if owner.Some? {
      r := r.(ownerRegion := owner);
    }
  }

  method MergeAuthorityMap(row: Row, authority: seq<Field>) returns (r: Row)
    ensures r == GrantAll(row, authority)
  {
    r := row;
    for i := 0 to |authority|
      invariant r == GrantAll(row, authority[..i])
    {
      assert authority[..i + 1][..i] == authority[..i];
      var spec := AsObject(Some(authority[i].value));
      if spec.Some? {
        var epoch := Find(spec.value, "authority_epoch");
        if epoch.None? {
          epoch := Find(spec.value, "epoch");
        }
        var grant := Authority(true, UnwrapOr(AsU64(epoch), 0), UnwrapOr(FieldStr(spec.value, "mode"), ""));
        r := r.(authority := r.authority[authority[i].key := grant]);
      }
    }
    assert authority[..|authority|] == authority;
  }

  method CheckoutRowOf(fields: seq<Field>) returns (r: Row)
    ensures r == CheckoutRow(fields)
  {
    r := MergeComponentBag(NEW_ROW, Find(fields, "components"));
    ghost var merged := r;
    for i := 0 to |TOP_LEVEL|
      invariant r == TopLevel(merged, fields, TOP_LEVEL[..i])
    {
      assert TOP_LEVEL[..i + 1][..i] == TOP_LEVEL[..i];
      var v := Find(fields, TOP_LEVEL[i]);
      if v.Some? {
        r := r.(components := r.components[TOP_LEVEL[i] := v.value]);
      }
    }
    assert TOP_LEVEL[..|TOP_LEVEL|] == TOP_LEVEL;
    var authority := AsObject(Find(fields, "authority"));
    if authority.Some? {
      r := MergeAuthorityMap(r, authority.value);
    }
    r := RefreshMetadata(r);
  }

  // ---------------------------------------------------------------- the cache

  class ClientCache {
    var entities: map<string, Row>
    var rejections: seq<Rejection>
    var criticalDepth: nat
    var connectionPhase: Phase

    ghost function View(): State
      reads this
    {
      State(entities, rejections, criticalDepth, connectionPhase)
    }

    constructor ()
      ensures View() == INIT
    {
      entities, rejections, criticalDepth, connectionPhase := map[], [], 0, Disconnected;
    }

    method SetComponentOf(entity: string, component: string, value: Value) returns (event: CacheEvent)
      modifies this`entities
      ensures View() == Set(old(View()), entity, component, value) && event == ComponentUpdated(entity, component)
    {
      var row := if entity in entities then entities[entity] else NEW_ROW;
      row := row.(components := row.components[component := value]);
      row := RefreshMetadata(row);
      entities := entities[entity := row];
      event := ComponentUpdated(entity, component);
    }

    method ApplyAddEntity(entity: string, components: Option<Value>) returns (event: CacheEvent)
      modifies this`entities
      ensures View() == PutRow(old(View()), entity, Refresh(MergeBag(OrNew(RowOf(old(View()), entity)), components)))
      ensures event == EntityAdded(entity)
    {
      hide Refresh, MergeBag;
      var row := if entity in entities then entities[entity] else NEW_ROW;
      row := MergeComponentBag(row, components);
      row := RefreshMetadata(row);
      entities := entities[entity := row];
      event := EntityAdded(entity);
    }

    method ApplyRemoveComponent(entity: string, component: string) returns (event: CacheEvent)
      modifies this`entities
      ensures View() ==
        if entity in old(entities) then PutRow(old(View()), entity, WithoutComponent(old(entities)[entity], component))
        else old(View())
      ensures event == ComponentUpdated(entity, component)
    {
      if entity in entities {
        var row := entities[entity];
        row := row.(components := row.components - {component}, authority := row.authority - {component});
        row := RefreshMetadata(row);
        entities := entities[entity := row];
      }
      event := ComponentUpdated(entity, component);
    }

    method ApplyBatchUpdate(component: string, updates: seq<BatchEntry>) returns (last: CacheEvent)
      modifies this`entities
      ensures View() == SetAll(old(View()), component, updates)
      ensures last == if updates == [] then Ignored else ComponentUpdated(updates[|updates| - 1].entity, component)
    {
      hide Set;
      last := Ignored;
      for i := 0 to |updates|
        invariant View() == SetAll(old(View()), component, updates[..i])
        invariant last == if i == 0 then Ignored else ComponentUpdated(updates[i - 1].entity, component)
      {
        assert updates[..i + 1][..i] == updates[..i];
        last := SetComponentOf(updates[i].entity, component, updates[i].value);
      }
      assert updates[..|updates|] == updates;
    }

    method ApplyAuthorityChange(entity: string, component: string, grant: Authority) returns (event: CacheEvent)
      modifies this`entities
      ensures View() == PutRow(old(View()), entity, Granted(RowOf(old(View()), entity), component, grant))
      ensures event == AuthorityChanged(entity, component)
    {
      var row := if entity in entities then entities[entity] else NEW_ROW;
      entities := entities[entity := row.(authority := row.authority[component := grant])];
      event := AuthorityChanged(entity, component);
    }

    method ApplyCriticalSection(phase: string) returns (event: CacheEvent)
      modifies this`criticalDepth
      ensures criticalDepth == Deepen(old(criticalDepth), phase) && event == DepthChanged(criticalDepth)
    {
      hide Ends, Begins;
      if Ends(phase) {
        if criticalDepth > 0 {
          criticalDepth := criticalDepth - 1;
        }
      } else if Begins(phase) {
        criticalDepth := criticalDepth + 1;
      }
      event := DepthChanged(criticalDepth);
    }

    method ApplyMeshGhost(entity: string, fields: seq<Field>) returns (event: CacheEvent)
      modifies this`entities
      ensures View() == PutRow(old(View()), entity, Mirror(RowOf(old(View()), entity), fields))
      ensures event == EntityAdded(entity)
    {
      hide MergeBag, Find;
      var row := if entity in entities then entities[entity] else NEW_ROW;
      row := MergeComponentBag(row, Find(fields, "components"));
      var pos, vel := Find(fields, "pos"), Find(fields, "vel");
      if pos.Some? {
        row := row.(components := row.components["pos" := pos.value]);
      }
      if vel.Some? {
        row := row.(components := row.components["vel" := vel.value]);
      }
      var owner := FieldStr(fields, "owner_region");
      row := row.(ghostly := true, ownerRegion := owner);
      if owner.Some? {
        row := row.(components := row.components["owner_region" := Str(owner.value)]);
      }
      row := row.(components := row.components["ghost" := Bool(true)]);
      entities := entities[entity := row];
      event := EntityAdded(entity);
    }

    method RemoveRow(entity: string) returns (event: CacheEvent)
      modifies this`entities
      ensures View() == DropRow(old(View()), entity) && event == EntityRemoved(entity)
    {
      entities := entities - {entity};
      event := EntityRemoved(entity);
    }

    method ApplyFields(name: string, fields: seq<Field>) returns (event: CacheEvent)
      modifies this`entities
      ensures (View(), event) == ApplyBag(old(View()), name, fields)
    {
      hide Set, PutRow, DropRow, Mirror, Find;
      var entity := FieldStr(fields, "entity");
      if entity.None? {
        return Ignored;
      }
      if name == "ComponentUpdate" {
        var component := ComponentField(fields);
        if component.None? {
          return Ignored;
        }
        event := SetComponentOf(entity.value, component.value, UnwrapOr(Find(fields, "value"), Null));
      } else if name == "MeshGhost" {
        event := ApplyMeshGhost(entity.value, fields);
      } else if name == "MeshGhostRemove" {
        event := RemoveRow(entity.value);
      } else {
        event := Ignored;
      }
    }

    method ApplyUpdateRejected(rejection: Rejection) returns (event: CacheEvent)
      modifies this`rejections
      ensures View() == old(View()).(rejections := old(rejections) + [rejection]) && event == Refused(rejection)
    {
      rejections := rejections + [rejection];
      event := Refused(rejection);
    }

    method ApplyRowOp(op: Op) returns (event: CacheEvent)
      requires op.AddEntity? || op.RemoveEntity? || op.AddComponent? || op.RemoveComponent? || op.BatchUpdate?
      modifies this`entities
      ensures (View(), event) == ApplyOp(old(View()), op)
    {
      hide Set, SetAll, PutRow, DropRow, Mirror, Find, Refresh, MergeBag, Granted, WithoutComponent, Deepen, ApplyBag;
      match op
      case AddEntity(e, shown) => event := ApplyAddEntity(e, shown);
      case RemoveEntity(e) => event := RemoveRow(e);
      case AddComponent(e, component, value, _) => event := SetComponentOf(e, component, value);
      case RemoveComponent(e, component, _) => event := ApplyRemoveComponent(e, component);
      case BatchUpdate(component, updates) => event := ApplyBatchUpdate(component, updates);
    }

    method Apply(op: Op) returns (event: CacheEvent)
      modifies this
      ensures (View(), event) == ApplyOp(old(View()), op)
    {
      hide Set, SetAll, PutRow, DropRow, Mirror, Find, Refresh, MergeBag, Granted, WithoutComponent, Deepen, ApplyBag;
      match op
      case AuthorityChange(e, component, authoritative, at, mode, _) =>
        event := ApplyAuthorityChange(e, component, Authority(authoritative, at, mode));
      case UpdateRejected(about, which, reason, _) =>
        event := ApplyUpdateRejected(Rejection(about, which, reason));
      case CriticalSection(phase, _) => event := ApplyCriticalSection(phase);
      case Bag(name, fields) => event := ApplyFields(name, fields);
      case _ =>
        if op.AddEntity? || op.RemoveEntity? || op.AddComponent? || op.RemoveComponent? || op.BatchUpdate? {
          event := ApplyRowOp(op);
        } else {
          event := Ignored;
        }
    }

    // ---------------------------------------------------------------- reconnects and resyncs

    method ClearStreamState()
      modifies this`entities, this`rejections, this`criticalDepth
      ensures View() == Cleared(old(View()))
    {
      entities, rejections, criticalDepth := map[], [], 0;
    }

    method ResetForReconnect()
      modifies this
      ensures View() == Step(old(View()), TransportClosed)
    {
      ClearStreamState();
      connectionPhase := Disconnected;
    }

    method MarkConnecting()
      modifies this
      ensures View() == Step(old(View()), TransportConnecting)
    {
      connectionPhase := Connecting;
    }

    method BeginResync()
      modifies this
      ensures View() == Step(old(View()), ResyncBegun)
    {
      ClearStreamState();
      connectionPhase := Resyncing;
    }

    method MarkLive()
      modifies this
      ensures View() == Step(old(View()), WentLive)
    {
      connectionPhase := Live;
    }

    method IngestQueryResponseRow(v: Value)
      modifies this`entities
      ensures View() == Ingest(old(View()), v)
    {
      hide CheckoutRow, Find;
      if v.Obj? {
        var entity := FieldStr(v.fields, "entity");
        if entity.Some? {
          var row := CheckoutRowOf(v.fields);
          entities := entities[entity.value := row];
        }
      }
    }

    method FinishResyncFromQueryResponse(response: seq<Field>) returns (count: nat)
      modifies this
      ensures View() == Step(old(View()), ResyncFinished(response)) && count == |entities|
    {
      hide Ingest, Find;
      ClearStreamState();
      connectionPhase := Live;
      var rows := UnwrapOr(AsArray(Find(response, "entities")), []);
      ghost var empty := View();
      for i := 0 to |rows|
        invariant View() == IngestAll(empty, rows[..i])
      {
        assert rows[..i + 1][..i] == rows[..i];
        IngestQueryResponseRow(rows[i]);
      }
      assert rows[..|rows|] == rows;
      count := |entities|;
    }
  }
}
