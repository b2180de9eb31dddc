/** What a client's rows contain: every component and every grant is the one written last. */
module ClientContent {
  import opened Wrappers
  import opened Json
  import opened Protocol
  import opened ClientState
  import opened ClientTheorems
  import Text

  /** What one operation does to one entry of a row. */
  datatype Effect<T> = Keeps | Writes(value: T) | Erases

  function After<T>(before: Option<T>, effect: Effect<T>): Option<T> {
    match effect
    case Keeps => before
    case Writes(value) => Some(value)
    case Erases => None
  }

  function Given(v: Option<Value>): Effect<Value> { if v.Some? then Writes(v.value) else Keeps }

  // ---------------------------------------------------------------- components

  /** The last value a bag of components gives a name. */
  function InBag(bag: Option<Value>, name: string): Option<Value> {
    if AsObject(bag).Some? then FindLast(AsObject(bag).value, name) else None
  }

  /** A ghost frame sets the ghost mark, the owner if it names one, the motion it carries, and its bag. */
  function GhostEffect(fields: seq<Field>, name: string): Effect<Value> {
    if name == "ghost" then Writes(Bool(true))
    else if name == "owner_region" && FieldStr(fields, "owner_region").Some? then
      Writes(Str(FieldStr(fields, "owner_region").value))
    else if name == "vel" && Find(fields, "vel").Some? then Writes(Find(fields, "vel").value)
    else if name == "pos" && Find(fields, "pos").Some? then Writes(Find(fields, "pos").value)
    else Given(InBag(Find(fields, "components"), name))
  }

  /** What a single operation does to a component of an entity. */
  function ComponentEffect(op: Op, e: string, name: string): Effect<Value> {
    match op
    case AddEntity(x, shown) => if x == e then Given(InBag(shown, name)) else Keeps
    case RemoveEntity(x) => if x == e then Erases else Keeps
    case AddComponent(x, component, v, _) => if x == e && component == name then Writes(v) else Keeps
    case RemoveComponent(x, component, _) => if x == e && component == name then Erases else Keeps
    case Bag(kind, fields) =>
      if FieldStr(fields, "entity") != Some(e) then Keeps
      else if kind == "ComponentUpdate" then
        (if ComponentField(fields) == Some(name) then Writes(UnwrapOr(Find(fields, "value"), Null)) else Keeps)
      else if kind == "MeshGhost" then GhostEffect(fields, name)
      else if kind == "MeshGhostRemove" then Erases
      else Keeps
    case _ => Keeps
  }

  function ComponentOf(s: State, e: string, name: string): Option<Value> {
    if e in s.entities then Component(s.entities[e], name) else None
  }

  /** The component after a stream of single operations: the last one to write or erase it decides. */
  function LastWritten(before: Option<Value>, ops: seq<Op>, e: string, name: string): Option<Value> {
    if ops == [] then before
    else After(LastWritten(before, ops[..|ops| - 1], e, name), ComponentEffect(ops[|ops| - 1], e, name))
  }

  lemma {:induction false} RefreshKeeps(row: Row, name: string)
    ensures Component(Refresh(row), name) == Component(row, name)
  {}

  lemma {:induction false} MergedComponent(row: Row, bag: Option<Value>, name: string)
    ensures Component(MergeBag(row, bag), name) == After(Component(row, name), Given(InBag(bag, name)))
  {
    if bag.Some? && bag.value.Obj? {
      InsertAllComponent(row, bag.value.fields, name);
      RefreshKeeps(InsertAll(row, bag.value.fields), name);
    }
    hide InsertAll, FindLast, Refresh;
  }

  lemma {:induction false} MirrorComponent(row: Option<Row>, fields: seq<Field>, name: string)
    ensures Component(Mirror(row, fields), name) == After(Component(OrNew(row), name), GhostEffect(fields, name))
  {
    MergedComponent(OrNew(row), Find(fields, "components"), name);
    hide MergeBag, Find, InBag;
  }

  lemma {:induction false} SingleComponent(s: State, op: Op, e: string, name: string)
    requires !op.BatchUpdate?
    ensures ComponentOf(ApplyOp(s, op).0, e, name) == After(ComponentOf(s, e, name), ComponentEffect(op, e, name))
  {
    if Touches(op) != Some(e) {
      OthersUntouched(s, op, e);
      hide ApplyOp, GhostEffect, Find, InBag;
    } else {
      TouchedComponent(s, op, e, name);
    }
  }

  lemma {:induction false} TouchedComponent(s: State, op: Op, e: string, name: string)
    requires !op.BatchUpdate? && Touches(op) == Some(e)
    ensures ComponentOf(ApplyOp(s, op).0, e, name) == After(ComponentOf(s, e, name), ComponentEffect(op, e, name))
  {
    hide Mirror, MergeBag, Find, GhostEffect, InBag, Refresh;
    match op {
      case AddEntity(_, shown) =>
        MergedComponent(OrNew(RowOf(s, e)), shown, name);
        RefreshKeeps(MergeBag(OrNew(RowOf(s, e)), shown), name);
      case AddComponent(_, component, v, _) =>
        RefreshKeeps(WithComponent(OrNew(RowOf(s, e)), component, v), name);
      case RemoveComponent(_, component, _) =>
        if e in s.entities {
          var row := s.entities[e];
          RefreshKeeps(row.(components := row.components - {component}, authority := row.authority - {component}),
                       name);
        }
      case Bag(kind, fields) =>
        MirrorComponent(RowOf(s, e), fields, name);
        if ComponentField(fields).Some? {
          RefreshKeeps(WithComponent(OrNew(RowOf(s, e)), ComponentField(fields).value,
                                     UnwrapOr(Find(fields, "value"), Null)), name);
        }
      case _ =>
    }
  }

  lemma {:induction false} StreamComponent(s: State, ops: seq<Op>, e: string, name: string)
    requires forall op :: op in ops ==> !op.BatchUpdate?
    ensures ComponentOf(ApplyAll(s, ops), e, name) == LastWritten(ComponentOf(s, e, name), ops, e, name)
  {
    if ops != [] {
      var init, last := ops[..|ops| - 1], ops[|ops| - 1];
      StreamComponent(s, init, e, name);
      SingleComponent(ApplyAll(s, init), last, e, name);
      hide ApplyOp, ComponentEffect, ComponentOf, After;
    }
  }

  /** After any stream a component of an entity has the value of the last operation that wrote it, or none
      if an erasure came after; batches count as their single updates. */
  lemma {:induction false} ComponentIsLastWritten(s: State, ops: seq<Op>, e: string, name: string)
    ensures ComponentOf(ApplyAll(s, ops), e, name) == LastWritten(ComponentOf(s, e, name), Expand(ops), e, name)
  {
    ExpandRuns(s, ops);
    StreamComponent(s, Expand(ops), e, name);
    hide ApplyAll, Expand, LastWritten, ComponentOf;
  }

  // ---------------------------------------------------------------- grants

  function GrantEffect(op: Op, e: string, name: string): Effect<Authority> {
    match op
    case AuthorityChange(x, component, authoritative, at, mode, _) =>
      if x == e && component == name then Writes(Authority(authoritative, at, mode)) else Keeps
    case RemoveComponent(x, component, _) => if x == e && component == name then Erases else Keeps
    case RemoveEntity(x) => if x == e then Erases else Keeps
    case Bag(kind, fields) =>
      if FieldStr(fields, "entity") == Some(e) && kind == "MeshGhostRemove" then Erases else Keeps
    case _ => Keeps
  }

  function GrantIn(row: Row, name: string): Option<Authority> {
    if name in row.authority then Some(row.authority[name]) else None
  }

  function GrantOf(s: State, e: string, name: string): Option<Authority> {
    if e in s.entities then GrantIn(s.entities[e], name) else None
  }

  function LastGranted(before: Option<Authority>, ops: seq<Op>, e: string, name: string): Option<Authority> {
    if ops == [] then before
    else After(LastGranted(before, ops[..|ops| - 1], e, name), GrantEffect(ops[|ops| - 1], e, name))
  }

  lemma {:induction false} RefreshKeepsGrants(row: Row)
    ensures Refresh(row).authority == row.authority
  {}

  lemma {:induction false} InsertAllGrants(row: Row, fields: seq<Field>)
    ensures InsertAll(row, fields).authority == row.authority
  {
    if fields != [] {
      InsertAllGrants(row, fields[..|fields| - 1]);
    }
  }

  lemma {:induction false} MergedGrants(row: Row, bag: Option<Value>)
    ensures MergeBag(row, bag).authority == row.authority
  {
    if bag.Some? && bag.value.Obj? {
      InsertAllGrants(row, bag.value.fields);
    }
    hide InsertAll;
  }

  lemma {:induction false} MirrorGrants(row: Option<Row>, fields: seq<Field>)
    ensures Mirror(row, fields).authority == OrNew(row).authority
  {
    MergedGrants(OrNew(row), Find(fields, "components"));
    hide MergeBag, Find;
  }

  lemma {:induction false} SingleGrant(s: State, op: Op, e: string, name: string)
    requires !op.BatchUpdate?
    ensures GrantOf(ApplyOp(s, op).0, e, name) == After(GrantOf(s, e, name), GrantEffect(op, e, name))
  {
    if Touches(op) != Some(e) {
      OthersUntouched(s, op, e);
      hide ApplyOp, Find;
    } else {
      TouchedGrant(s, op, e, name);
    }
  }

  lemma {:induction false} TouchedGrant(s: State, op: Op, e: string, name: string)
    requires !op.BatchUpdate? && Touches(op) == Some(e)
    ensures GrantOf(ApplyOp(s, op).0, e, name) == After(GrantOf(s, e, name), GrantEffect(op, e, name))
  {
    hide Mirror, MergeBag, Find, Refresh;
    match op {
      case AddEntity(_, shown) =>
        MergedGrants(OrNew(RowOf(s, e)), shown);
        RefreshKeepsGrants(MergeBag(OrNew(RowOf(s, e)), shown));
      case AddComponent(_, component, v, _) =>
        RefreshKeepsGrants(WithComponent(OrNew(RowOf(s, e)), component, v));
      case RemoveComponent(_, component, _) =>
        if e in s.entities {
          var row := s.entities[e];
          RefreshKeepsGrants(row.(components := row.components - {component},
                                  authority := row.authority - {component}));
        }
      case Bag(kind, fields) =>
        MirrorGrants(RowOf(s, e), fields);
        if ComponentField(fields).Some? {
          RefreshKeepsGrants(WithComponent(OrNew(RowOf(s, e)), ComponentField(fields).value,
                                           UnwrapOr(Find(fields, "value"), Null)));
        }
      case _ =>
    }
  }

  lemma {:induction false} StreamGrant(s: State, ops: seq<Op>, e: string, name: string)
    requires forall op :: op in ops ==> !op.BatchUpdate?
    ensures GrantOf(ApplyAll(s, ops), e, name) == LastGranted(GrantOf(s, e, name), ops, e, name)
  {
    if ops != [] {
      var init, last := ops[..|ops| - 1], ops[|ops| - 1];
      StreamGrant(s, init, e, name);
      SingleGrant(ApplyAll(s, init), last, e, name);
      hide ApplyOp, GrantEffect, GrantOf, After;
    }
  }

  /** After any stream the grant of a component is the one of the last authority change for it, or none if
      the component or the entity was removed after. */
  lemma {:induction false} GrantIsLast(s: State, ops: seq<Op>, e: string, name: string)
    ensures GrantOf(ApplyAll(s, ops), e, name) == LastGranted(GrantOf(s, e, name), Expand(ops), e, name)
  {
    ExpandRuns(s, ops);
    StreamGrant(s, Expand(ops), e, name);
    hide ApplyAll, Expand, LastGranted, GrantOf;
  }

  // ---------------------------------------------------------------- checkouts

  lemma {:induction false} TopLevelComponent(row: Row, fields: seq<Field>, names: seq<string>, name: string)
    ensures Component(TopLevel(row, fields, names), name) ==
      if name in names && Find(fields, name).Some? then Find(fields, name) else Component(row, name)
  {
    if names != [] {
      var init, last := names[..|names| - 1], names[|names| - 1];
      assert names == init + [last];
      TopLevelComponent(row, fields, init, name);
      hide Find;
    }
  }

  lemma {:induction false} GrantAllComponents(row: Row, fields: seq<Field>)
    ensures GrantAll(row, fields).components == row.components
  {
    if fields != [] {
      GrantAllComponents(row, fields[..|fields| - 1]);
      hide Find;
    }
  }

  /** A checked-out row holds the components of its bag, and over them the five that stand beside it. */
  lemma {:induction false} CheckoutComponent(fields: seq<Field>, name: string)
    ensures Component(CheckoutRow(fields), name) ==
      if (name == "pos" || name == "vel" || name == "region" || name == "ghost" || name == "owner_region")
        && Find(fields, name).Some?
      then Find(fields, name)
      else InBag(Find(fields, "components"), name)
  {
    var merged := MergeBag(NEW_ROW, Find(fields, "components"));
    MergedComponent(NEW_ROW, Find(fields, "components"), name);
    TopLevelComponent(merged, fields, TOP_LEVEL, name);
    var placed := TopLevel(merged, fields, TOP_LEVEL);
    var authority := AsObject(Find(fields, "authority"));
    if authority.Some? {
      GrantAllComponents(placed, authority.value);
    }
    RefreshKeeps(if authority.Some? then GrantAll(placed, authority.value) else placed, name);
    hide MergeBag, TopLevel, GrantAll, Find, InBag, Refresh;
  }

  /** The last entry under a name that is an object. */
  function LastObject(fields: seq<Field>, name: string): Option<seq<Field>> {
    if fields == [] then None
    else
      var last := fields[|fields| - 1];
      if last.key == name && last.value.Obj? then Some(last.value.fields)
      else LastObject(fields[..|fields| - 1], name)
  }

  /** The epoch of a grant is under `authority_epoch`, or under `epoch` if there is no such entry; what is
      not a count is zero. */
  function GrantEpoch(spec: seq<Field>): u64 {
    match Find(spec, "authority_epoch")
    case Some(Num(Unsigned(n))) => n
    case Some(_) => 0
    case None =>
      match Find(spec, "epoch")
      case Some(Num(Unsigned(n))) => n
      case _ => 0
  }

  function GrantMode(spec: seq<Field>): string {
    match Find(spec, "mode")
    case Some(Str(mode)) => mode
    case _ => ""
  }

  lemma {:induction false} GrantAllLast(row: Row, fields: seq<Field>, name: string)
    ensures GrantIn(GrantAll(row, fields), name) ==
      match LastObject(fields, name)
      case Some(spec) => Some(Authority(true, GrantEpoch(spec), GrantMode(spec)))
      case None => GrantIn(row, name)
  {
    if fields != [] {
      GrantAllLast(row, fields[..|fields| - 1], name);
      hide Find;
    }
  }

  lemma {:induction false} TopLevelGrants(row: Row, fields: seq<Field>, names: seq<string>)
    ensures TopLevel(row, fields, names).authority == row.authority
  {
    if names != [] {
      TopLevelGrants(row, fields, names[..|names| - 1]);
      hide Find;
    }
  }

  /** A checked-out row holds a grant for every component whose last object among the grants names it, and
      no other grant. */
  lemma {:induction false} CheckoutGrants(fields: seq<Field>, name: string)
    ensures GrantIn(CheckoutRow(fields), name) ==
      if AsObject(Find(fields, "authority")).None? then None
      else
        match LastObject(AsObject(Find(fields, "authority")).value, name)
        case Some(spec) => Some(Authority(true, GrantEpoch(spec), GrantMode(spec)))
        case None => None
  {
    var merged := MergeBag(NEW_ROW, Find(fields, "components"));
    MergedGrants(NEW_ROW, Find(fields, "components"));
    TopLevelGrants(merged, fields, TOP_LEVEL);
    var placed := TopLevel(merged, fields, TOP_LEVEL);
    var authority := AsObject(Find(fields, "authority"));
    if authority.Some? {
      GrantAllLast(placed, authority.value, name);
    }
    RefreshKeepsGrants(if authority.Some? then GrantAll(placed, authority.value) else placed);
    hide MergeBag, TopLevel, GrantAll, Find, Refresh, LastObject, GrantEpoch, GrantMode;
  }

  // ---------------------------------------------------------------- events, phases and critical sections

  /** What the event of an operation promises of the state after it. */
  lemma {:induction false} EventTells(s: State, op: Op)
    ensures var t, ev := ApplyOp(s, op).0, ApplyOp(s, op).1;
      match ev
      case Ignored => t == s
      case EntityAdded(e) => e in t.entities && Touches(op) == Some(e)
      case EntityRemoved(e) => e !in t.entities && Touches(op) == Some(e)
      case ComponentUpdated(e, name) =>
        if op.Bag? then Touches(op) == Some(e) && ComponentField(op.fields) == Some(name)
        else
          && (op.AddComponent? || op.RemoveComponent? || op.BatchUpdate?) && name == op.component
          && e == if op.BatchUpdate? && op.updates != [] then op.updates[|op.updates| - 1].entity
                  else if op.BatchUpdate? then "" else op.entity
      case AuthorityChanged(e, name) => GrantOf(t, e, name).Some? && op.AuthorityChange?
      case Refused(r) => t == s.(rejections := s.rejections + [r])
      case DepthChanged(d) => t == s.(depth := d)
  {
    hide Find, Refresh, MergeBag, Mirror, Set, Deepen, SetAll;
    if op.BatchUpdate? && op.updates == [] {
      EmptyBatch(s, op.component);
    }
  }

  lemma {:induction false} EmptyBatch(s: State, name: string)
    ensures SetAll(s, name, []) == s
  {}

  /** A phase ends a critical section if it is one of four words, and begins one if it is one of four
      others, each in any mixture of small and capital letters. */
  lemma {:induction false} PhaseWords(phase: string)
    ensures Ends(phase) <==> Text.Spells(phase, "end") || Text.Spells(phase, "finish")
                             || Text.Spells(phase, "close") || Text.Spells(phase, "commit")
    ensures Begins(phase) <==> Text.Spells(phase, "begin") || Text.Spells(phase, "start")
                               || Text.Spells(phase, "open") || Text.Spells(phase, "prepare")
  {
    hide Text.Lower, Text.Spells;
    Text.LowerIff(phase, "end");
    Text.LowerIff(phase, "finish");
    Text.LowerIff(phase, "close");
    Text.LowerIff(phase, "commit");
    Text.LowerIff(phase, "begin");
    Text.LowerIff(phase, "start");
    Text.LowerIff(phase, "open");
    Text.LowerIff(phase, "prepare");
  }

  /** The phase an event leads to; operations of the stream lead to none. */
  function Entered(e: Event): Option<Phase> {
    match e
    case Stream(_) => None
    case TransportClosed => Some(Disconnected)
    case TransportConnecting => Some(Connecting)
    case ResyncBegun => Some(Resyncing)
    case ResyncFinished(_) => Some(Live)
    case WentLive => Some(Live)
  }

  function LastEntered(before: Phase, events: seq<Event>): Phase {
    if events == [] then before
    else if Entered(events[|events| - 1]).Some? then Entered(events[|events| - 1]).value
    else LastEntered(before, events[..|events| - 1])
  }

  lemma {:induction false} SetKeepsPhase(s: State, name: string, updates: seq<BatchEntry>)
    ensures SetAll(s, name, updates).phase == s.phase
  {
    if updates != [] {
      SetKeepsPhase(s, name, updates[..|updates| - 1]);
      hide SetComponent;
    }
  }

  lemma {:induction false} OpKeepsPhase(s: State, op: Op)
    ensures ApplyOp(s, op).0.phase == s.phase
  {
    hide Find, Refresh, MergeBag, Mirror, SetComponent, Deepen, SetAll;
    if op.BatchUpdate? {
      SetKeepsPhase(s, op.component, op.updates);
    }
  }

  lemma {:induction false} CheckoutIsLive(s: State, rows: seq<Value>)
    ensures IngestAll(s, rows).phase == s.phase
  {
    if rows != [] {
      CheckoutIsLive(s, rows[..|rows| - 1]);
      hide CheckoutRow, Find;
    }
  }

  /** After any history the client is in the phase last entered. */
  lemma {:induction false} PhaseIsLastEntered(s: State, events: seq<Event>)
    ensures Run(s, events).phase == LastEntered(s.phase, events)
  {
    if events != [] {
      var init, last := events[..|events| - 1], events[|events| - 1];
      PhaseIsLastEntered(s, init);
      match last {
        case Stream(op) => OpKeepsPhase(Run(s, init), op);
        case ResyncFinished(response) => CheckoutIsLive(State(map[], [], 0, Live), RowsOf(response));
        case _ =>
      }
      hide ApplyOp, IngestAll, RowsOf;
    }
  }
}
