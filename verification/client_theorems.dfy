/** What holds of a client cache after any history. */
module ClientTheorems {
  import opened Wrappers
  import opened Json
  import opened Protocol
  import opened ClientState

  // ---------------------------------------------------------------- one entity at a time

  /** The entity whose row an operation can change, for everything but a batch. */
  function Touches(op: Op): Option<string> {
    match op
    case AddEntity(e, _) => Some(e)
    case RemoveEntity(e) => Some(e)
    case AddComponent(e, _, _, _) => Some(e)
    case RemoveComponent(e, _, _) => Some(e)
    case AuthorityChange(e, _, _, _, _, _) => Some(e)
    case Bag(_, fields) => FieldStr(fields, "entity")
    case _ => None
  }

  /** A batch as its single updates; any other operation as itself. */
  function Singles(op: Op): seq<Op> {
    match op
    case BatchUpdate(name, updates) =>
      seq(|updates|, i requires 0 <= i < |updates| =>
        AddComponent(updates[i].entity, name, updates[i].value, updates[i].authorityEpoch))
    case _ => [op]
  }

  function Expand(ops: seq<Op>): seq<Op> {
    if ops == [] then [] else Expand(ops[..|ops| - 1]) + Singles(ops[|ops| - 1])
  }

  function Naming(e: string, ops: seq<Op>): seq<Op> {
    if ops == [] then []
    else
      var last := ops[|ops| - 1];
      Naming(e, ops[..|ops| - 1]) + (if Touches(last) == Some(e) then [last] else [])
  }

  function ApplyAll(s: State, ops: seq<Op>): State {
    if ops == [] then s else ApplyOp(ApplyAll(s, ops[..|ops| - 1]), ops[|ops| - 1]).0
  }

  /** An operation leaves the rows of other entities alone. */
  lemma {:induction false} OthersUntouched(s: State, op: Op, e: string)
    requires !op.BatchUpdate? && Touches(op) != Some(e)
    ensures RowOf(ApplyOp(s, op).0, e) == RowOf(s, e)
  {
    hide Mirror, Refresh, MergeBag, SetComponent, WithoutComponent, Granted, Deepen, Find;
  }

  /** The new row of an entity depends on nothing but its old row. */
  lemma {:induction false} RowAlone(s: State, t: State, op: Op, e: string)
    requires !op.BatchUpdate? && RowOf(s, e) == RowOf(t, e)
    ensures RowOf(ApplyOp(s, op).0, e) == RowOf(ApplyOp(t, op).0, e)
  {
    if Touches(op) == Some(e) {
      hide Mirror, Refresh, MergeBag, SetComponent, WithoutComponent, Granted, Deepen, Find;
    } else {
      OthersUntouched(s, op, e);
      OthersUntouched(t, op, e);
    }
  }

  lemma {:induction false} ApplyAllConcat(s: State, a: seq<Op>, b: seq<Op>)
    ensures ApplyAll(s, a + b) == ApplyAll(ApplyAll(s, a), b)
  {
    hide ApplyOp;
    if b == [] {
      assert a + b == a;
    } else {
      assert (a + b)[..|a + b| - 1] == a + b[..|b| - 1];
      ApplyAllConcat(s, a, b[..|b| - 1]);
    }
  }

  lemma {:induction false} ApplyAllSnoc(s: State, ops: seq<Op>, op: Op)
    ensures ApplyAll(s, ops + [op]) == ApplyOp(ApplyAll(s, ops), op).0
  {
    hide ApplyOp;
    assert (ops + [op])[..|ops|] == ops;
  }

  lemma {:induction false} SinglesSnoc(name: string, updates: seq<BatchEntry>)
    requires updates != []
    ensures var last := updates[|updates| - 1];
      Singles(BatchUpdate(name, updates)) == Singles(BatchUpdate(name, updates[..|updates| - 1]))
        + [AddComponent(last.entity, name, last.value, last.authorityEpoch)]
  {}

  lemma {:induction false} LastSet(s: State, name: string, updates: seq<BatchEntry>)
    requires updates != []
    ensures var last := updates[|updates| - 1];
      SetAll(s, name, updates) == Set(SetAll(s, name, updates[..|updates| - 1]), last.entity, name, last.value)
  {
    hide Set;
  }

  lemma {:induction false} NothingApplied(s: State)
    ensures ApplyAll(s, []) == s
  {}

  lemma {:induction false} AddIsSet(s: State, e: string, name: string, v: Value, epoch: Option<u64>)
    ensures ApplyOp(s, AddComponent(e, name, v, epoch)).0 == Set(s, e, name, v)
  {
    hide Set;
  }

  lemma {:induction false} BatchIsSingles(s: State, name: string, updates: seq<BatchEntry>)
    ensures ApplyAll(s, Singles(BatchUpdate(name, updates))) == SetAll(s, name, updates)
  {
    if updates == [] {
      NoSingles(name);
      NothingApplied(s);
      hide ApplyAll, Singles;
    } else {
      hide *;
      var init, last := updates[..|updates| - 1], updates[|updates| - 1];
      var single := AddComponent(last.entity, name, last.value, last.authorityEpoch);
      BatchIsSingles(s, name, init);
      SinglesSnoc(name, updates);
      ApplyAllSnoc(s, Singles(BatchUpdate(name, init)), single);
      AddIsSet(SetAll(s, name, init), last.entity, name, last.value, last.authorityEpoch);
      LastSet(s, name, updates);
    }
  }

  lemma {:induction false} NoSingles(name: string)
    ensures Singles(BatchUpdate(name, [])) == []
  {}

  lemma {:induction false} ExpandRuns(s: State, ops: seq<Op>)
    ensures ApplyAll(s, Expand(ops)) == ApplyAll(s, ops)
    ensures forall op :: op in Expand(ops) ==> !op.BatchUpdate?
  {
    hide ApplyOp;
    if ops != [] {
      var init, last := ops[..|ops| - 1], ops[|ops| - 1];
      ExpandRuns(s, init);
      ApplyAllConcat(s, Expand(init), Singles(last));
      SinglesRun(ApplyAll(s, init), last);
    }
  }

  lemma {:induction false} SinglesRun(s: State, op: Op)
    ensures ApplyAll(s, Singles(op)) == ApplyOp(s, op).0
    ensures forall x :: x in Singles(op) ==> !x.BatchUpdate?
  {
    if op.BatchUpdate? {
      BatchIsSingles(s, op.component, op.updates);
      hide SetAll;
    } else {
      hide ApplyOp;
      assert Singles(op)[..0] == [];
    }
  }

  lemma {:induction false} NamingRuns(s: State, ops: seq<Op>, e: string)
    requires forall op :: op in ops ==> !op.BatchUpdate?
    ensures RowOf(ApplyAll(s, Naming(e, ops)), e) == RowOf(ApplyAll(s, ops), e)
  {
    hide ApplyOp, Touches;
    if ops != [] {
      var init, last := ops[..|ops| - 1], ops[|ops| - 1];
      NamingRuns(s, init, e);
      if Touches(last) == Some(e) {
        RowAlone(ApplyAll(s, Naming(e, init)), ApplyAll(s, init), last, e);
        assert Naming(e, ops)[..|Naming(e, ops)| - 1] == Naming(e, init);
      } else {
        OthersUntouched(ApplyAll(s, init), last, e);
        assert Naming(e, init) + [] == Naming(e, init);
      }
    }
  }

  /** The row of an entity after any stream is the row built from the operations that name it, each
      batch replaced by its single updates. */
  lemma {:induction false} EntityIsLocal(s: State, ops: seq<Op>, e: string)
    ensures RowOf(ApplyAll(s, ops), e) == RowOf(ApplyAll(s, Naming(e, Expand(ops))), e)
  {
    ExpandRuns(s, ops);
    NamingRuns(s, Expand(ops), e);
  }

  // ---------------------------------------------------------------- since the last reset

  predicate Resets(e: Event) { e.TransportClosed? || e.ResyncBegun? || e.ResyncFinished? }

  /** The stream operations since the last reset. */
  function Since(events: seq<Event>): seq<Op> {
    if events == [] then []
    else
      var init, last := events[..|events| - 1], events[|events| - 1];
      if Resets(last) then [] else if last.Stream? then Since(init) + [last.op] else Since(init)
  }

  /** What the last reset left: a checkout, or nothing. */
  function Base(events: seq<Event>): State {
    if events == [] then INIT
    else
      var init, last := events[..|events| - 1], events[|events| - 1];
      match last
      case ResyncFinished(response) => Checkout(response)
      case TransportClosed => INIT
      case ResyncBegun => INIT.(phase := Resyncing)
      case _ => Base(init)
  }

  /** The phase set aside, a cache is its last reset followed by the stream since. */
  lemma {:induction false} HistoryIsBaseAndStream(events: seq<Event>)
    ensures
      var s, t := Run(INIT, events), ApplyAll(Base(events), Since(events));
      s.entities == t.entities && s.rejections == t.rejections && s.depth == t.depth
  {
    if events != [] {
      var init, last := events[..|events| - 1], events[|events| - 1];
      HistoryIsBaseAndStream(init);
      match last {
        case Stream(op) =>
          PhaseIrrelevant(Run(INIT, init), ApplyAll(Base(init), Since(init)), op);
          hide ApplyOp;
          assert Since(events)[..|Since(events)| - 1] == Since(init);
        case _ =>
          hide ApplyOp, Checkout;
      }
    }
  }

  lemma {:induction false} PhaseIrrelevant(s: State, t: State, op: Op)
    requires s.entities == t.entities && s.rejections == t.rejections && s.depth == t.depth
    ensures var a, b := ApplyOp(s, op), ApplyOp(t, op);
      && a.0.entities == b.0.entities && a.0.rejections == b.0.rejections && a.0.depth == b.0.depth
      && a.1 == b.1
  {
    assert t == s.(phase := t.phase);
    PhaseCarried(s, op, t.phase);
  }

  lemma {:induction false} PhaseCarried(s: State, op: Op, phase: Phase)
    ensures ApplyOp(s.(phase := phase), op) == (ApplyOp(s, op).0.(phase := phase), ApplyOp(s, op).1)
  {
    hide Mirror, Refresh, MergeBag, SetComponent, WithoutComponent, Granted, Deepen, Find;
    if op.BatchUpdate? {
      BatchPhase(s, op.component, op.updates, phase);
    }
  }

  lemma {:induction false} BatchPhase(s: State, name: string, updates: seq<BatchEntry>, phase: Phase)
    ensures SetAll(s.(phase := phase), name, updates) == SetAll(s, name, updates).(phase := phase)
  {
    hide SetComponent;
    if updates != [] {
      BatchPhase(s, name, updates[..|updates| - 1], phase);
    }
  }

  lemma {:induction false} RunConcat(s: State, a: seq<Event>, b: seq<Event>)
    ensures Run(s, a + b) == Run(Run(s, a), b)
  {
    hide Step;
    if b == [] {
      assert a + b == a;
    } else {
      assert (a + b)[..|a + b| - 1] == a + b[..|b| - 1];
      RunConcat(s, a, b[..|b| - 1]);
    }
  }

  /** Two caches with any histories, given the same checkout and the same later events, are equal. */
  lemma {:induction false} ResyncForgets(s: State, t: State, a: seq<Event>, b: seq<Event>,
                                         response: seq<Field>, later: seq<Event>)
    ensures Run(s, a + [ResyncFinished(response)] + later) == Run(t, b + [ResyncFinished(response)] + later)
  {
    hide Run, Checkout;
    RunConcat(s, a + [ResyncFinished(response)], later);
    RunConcat(t, b + [ResyncFinished(response)], later);
    EndsInCheckout(s, a, response);
    EndsInCheckout(t, b, response);
  }

  lemma {:induction false} EndsInCheckout(s: State, a: seq<Event>, response: seq<Field>)
    ensures Run(s, a + [ResyncFinished(response)]) == Checkout(response)
  {
    var all := a + [ResyncFinished(response)];
    assert all[|all| - 1] == ResyncFinished(response);
    hide Checkout;
  }

  // ---------------------------------------------------------------- critical sections

  /** Begins minus ends. */
  function Net(ops: seq<Op>): int {
    if ops == [] then 0
    else
      var last := ops[|ops| - 1];
      Net(ops[..|ops| - 1]) +
      (if !last.CriticalSection? then 0 else if Ends(last.phase) then -1 else if Begins(last.phase) then 1 else 0)
  }

  /** The lowest value of the running sum, the start included. */
  function Lowest(ops: seq<Op>): int {
    if ops == [] then 0
    else
      var before, now := Lowest(ops[..|ops| - 1]), Net(ops);
      if now < before then now else before
  }

  lemma {:induction false} DepthOfStream(s: State, ops: seq<Op>)
    requires s.depth == 0
    ensures ApplyAll(s, ops).depth == Net(ops) - Lowest(ops)
  {
    if ops != [] {
      var init, last := ops[..|ops| - 1], ops[|ops| - 1];
      DepthOfStream(s, init);
      DepthOnly(ApplyAll(s, init), last);
      hide ApplyOp, Ends, Begins;
    }
  }

  lemma {:induction false} DepthOnly(s: State, op: Op)
    ensures ApplyOp(s, op).0.depth == if op.CriticalSection? then Deepen(s.depth, op.phase) else s.depth
  {
    hide Mirror, Refresh, MergeBag, SetComponent, WithoutComponent, Granted, Deepen, Find;
    if op.BatchUpdate? {
      BatchOnlyRows(s, op.component, op.updates);
    }
  }

  lemma {:induction false} BatchOnlyRows(s: State, name: string, updates: seq<BatchEntry>)
    ensures SetAll(s, name, updates).depth == s.depth && SetAll(s, name, updates).rejections == s.rejections
  {
    hide SetComponent;
    if updates != [] {
      BatchOnlyRows(s, name, updates[..|updates| - 1]);
    }
  }

  lemma {:induction false} CheckoutDepth(s: State, rows: seq<Value>)
    ensures IngestAll(s, rows).depth == s.depth && IngestAll(s, rows).rejections == s.rejections
  {
    hide CheckoutRow;
    if rows != [] {
      CheckoutDepth(s, rows[..|rows| - 1]);
    }
  }

  lemma {:induction false} BaseDepth(events: seq<Event>)
    ensures Base(events).depth == 0 && Base(events).rejections == []
  {
    if events != [] {
      BaseDepth(events[..|events| - 1]);
      var last := events[|events| - 1];
      if last.ResyncFinished? {
        CheckoutDepth(State(map[], [], 0, Live), RowsOf(last.response));
      }
      hide IngestAll;
    }
  }

  /** After any history the depth is the running sum of begins and ends since the last reconnect or
      resync, minus its lowest value. */
  lemma {:induction false} DepthSinceReset(events: seq<Event>)
    ensures Run(INIT, events).depth == Net(Since(events)) - Lowest(Since(events))
  {
    HistoryIsBaseAndStream(events);
    BaseDepth(events);
    DepthOfStream(Base(events), Since(events));
  }

  /** The rejections in a stream, in order. */
  function Rejections(ops: seq<Op>): seq<Rejection> {
    if ops == [] then []
    else
      var last := ops[|ops| - 1];
      Rejections(ops[..|ops| - 1]) +
      (if last.UpdateRejected? then [Rejection(last.about, last.which, last.reason)] else [])
  }

  lemma {:induction false} RejectionsOfStream(s: State, ops: seq<Op>)
    requires s.rejections == []
    ensures ApplyAll(s, ops).rejections == Rejections(ops)
  {
    if ops != [] {
      var init, last := ops[..|ops| - 1], ops[|ops| - 1];
      RejectionsOfStream(s, init);
      RejectionsOnly(ApplyAll(s, init), last);
      hide ApplyOp;
    }
  }

  lemma {:induction false} RejectionsOnly(s: State, op: Op)
    ensures ApplyOp(s, op).0.rejections ==
      s.rejections + (if op.UpdateRejected? then [Rejection(op.about, op.which, op.reason)] else [])
  {
    hide Mirror, Refresh, MergeBag, SetComponent, WithoutComponent, Granted, Deepen, Find;
    if op.BatchUpdate? {
      BatchOnlyRows(s, op.component, op.updates);
    }
  }

  /** The recorded rejections are those of the stream since the last reset, in order. */
  lemma {:induction false} RejectionsSinceReset(events: seq<Event>)
    ensures Run(INIT, events).rejections == Rejections(Since(events))
  {
    HistoryIsBaseAndStream(events);
    BaseDepth(events);
    RejectionsOfStream(Base(events), Since(events));
  }

  // ---------------------------------------------------------------- the ghost flag

  /** A boolean ghost component is the row's ghost flag. */
  predicate GhostAgrees(row: Row) {
    var c := AsBool(Component(row, "ghost"));
    c.Some? ==> c.value == row.ghostly
  }

  /** A string owner_region component is the row's owner region. */
  predicate OwnerAgrees(row: Row) {
    var c := AsStr(Component(row, "owner_region"));
    c.Some? ==> row.ownerRegion == c
  }

  ghost predicate AllGhostsAgree(s: State) { forall e :: e in s.entities ==> GhostAgrees(s.entities[e]) }

  lemma {:induction false} RefreshAgrees(row: Row)
    ensures GhostAgrees(Refresh(row)) && OwnerAgrees(Refresh(row))
  {}

  lemma {:induction false} MirrorGhost(row: Option<Row>, fields: seq<Field>)
    ensures GhostAgrees(Mirror(row, fields))
  {
    hide MergeBag, Find;
  }

  /** The row an operation leaves at the entity it touches. */
  lemma {:induction false} TouchedRow(s: State, op: Op, e: string)
    requires !op.BatchUpdate? && Touches(op) == Some(e)
    ensures
      var row := RowOf(ApplyOp(s, op).0, e);
      || row == RowOf(s, e)
      || row.None?
      || (row.Some? && exists r: Row :: row.value == Refresh(r))
      || (op.AuthorityChange? && row.Some? && row.value.(authority := map[]) == OrNew(RowOf(s, e)).(authority := map[]))
      || (op.Bag? && op.name == "MeshGhost" && row == Some(Mirror(RowOf(s, e), op.fields)))
  {
    hide Mirror, MergeBag, Find;
  }

  lemma {:induction false} RowGhost(s: State, op: Op, e: string)
    requires !op.BatchUpdate? && (e in s.entities ==> GhostAgrees(s.entities[e]))
    ensures e in ApplyOp(s, op).0.entities ==> GhostAgrees(ApplyOp(s, op).0.entities[e])
  {
    if Touches(op) != Some(e) {
      OthersUntouched(s, op, e);
      hide ApplyOp, GhostAgrees;
    } else {
      TouchedRow(s, op, e);
      hide ApplyOp, Mirror;
      if op.Bag? {
        MirrorGhost(RowOf(s, e), op.fields);
      }
    }
  }

  lemma {:induction false} BatchGhost(s: State, name: string, updates: seq<BatchEntry>)
    requires AllGhostsAgree(s)
    ensures AllGhostsAgree(SetAll(s, name, updates))
  {
    if updates != [] {
      var init, last := updates[..|updates| - 1], updates[|updates| - 1];
      BatchGhost(s, name, init);
      var before := SetAll(s, name, init);
      RefreshAgrees(WithComponent(OrNew(RowOf(before, last.entity)), name, last.value));
      hide Refresh, GhostAgrees;
    }
  }

  lemma {:induction false} OpGhosts(s: State, op: Op)
    requires AllGhostsAgree(s)
    ensures AllGhostsAgree(ApplyOp(s, op).0)
  {
    if op.BatchUpdate? {
      BatchGhost(s, op.component, op.updates);
      hide AllGhostsAgree, SetAll;
    } else {
      hide ApplyOp, GhostAgrees;
      forall e | e in ApplyOp(s, op).0.entities ensures GhostAgrees(ApplyOp(s, op).0.entities[e]) {
        RowGhost(s, op, e);
      }
    }
  }

  lemma {:induction false} CheckoutGhosts(s: State, rows: seq<Value>)
    requires AllGhostsAgree(s)
    ensures AllGhostsAgree(IngestAll(s, rows))
  {
    if rows != [] {
      CheckoutGhosts(s, rows[..|rows| - 1]);
      var last := rows[|rows| - 1];
      if last.Obj? {
        CheckoutAgrees(last.fields);
      }
      hide CheckoutRow, GhostAgrees, Find;
    }
  }

  lemma {:induction false} CheckoutAgrees(fields: seq<Field>)
    ensures GhostAgrees(CheckoutRow(fields)) && OwnerAgrees(CheckoutRow(fields))
  {
    hide MergeBag, TopLevel, GrantAll, Find;
  }

  /** After any history every row's boolean ghost component is its ghost flag. */
  lemma {:induction false} GhostsAlwaysAgree(events: seq<Event>)
    ensures AllGhostsAgree(Run(INIT, events))
  {
    if events != [] {
      var init, last := events[..|events| - 1], events[|events| - 1];
      GhostsAlwaysAgree(init);
      match last {
        case Stream(op) => OpGhosts(Run(INIT, init), op);
        case ResyncFinished(response) => CheckoutGhosts(State(map[], [], 0, Live), RowsOf(response));
        case _ =>
      }
      hide ApplyOp, IngestAll, GhostAgrees;
    }
  }

  // ---------------------------------------------------------------- the owner region

  function FindLast(fields: seq<Field>, key: string): Option<Value> {
    if fields == [] then None
    else if fields[|fields| - 1].key == key then Some(fields[|fields| - 1].value)
    else FindLast(fields[..|fields| - 1], key)
  }

  lemma {:induction false} InsertAllComponent(row: Row, fields: seq<Field>, name: string)
    ensures Component(InsertAll(row, fields), name) == OrElse(FindLast(fields, name), Component(row, name))
  {
    if fields != [] {
      InsertAllComponent(row, fields[..|fields| - 1], name);
    }
  }

  /** The owner component a ghost frame leaves: from its bag if it is there, else from the old row. */
  function OwnerComponent(row: Option<Row>, fields: seq<Field>): Option<Value> {
    var bag := AsObject(Find(fields, "components"));
    OrElse(if bag.Some? then FindLast(bag.value, "owner_region") else None, Component(OrNew(row), "owner_region"))
  }

  /** A ghost frame that names no owner, for a row whose owner component will be a string. */
  predicate LosesOwner(s: State, op: Op, e: string) {
    && op.Bag? && op.name == "MeshGhost" && Touches(op) == Some(e)
    && FieldStr(op.fields, "owner_region").None?
    && AsStr(OwnerComponent(RowOf(s, e), op.fields)).Some?
  }

  lemma {:induction false} MergedOwner(row: Row, bag: Option<Value>)
    ensures Component(MergeBag(row, bag), "owner_region")
      == OrElse(if AsObject(bag).Some? then FindLast(AsObject(bag).value, "owner_region") else None,
                Component(row, "owner_region"))
  {
    if bag.Some? && bag.value.Obj? {
      InsertAllComponent(row, bag.value.fields, "owner_region");
    }
    hide InsertAll, FindLast;
  }

  lemma {:induction false} MirrorOwner(row: Option<Row>, fields: seq<Field>)
    ensures OwnerAgrees(Mirror(row, fields)) <==>
      FieldStr(fields, "owner_region").Some? || AsStr(OwnerComponent(row, fields)).None?
  {
    MergedOwner(OrNew(row), Find(fields, "components"));
    hide MergeBag, Find, FindLast;
  }

  /** The row says one owner and the entity's component another. */
  predicate Disagrees(s: State, e: string) { e in s.entities && !OwnerAgrees(s.entities[e]) }

  /** A single operation that writes or removes the entity's row, its authority apart. */
  predicate Rewrites(op: Op, e: string) {
    && Touches(op) == Some(e) && !op.AuthorityChange?
    && (op.Bag? ==>
          || op.name == "MeshGhost" || op.name == "MeshGhostRemove"
          || (op.name == "ComponentUpdate" && ComponentField(op.fields).Some?))
  }

  /** A row that is rewritten disagrees exactly if a ghost frame loses the owner; any other row is as it was. */
  lemma {:induction false} SingleOwner(s: State, op: Op, e: string)
    requires !op.BatchUpdate?
    ensures Disagrees(ApplyOp(s, op).0, e) <==> if Rewrites(op, e) then LosesOwner(s, op, e) else Disagrees(s, e)
  {
    if Touches(op) != Some(e) {
      OthersUntouched(s, op, e);
      hide ApplyOp, OwnerAgrees;
    } else if op.Bag? && op.name == "MeshGhost" {
      MirrorOwner(RowOf(s, e), op.fields);
      hide Mirror, OwnerAgrees, OwnerComponent, Find;
    } else if op.AuthorityChange? {
      hide Find;
    } else {
      OtherOwner(s, op, e);
    }
  }

  lemma {:induction false} OtherOwner(s: State, op: Op, e: string)
    requires !op.BatchUpdate? && Touches(op) == Some(e) && !op.AuthorityChange? && !(op.Bag? && op.name == "MeshGhost")
    ensures Disagrees(ApplyOp(s, op).0, e) <==> !Rewrites(op, e) && Disagrees(s, e)
  {
    hide Mirror, MergeBag, WithComponent, Find, OrElse, UnwrapOr;
    match op {
      case AddEntity(_, shown) => RefreshAgrees(MergeBag(OrNew(RowOf(s, e)), shown));
      case AddComponent(_, name, v, _) => RefreshAgrees(WithComponent(OrNew(RowOf(s, e)), name, v));
      case RemoveComponent(_, name, _) =>
        if e in s.entities {
          var row := s.entities[e];
          RefreshAgrees(row.(components := row.components - {name}, authority := row.authority - {name}));
        }
      case Bag(name, fields) =>
        var component := ComponentField(fields);
        if name == "ComponentUpdate" && component.Some? {
          RefreshAgrees(WithComponent(OrNew(RowOf(s, e)), component.value, UnwrapOr(Find(fields, "value"), Null)));
        }
      case _ =>
    }
    hide Refresh, OwnerAgrees;
  }

  lemma {:induction false} BatchOwner(s: State, name: string, updates: seq<BatchEntry>, e: string)
    ensures Disagrees(SetAll(s, name, updates), e) <==> Disagrees(s, e) && forall u :: u in updates ==> u.entity != e
  {
    if updates != [] {
      var init, last := updates[..|updates| - 1], updates[|updates| - 1];
      BatchOwner(s, name, init, e);
      assert updates == init + [last];
      var before := SetAll(s, name, init);
      RefreshAgrees(WithComponent(OrNew(RowOf(before, last.entity)), name, last.value));
      hide Refresh, OwnerAgrees, SetAll;
      assert SetAll(s, name, updates) == Set(before, last.entity, name, last.value) by { LastSet(s, name, updates); }
    }
  }

  /** Any operation leaves a row whose owner region follows its owner component, if the row did so
      before, exactly unless it is a ghost frame that loses the owner. */
  lemma {:induction false} OwnerAgreesIff(s: State, op: Op, e: string)
    requires e in s.entities ==> OwnerAgrees(s.entities[e])
    ensures
      var t := ApplyOp(s, op).0;
      (e in t.entities ==> OwnerAgrees(t.entities[e])) <==> !LosesOwner(s, op, e)
  {
    if op.BatchUpdate? {
      BatchOwner(s, op.component, op.updates, e);
      hide SetAll, OwnerAgrees;
    } else {
      SingleOwner(s, op, e);
      hide ApplyOp, OwnerAgrees, OwnerComponent, Find, Rewrites;
    }
  }

  /** Over a stream: the last operation that rewrote the row was a ghost frame that lost the owner. */
  predicate OwnerLost(base: State, ops: seq<Op>, e: string) {
    if ops == [] then false
    else
      var init, last := ops[..|ops| - 1], ops[|ops| - 1];
      if Rewrites(last, e) then LosesOwner(ApplyAll(base, init), last, e) else OwnerLost(base, init, e)
  }

  lemma {:induction false} StreamOwner(base: State, ops: seq<Op>, e: string)
    requires !Disagrees(base, e) && forall op :: op in ops ==> !op.BatchUpdate?
    ensures Disagrees(ApplyAll(base, ops), e) <==> OwnerLost(base, ops, e)
  {
    if ops != [] {
      var init, last := ops[..|ops| - 1], ops[|ops| - 1];
      StreamOwner(base, init, e);
      SingleOwner(ApplyAll(base, init), last, e);
      hide Disagrees, Rewrites, LosesOwner, ApplyOp;
    }
  }

  lemma {:induction false} CheckoutOwner(s: State, rows: seq<Value>, e: string)
    requires !Disagrees(s, e)
    ensures !Disagrees(IngestAll(s, rows), e)
  {
    if rows != [] {
      CheckoutOwner(s, rows[..|rows| - 1], e);
      var last := rows[|rows| - 1];
      if last.Obj? {
        CheckoutAgrees(last.fields);
      }
      hide CheckoutRow, OwnerAgrees, GhostAgrees, Find;
    }
  }

  lemma {:induction false} BaseOwner(events: seq<Event>, e: string)
    ensures !Disagrees(Base(events), e)
  {
    if events != [] {
      BaseOwner(events[..|events| - 1], e);
      var last := events[|events| - 1];
      if last.ResyncFinished? {
        CheckoutOwner(State(map[], [], 0, Live), RowsOf(last.response), e);
      }
      hide IngestAll, OwnerAgrees;
    }
  }

  /** After any history a row's owner region differs from its owner component exactly when, since the
      last reset, a ghost frame that lost the owner was the last operation to rewrite the row. */
  lemma {:induction false} OwnerLostIff(events: seq<Event>, e: string)
    ensures Disagrees(Run(INIT, events), e) <==> OwnerLost(Base(events), Expand(Since(events)), e)
  {
    HistoryIsBaseAndStream(events);
    ExpandRuns(Base(events), Since(events));
    BaseOwner(events, e);
    StreamOwner(Base(events), Expand(Since(events)), e);
    hide Run, ApplyAll, Base, Since, Expand, OwnerLost, OwnerAgrees;
  }

  /** The disagreement is real: a second ghost frame without an owner keeps the component and drops the
      owner region. */
  lemma {:induction false} OwnerLostExample()
    ensures
      var first := Bag("MeshGhost", [Field("entity", Str("e")), Field("owner_region", Str("E"))]);
      var second := Bag("MeshGhost", [Field("entity", Str("e"))]);
      var s := ApplyAll(INIT, [first, second]);
      && "e" in s.entities && Component(s.entities["e"], "owner_region") == Some(Str("E"))
      && s.entities["e"].ownerRegion == None
  {
    var f := [Field("entity", Str("e")), Field("owner_region", Str("E"))];
    var g := [Field("entity", Str("e"))];
    GhostFields();
    hide Find;
    var s1 := ApplyOp(INIT, Bag("MeshGhost", f)).0;
    FirstGhost(f);
    OneMoreGhost(s1, g);
    assert [Bag("MeshGhost", f)] + [Bag("MeshGhost", g)] == [Bag("MeshGhost", f), Bag("MeshGhost", g)];
    assert [] + [Bag("MeshGhost", f)] == [Bag("MeshGhost", f)];
    ApplyAllSnoc(INIT, [], Bag("MeshGhost", f));
    ApplyAllSnoc(INIT, [Bag("MeshGhost", f)], Bag("MeshGhost", g));
    hide ApplyOp, ApplyAll;
    assert ApplyAll(INIT, []) == INIT by { NothingApplied(INIT); }
  }

  lemma {:induction false} GhostFields()
    ensures
      var f := [Field("entity", Str("e")), Field("owner_region", Str("E"))];
      var g := [Field("entity", Str("e"))];
      && FieldStr(f, "entity") == Some("e") && FieldStr(g, "entity") == Some("e")
      && FieldStr(f, "owner_region") == Some("E") && FieldStr(g, "owner_region") == None
      && Find(f, "components") == Find(f, "pos") == Find(f, "vel") == None
      && Find(g, "components") == Find(g, "pos") == Find(g, "vel") == None
  {
    var f := [Field("entity", Str("e")), Field("owner_region", Str("E"))];
    assert f[1..] == [Field("owner_region", Str("E"))] && f[1..][1..] == [];
    assert [Field("entity", Str("e"))][1..] == [];
    assert |"entity"| != |"owner_region"| && |"components"| != |"owner_region"| && |"pos"| != |"owner_region"|;
  }

  /** A frame that names an owner sets both. */
  lemma {:induction false} FirstGhost(f: seq<Field>)
    requires FieldStr(f, "entity") == Some("e") && FieldStr(f, "owner_region") == Some("E")
    requires Find(f, "components") == Find(f, "pos") == Find(f, "vel") == None
    ensures var s := ApplyOp(INIT, Bag("MeshGhost", f)).0;
      "e" in s.entities && Component(s.entities["e"], "owner_region") == Some(Str("E"))
  {
    hide Find;
    assert "ghost"[0] != "owner_region"[0];
  }

  /** A frame that names none keeps the component and drops the owner. */
  lemma {:induction false} OneMoreGhost(s: State, g: seq<Field>)
    requires "e" in s.entities && FieldStr(g, "entity") == Some("e") && FieldStr(g, "owner_region") == None
    requires Find(g, "components") == Find(g, "pos") == Find(g, "vel") == None
    ensures var t := ApplyOp(s, Bag("MeshGhost", g)).0;
      && "e" in t.entities && t.entities["e"].ownerRegion == None
      && Component(t.entities["e"], "owner_region") == Component(s.entities["e"], "owner_region")
  {
    hide Find;
    assert "ghost"[0] != "owner_region"[0];
  }
}
