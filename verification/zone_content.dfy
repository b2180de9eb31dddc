/** What the zone worker simulates and writes: where every body starts, how it moves, what its writes
    carry, and what the worker counts, over whole runs. */
module ZoneContent {
  import opened Wrappers
  import opened Json
  import P = Protocol
  import Text
  import opened ZoneWorker

  // ---------------------------------------------------------------- points

  /** A list that starts with two numbers stands for the point they name. */
  ghost predicate Stands(v: Value, p: Point) {
    exists a: Number, b: Number, rest: seq<Value> ::
      v == Arr([Num(a), Num(b)] + rest) && p == Point(Worth(a), Worth(b))
  }

  /** A value is read as a point exactly if it is a list that starts with the point's two numbers. */
  lemma {:induction false} PointRead(v: Option<Value>, p: Point)
    ensures Arr2(v) == Some(p) <==> v.Some? && Stands(v.value, p)
  {
    if Arr2(v) == Some(p) {
      var items := v.value.items;
      assert items == [Num(items[0].num), Num(items[1].num)] + items[2..];
    }
    if v.Some? && Stands(v.value, p) {
      var a: Number, b: Number, rest: seq<Value> :|
        v.value == Arr([Num(a), Num(b)] + rest) && p == Point(Worth(a), Worth(b));
      assert v.value.items[0] == Num(a) && v.value.items[1] == Num(b);
    }
  }

  // ---------------------------------------------------------------- the latest point noted

  function Named(fields: seq<Field>, key: string): Option<string> {
    var v := Find(fields, key);
    if v.Some? && v.value.Str? then Some(v.value.s) else None
  }

  /** The entity an update names, and its component under either of two keys; the empty name if none. */
  function About(fields: seq<Field>): string {
    if Named(fields, "entity").Some? then Named(fields, "entity").value else ""
  }

  function Which(fields: seq<Field>): string {
    if Named(fields, "comp").Some? then Named(fields, "comp").value
    else if Named(fields, "component").Some? then Named(fields, "component").value
    else ""
  }

  function Carried(shown: Option<Value>, name: string): Option<Point> {
    if shown.Some? && shown.value.Obj? then Arr2(Find(shown.value.fields, name)) else None
  }

  /** The point an event shows for a component of an entity. */
  function Shows(ev: Event, e: string, name: string): Option<Point> {
    match ev
    case Received(AddEntity(x, shown)) => if x == e && e != "" then Carried(shown, name) else None
    case Received(Bag(kind, fields)) =>
      if kind == "ComponentUpdate" && About(fields) == e && Which(fields) == name then Arr2(Find(fields, "value"))
      else None
    case _ => None
  }

  /** The point shown last since the entity was last removed, the origin if there is none. */
  function Latest(events: seq<Event>, e: string, name: string): Point {
    if events == [] then Point(0.0, 0.0)
    else
      var init, last := events[..|events| - 1], events[|events| - 1];
      if last == Received(P.RemoveEntity(e)) then Point(0.0, 0.0)
      else if Shows(last, e, name).Some? then Shows(last, e, name).value
      else Latest(init, e, name)
  }

  function Kept(before: Point, shown: Option<Point>): Point { if shown.Some? then shown.value else before }

  lemma {:induction false} IntroducedView(s: State, x: string, shown: Option<Value>, e: string)
    ensures var t, seen := Introduce(s, x, shown), x == e && e != "";
      && Lookup(t.viewPos, e, ORIGIN) == Kept(Lookup(s.viewPos, e, ORIGIN),
           if seen then Carried(shown, "pos") else None)
      && Lookup(t.viewVel, e, ORIGIN) == Kept(Lookup(s.viewVel, e, ORIGIN),
           if seen then Carried(shown, "vel") else None)
  {
    hide Find, Arr2;
  }

  lemma {:induction false} UpdatedView(s: State, fields: seq<Field>, e: string)
    ensures var t, seen := UpdateView(s, fields), About(fields) == e;
      && Lookup(t.viewPos, e, ORIGIN) == Kept(Lookup(s.viewPos, e, ORIGIN),
           if seen && Which(fields) == "pos" then Arr2(Find(fields, "value")) else None)
      && Lookup(t.viewVel, e, ORIGIN) == Kept(Lookup(s.viewVel, e, ORIGIN),
           if seen && Which(fields) == "vel" then Arr2(Find(fields, "value")) else None)
  {
    hide Find, Arr2;
  }

  lemma {:induction false} BodiesOnly(s: State, e: string, component: string, authoritative: bool, at: u64,
                                      fields: seq<Field>, about: Option<string>, which: Option<string>, reason: string)
    ensures var t := ChangeAuthority(s, e, component, authoritative, at, fields);
      t.viewPos == s.viewPos && t.viewVel == s.viewVel
    ensures var t := Rejected(s, about, which, reason);
      t.viewPos == s.viewPos && t.viewVel == s.viewVel
  {
    hide Imminent, RejectDrops, Lookup;
  }

  lemma {:induction false} ForgottenView(s: State, x: string, e: string)
    requires x != e
    ensures Lookup(Forget(s, x).viewPos, e, ORIGIN) == Lookup(s.viewPos, e, ORIGIN)
    ensures Lookup(Forget(s, x).viewVel, e, ORIGIN) == Lookup(s.viewVel, e, ORIGIN)
  {}

  lemma {:induction false} ReceivedView(s: State, op: P.Op, e: string)
    requires op != P.RemoveEntity(e)
    ensures Lookup(Receive(s, op).viewPos, e, ORIGIN)
      == Kept(Lookup(s.viewPos, e, ORIGIN), Shows(Received(op), e, "pos"))
    ensures Lookup(Receive(s, op).viewVel, e, ORIGIN)
      == Kept(Lookup(s.viewVel, e, ORIGIN), Shows(Received(op), e, "vel"))
  {
    hide Find, Arr2, Introduce, UpdateView, Carried, About, Which, ChangeAuthority, Rejected, Forget, Lookup;
    match op {
      case AddEntity(x, shown) => IntroducedView(s, x, shown, e);
      case RemoveEntity(x) => ForgottenView(s, x, e);
      case AuthorityChange(x, component, authoritative, at, _, fields) =>
        BodiesOnly(s, x, component, authoritative, at, fields, None, None, "");
      case UpdateRejected(about, which, reason, _) => BodiesOnly(s, "", "", false, 0, [], about, which, reason);
      case Bag(kind, fields) => UpdatedView(s, fields, e);
      case _ =>
    }
  }

  /** In every run the worker's view of an entity is the point shown last. */
  lemma {:induction false} ViewIsLatest(cfg: Config, events: seq<Event>, e: string)
    ensures Lookup(Run(cfg, events).viewPos, e, ORIGIN) == Latest(events, e, "pos")
    ensures Lookup(Run(cfg, events).viewVel, e, ORIGIN) == Latest(events, e, "vel")
  {
    if events != [] {
      var init, last := events[..|events| - 1], events[|events| - 1];
      ViewIsLatest(cfg, init, e);
      hide Shows, Introduce, UpdateView, Rejected, ChangeAuthority;
      if last.Received? && last.op != P.RemoveEntity(e) {
        ReceivedView(Run(cfg, init), last.op, e);
        hide Receive;
      }
      if last.Ticked? {
        NothingShown(last.motion, e);
      }
    }
  }

  lemma {:induction false} NothingShown(motion: map<nat, Rigid>, e: string)
    ensures Shows(Ticked(motion), e, "pos").None? && Shows(Ticked(motion), e, "vel").None?
  {}

  // ---------------------------------------------------------------- bodies

  function BodyOf(s: State, e: string): Option<Rigid> {
    if e in s.bots && s.bots[e].handle in s.bodies then Some(s.bodies[s.bots[e].handle]) else None
  }

  function HandleOf(s: State, e: string): nat { if e in s.bots then s.bots[e].handle else 0 }

  function Moved(motion: map<nat, Rigid>, h: nat, before: Option<Rigid>): Option<Rigid> {
    if before.Some? && h in motion then Some(motion[h]) else before
  }

  /** An entity's body over a run: it starts at the points shown last, moves as the physics says, and is
      gone with the grant; a grant renewed leaves it where it is. */
  function Simulating(cfg: Config, events: seq<Event>, e: string): Option<Rigid> {
    if events == [] then None
    else
      var init, last := events[..|events| - 1], events[|events| - 1];
      var before := Simulating(cfg, init, e);
      if Grant(last, e).Some? then
        if before.Some? then before else Some(Rigid(Latest(init, e, "pos"), Latest(init, e, "vel")))
      else if Loses(cfg, Run(cfg, init), last, e) then None
      else if last.Ticked? then Moved(last.motion, HandleOf(Run(cfg, init), e), before)
      else before
  }

  lemma {:induction false} HasBody(s: State, e: string)
    requires OneBodyEach(s)
    ensures BodyOf(s, e).Some? <==> e in s.bots
  {
    assert e in s.bots ==> s.bots[e].handle in Handles(s.bots);
    hide Unshared;
  }

  lemma {:induction false} AdoptedBody(s: State, x: string, epoch: u64, e: string)
    requires OneBodyEach(s)
    ensures BodyOf(Adopt(s, x, epoch), e) ==
      if x == e && BodyOf(s, e).None? then Some(Rigid(Lookup(s.viewPos, e, ORIGIN), Lookup(s.viewVel, e, ORIGIN)))
      else BodyOf(s, e)
  {
    HasBody(s, e);
    hide Handles, Unshared, Lookup;
  }

  lemma {:induction false} DroppedBody(s: State, x: string, e: string)
    requires OneBodyEach(s)
    ensures BodyOf(Dropped(s, x), e) == if x == e then None else BodyOf(s, e)
  {
    HasBody(s, e);
    hide Handles;
  }

  lemma {:induction false} ChangedBody(s: State, x: string, component: string, authoritative: bool, at: u64,
                                       fields: seq<Field>, e: string)
    requires OneBodyEach(s)
    ensures BodyOf(ChangeAuthority(s, x, component, authoritative, at, fields), e) ==
      if x != e || !Concerns(component, fields) then BodyOf(s, e)
      else if !authoritative then None
      else if BodyOf(s, e).Some? then BodyOf(s, e)
      else Some(Rigid(Lookup(s.viewPos, e, ORIGIN), Lookup(s.viewVel, e, ORIGIN)))
  {
    hide OneBodyEach, Imminent, Lookup, Adopt, Dropped;
    AdoptedBody(s, x, at, e);
    DroppedBody(s, x, e);
  }

  lemma {:induction false} ForgottenBody(s: State, x: string, e: string)
    requires OneBodyEach(s)
    ensures BodyOf(Forget(s, x), e) == if x == e then None else BodyOf(s, e)
  {
    hide Handles, Unshared, Dropped;
    DroppedBody(s.(viewPos := s.viewPos - {x}, viewVel := s.viewVel - {x}), x, e);
  }

  lemma {:induction false} RejectedBody(s: State, about: Option<string>, which: Option<string>, reason: string,
                                        e: string)
    requires OneBodyEach(s)
    ensures BodyOf(Rejected(s, about, which, reason), e) ==
      if RejectDrops(about, which, reason) == Some(e) then None else BodyOf(s, e)
  {
    hide RejectDrops, Dropped, Handles, Unshared;
    var counted := s.(metrics := s.metrics.(rejects := s.metrics.rejects + 1));
    var drops := RejectDrops(about, which, reason);
    if drops.Some? {
      DroppedBody(counted, drops.value, e);
    }
  }

  lemma {:induction false} ReceivedBody(cfg: Config, s: State, op: P.Op, e: string)
    requires OneBodyEach(s)
    ensures BodyOf(Receive(s, op), e) ==
      if Grant(Received(op), e).Some? then
        if BodyOf(s, e).Some? then BodyOf(s, e)
        else Some(Rigid(Lookup(s.viewPos, e, ORIGIN), Lookup(s.viewVel, e, ORIGIN)))
      else if Loses(cfg, s, Received(op), e) then None
      else BodyOf(s, e)
  {
    hide OneBodyEach, ChangeAuthority, Forget, Rejected, Concerns, RejectDrops, Find, Arr2, Lookup;
    match op {
      case AuthorityChange(x, component, authoritative, at, _, fields) =>
        ChangedBody(s, x, component, authoritative, at, fields, e);
      case RemoveEntity(x) => ForgottenBody(s, x, e);
      case UpdateRejected(about, which, reason, _) => RejectedBody(s, about, which, reason, e);
      case _ =>
    }
  }

  lemma {:induction false} TickedBody(cfg: Config, s: State, motion: map<nat, Rigid>, e: string)
    requires OneBodyEach(s)
    ensures BodyOf(Fold(cfg, Simulated(s, motion)), e) ==
      if Leaves(cfg, Simulated(s, motion), e) then None else Moved(motion, HandleOf(s, e), BodyOf(s, e))
  {
    hide Leaves, Handles;
    var t := Simulated(s, motion);
    HasBody(s, e);
    assert BodyOf(t, e) == Moved(motion, HandleOf(s, e), BodyOf(s, e));
    assert t.bots == s.bots;
    if e in s.bots && !Leaves(cfg, t, e) {
      assert t.bots[e].handle !in (set f | f in t.bots && Leaves(cfg, t, f) :: t.bots[f].handle);
    }
  }

  /** In every run each entity's body is the one its own history says: adopted at the latest position and
      velocity shown for it, then moved by the physics until its grant ends. */
  lemma {:induction false} BodyIsSimulated(cfg: Config, events: seq<Event>, e: string)
    ensures BodyOf(Run(cfg, events), e) == Simulating(cfg, events, e)
  {
    if events != [] {
      hide Receive, Fold, Simulated, OneBodyEach, BodyOf, Grant, Loses, Lookup, Latest, HandleOf, Leaves;
      var init, last := events[..|events| - 1], events[|events| - 1];
      BodyIsSimulated(cfg, init, e);
      RunInv(cfg, init);
      ViewIsLatest(cfg, init, e);
      match last {
        case Received(op) => ReceivedBody(cfg, Run(cfg, init), op, e);
        case Ticked(motion) =>
          TickedBody(cfg, Run(cfg, init), motion, e);
          TickLoses(cfg, Run(cfg, init), motion, e);
      }
    }
  }

  lemma {:induction false} TickLoses(cfg: Config, s: State, motion: map<nat, Rigid>, e: string)
    ensures Grant(Ticked(motion), e).None?
    ensures Loses(cfg, s, Ticked(motion), e) <==> Leaves(cfg, Simulated(s, motion), e)
  {}

  // ---------------------------------------------------------------- writes

  /** After every run a position or velocity is due to be written exactly for the entities with a body:
      it is that body's, fenced with the epoch of the latest grant. */
  lemma {:induction false} WritesCarryBodies(cfg: Config, events: seq<Event>, w: Write)
    ensures var body := Simulating(cfg, events, w.entity);
      && (PosWrite(Run(cfg, events), w) <==>
          body.Some? && w.component == "pos" && w.value == body.value.at
          && Held(cfg, events, w.entity) == Some(w.epoch))
      && (VelWrite(Run(cfg, events), w) <==>
          body.Some? && w.component == "vel" && w.value == body.value.velocity
          && Held(cfg, events, w.entity) == Some(w.epoch))
  {
    hide Run, Simulating, Held, OneBodyEach;
    BodyIsSimulated(cfg, events, w.entity);
    EpochIsLatestGrant(cfg, events, w.entity);
    RunInv(cfg, events);
    HasBody(Run(cfg, events), w.entity);
  }

  // ---------------------------------------------------------------- what concerns a body

  /** A body is handed over exactly when its worker has a cell and the body has crossed an edge of it
      behind which there is a neighbour. */
  lemma {:induction false} LeavesIff(cfg: Config, s: State, e: string)
    requires OneBodyEach(s)
    ensures Leaves(cfg, s, e) <==>
      && BodyOf(s, e).Some? && cfg.cell.Some?
      && exists k :: 0 <= k < |EDGES| && Open(cfg.cell.value, cfg.neighbors, BodyOf(s, e).value.at, k)
  {
    hide OneBodyEach, FoldTarget, Open;
    HasBody(s, e);
    if cfg.cell.Some? && e in s.bots {
      FoldTargetIff(cfg.cell.value, cfg.neighbors, BodyAt(s.bodies, s.bots[e].handle).at);
    }
  }

  /** An authority change concerns the body exactly if it is about the position or about no component, and
      does not merely announce a loss. */
  lemma {:induction false} ConcernsIff(component: string, fields: seq<Field>)
    ensures Concerns(component, fields) <==>
      component in {"pos", ""} && Find(fields, "state") != Some(Str("AUTHORITY_LOSS_IMMINENT"))
  {
    hide Find;
  }

  /** A reject costs an entity its body exactly if it names the entity, is about its position or velocity,
      and says "not authoritative" in any mixture of small and capital letters. */
  lemma {:induction false} RejectDropsIff(about: Option<string>, which: Option<string>, reason: string, e: string)
    ensures RejectDrops(about, which, reason) == Some(e) <==>
      about == Some(e) && which in {Some("pos"), Some("vel")} && Text.Says(reason, "not authoritative")
  {
    hide Text.Contains, Text.Lower, Text.Says;
    Text.ContainsIff(reason, "not authoritative");
  }

  // ---------------------------------------------------------------- counts

  datatype Counted = Rejects | Gains | Losses | Warnings

  predicate Counts(ev: Event, kind: Counted) {
    match ev
    case Received(UpdateRejected(_, _, _, _)) => kind == Rejects
    case Received(AuthorityChange(_, component, authoritative, _, _, fields)) =>
      component in {"pos", ""} &&
      kind == if Find(fields, "state") == Some(Str("AUTHORITY_LOSS_IMMINENT")) then Warnings
              else if authoritative then Gains else Losses
    case _ => false
  }

  function Count(events: seq<Event>, kind: Counted): nat {
    if events == [] then 0
    else Count(events[..|events| - 1], kind) + if Counts(events[|events| - 1], kind) then 1 else 0
  }

  lemma {:induction false} ViewsCountNothing(s: State, e: string, shown: Option<Value>, fields: seq<Field>)
    ensures Introduce(s, e, shown).metrics == s.metrics && UpdateView(s, fields).metrics == s.metrics
    ensures Dropped(s, e).metrics == s.metrics && Forget(s, e).metrics == s.metrics
  {
    hide Find, Noted, Arr2;
  }

  lemma {:induction false} ChangeCounts(s: State, e: string, component: string, authoritative: bool, at: u64,
                                        fields: seq<Field>)
    ensures ChangeAuthority(s, e, component, authoritative, at, fields).metrics ==
      if component !in {"pos", ""} then s.metrics
      else if Find(fields, "state") == Some(Str("AUTHORITY_LOSS_IMMINENT")) then
        s.metrics.(imminent := s.metrics.imminent + 1)
      else if authoritative then s.metrics.(gains := s.metrics.gains + 1)
      else s.metrics.(losses := s.metrics.losses + 1)
  {
    hide Find, Lookup;
  }

  lemma {:induction false} RejectCounts(s: State, about: Option<string>, which: Option<string>, reason: string)
    ensures Rejected(s, about, which, reason).metrics == s.metrics.(rejects := s.metrics.rejects + 1)
  {
    hide RejectDrops;
  }

  lemma {:induction false} ReceiveCounts(s: State, op: P.Op)
    ensures var m, ev := Receive(s, op).metrics, Received(op);
      && m.rejects == s.metrics.rejects + (if Counts(ev, Rejects) then 1 else 0)
      && m.gains == s.metrics.gains + (if Counts(ev, Gains) then 1 else 0)
      && m.losses == s.metrics.losses + (if Counts(ev, Losses) then 1 else 0)
      && m.imminent == s.metrics.imminent + (if Counts(ev, Warnings) then 1 else 0)
  {
    hide Find, Introduce, UpdateView, Forget, Dropped, ChangeAuthority, Rejected;
    match op {
      case AddEntity(e, shown) => ViewsCountNothing(s, e, shown, []);
      case RemoveEntity(e) => ViewsCountNothing(s, e, None, []);
      case Bag(_, fields) => ViewsCountNothing(s, "", None, fields);
      case AuthorityChange(e, component, authoritative, at, _, fields) =>
        ChangeCounts(s, e, component, authoritative, at, fields);
      case UpdateRejected(about, which, reason, _) => RejectCounts(s, about, which, reason);
      case _ =>
    }
  }

  lemma {:induction false} TickCounts(motion: map<nat, Rigid>)
    ensures forall kind :: !Counts(Ticked(motion), kind)
  {}

  /** In every run the worker's counters are the number of rejects and of authority changes of each kind. */
  lemma {:induction false} CountersCount(cfg: Config, events: seq<Event>)
    ensures Run(cfg, events).metrics
      == Metrics(Count(events, Rejects), Count(events, Gains), Count(events, Losses), Count(events, Warnings))
  {
    if events != [] {
      hide Receive, Counts;
      var init, last := events[..|events| - 1], events[|events| - 1];
      CountersCount(cfg, init);
      match last {
        case Received(op) => ReceiveCounts(Run(cfg, init), op);
        case Ticked(motion) => TickCounts(motion);
      }
    }
  }
}
