/** The physics zone worker, src/bin/zone_worker.rs: which rigid bodies exist for which entities, and
    with which epoch their updates are written. */
module ZoneWorker {
  import opened Wrappers
  import opened Json
  import P = Protocol
  import Text

  datatype Point = Point(x: real, y: real)

  const ORIGIN := Point(0.0, 0.0)

  /** A rigid body as far as the worker reads it. */
  datatype Rigid = Rigid(at: Point, velocity: Point)

  datatype Bot = Bot(handle: nat, epoch: u64)

  datatype Metrics = Metrics(rejects: nat, gains: nat, losses: nat, imminent: nat)

  /** The worker's own cell, and the neighbour across each edge. */
  datatype Cell = Cell(x0: real, x1: real, y0: real, y1: real)

  datatype Config = Config(cell: Option<Cell>, neighbors: map<string, string>)

  /** Body handles are never used twice, so the next one is a counter. */
  datatype State = State(
    bots: map<string, Bot>,
    bodies: map<nat, Rigid>,
    nextHandle: nat,
    viewPos: map<string, Point>,
    viewVel: map<string, Point>,
    metrics: Metrics)

  const INIT := State(map[], map[], 0, map[], map[], Metrics(0, 0, 0, 0))

  // ---------------------------------------------------------------- helpers

  function Lookup<V>(m: map<string, V>, key: string, default: V): V { if key in m then m[key] else default }

  function Arr2(v: Option<Value>): Option<Point> {
    var items := AsArray(v);
    if items.Some? && |items.value| >= 2 && items.value[0].Num? && items.value[1].Num? then
      Some(Point(AsF64(Some(items.value[0])).value, AsF64(Some(items.value[1])).value))
    else None
  }

  predicate NotAuthoritative(reason: string) { Text.Contains(Text.Lower(reason), "not authoritative") }

  function Destroy(s: State, e: string): State
    requires e in s.bots
  {
    s.(bots := s.bots - {e}, bodies := s.bodies - {s.bots[e].handle})
  }

  function Dropped(s: State, e: string): State { if e in s.bots then Destroy(s, e) else s }

  // ---------------------------------------------------------------- operations

  predicate Imminent(fields: seq<Field>) { AsStr(Find(fields, "state")) == Some("AUTHORITY_LOSS_IMMINENT") }

  /** Does an authority change concern the body: its component and its state say so. */
  predicate Concerns(component: string, fields: seq<Field>) {
    (component == "pos" || component == "") && !Imminent(fields)
  }

  function Adopt(s: State, e: string, epoch: u64): State {
    if e in s.bots then s.(bots := s.bots[e := s.bots[e].(epoch := epoch)])
    else
      var h := s.nextHandle;
      s.(
        bodies := s.bodies[h := Rigid(Lookup(s.viewPos, e, ORIGIN), Lookup(s.viewVel, e, ORIGIN))],
        nextHandle := h + 1,
        bots := s.bots[e := Bot(h, epoch)])
  }

  function ChangeAuthority(s: State, e: string, component: string, authoritative: bool, epoch: u64, fields: seq<Field>)
    : State
  {
    if component != "pos" && component != "" then s
    else if Imminent(fields) then s.(metrics := s.metrics.(imminent := s.metrics.imminent + 1))
    else if authoritative then Adopt(s, e, epoch).(metrics := s.metrics.(gains := s.metrics.gains + 1))
    else Dropped(s, e).(metrics := s.metrics.(losses := s.metrics.losses + 1))
  }

  /** The entity whose body a rejected write costs: the broker says this worker is not its authority. */
  function RejectDrops(about: Option<string>, which: Option<string>, reason: string): Option<string> {
    var component := P.UnwrapOr(which, "unknown");
    if NotAuthoritative(reason) && (component == "pos" || component == "vel") then about else None
  }

  function Rejected(s: State, about: Option<string>, which: Option<string>, reason: string): State {
    var counted := s.(metrics := s.metrics.(rejects := s.metrics.rejects + 1));
    var drops := RejectDrops(about, which, reason);
    if drops.Some? then Dropped(counted, drops.value) else counted
  }

  function Forget(s: State, e: string): State {
    Dropped(s.(viewPos := s.viewPos - {e}, viewVel := s.viewVel - {e}), e)
  }

  function Noted<V>(m: map<string, V>, e: string, v: Option<V>): map<string, V> {
    if v.Some? then m[e := v.value] else m
  }

  function Introduce(s: State, e: string, components: Option<Value>): State {
    if e == "" then s
    else
      var bag := AsObject(components);
      var pos := Noted(s.viewPos, e, if bag.Some? then Arr2(Find(bag.value, "pos")) else None);
      s.(viewPos := if e in pos then pos else pos[e := ORIGIN],
         viewVel := Noted(s.viewVel, e, if bag.Some? then Arr2(Find(bag.value, "vel")) else None))
  }

  function UpdateView(s: State, fields: seq<Field>): State {
    var e := P.UnwrapOr(AsStr(Find(fields, "entity")), "");
    var component := P.UnwrapOr(P.OrElse(AsStr(Find(fields, "comp")), AsStr(Find(fields, "component"))), "");
    var value := Arr2(Find(fields, "value"));
    if component == "pos" then s.(viewPos := Noted(s.viewPos, e, value))
    else if component == "vel" then s.(viewVel := Noted(s.viewVel, e, value))
    else s
  }

  function Receive(s: State, op: P.Op): State {
    match op
    case AddEntity(e, shown) => Introduce(s, e, shown)
    case RemoveEntity(e) => Forget(s, e)
    case AuthorityChange(e, component, authoritative, at, _, fields) =>
      ChangeAuthority(s, e, component, authoritative, at, fields)
    case UpdateRejected(about, which, reason, _) => Rejected(s, about, which, reason)
    case Bag(name, fields) => if name == "ComponentUpdate" then UpdateView(s, fields) else s
    case _ => s
  }

  // ---------------------------------------------------------------- a tick

  /** The neighbour a position has crossed into, x before y; an edge without a neighbour is skipped. */
  function FoldTarget(cell: Cell, neighbors: map<string, string>, p: Point): Option<string> {
    if p.x < cell.x0 && "xlo" in neighbors then Some(neighbors["xlo"])
    else if p.x > cell.x1 && "xhi" in neighbors then Some(neighbors["xhi"])
    else if p.y < cell.y0 && "ylo" in neighbors then Some(neighbors["ylo"])
    else if p.y > cell.y1 && "yhi" in neighbors then Some(neighbors["yhi"])
    else None
  }

  function TargetOf(cfg: Config, p: Point): Option<string> {
    if cfg.cell.Some? then FoldTarget(cfg.cell.value, cfg.neighbors, p) else None
  }

  /** The physics step moves every body. */
  function Simulated(s: State, motion: map<nat, Rigid>): State {
    s.(bodies := map h | h in s.bodies :: if h in motion then motion[h] else s.bodies[h])
  }

  function BodyAt(bodies: map<nat, Rigid>, handle: nat): Rigid {
    if handle in bodies then bodies[handle] else Rigid(ORIGIN, ORIGIN)
  }

  predicate Leaves(cfg: Config, s: State, e: string) {
    e in s.bots && TargetOf(cfg, BodyAt(s.bodies, s.bots[e].handle).at).Some?
  }

  /** After a step, the bodies that left the cell are the neighbours'. */
  function Fold(cfg: Config, s: State): State {
    s.(
      bots := map e | e in s.bots && !Leaves(cfg, s, e) :: s.bots[e],
      bodies := s.bodies - (set e | e in s.bots && Leaves(cfg, s, e) :: s.bots[e].handle))
  }

  datatype Event = Received(op: P.Op) | Ticked(motion: map<nat, Rigid>)

  function Step(cfg: Config, s: State, ev: Event): State {
    match ev
    case Received(op) => Receive(s, op)
    case Ticked(motion) => Fold(cfg, Simulated(s, motion))
  }

  function Run(cfg: Config, events: seq<Event>): State {
    if events == [] then INIT else Step(cfg, Run(cfg, events[..|events| - 1]), events[|events| - 1])
  }

  // ---------------------------------------------------------------- the invariant

  function Handles(bots: map<string, Bot>): set<nat> { set e | e in bots :: bots[e].handle }

  ghost predicate Unshared(bots: map<string, Bot>) {
    forall e, f :: e in bots && f in bots && bots[e].handle == bots[f].handle ==> e == f
  }

  /** The handles of the bots are pairwise distinct and are exactly the live bodies. */
  ghost predicate OneBodyEach(s: State) {
    && Unshared(s.bots)
    && s.bodies.Keys == Handles(s.bots)
    && (forall h :: h in s.bodies ==> h < s.nextHandle)
  }

  lemma {:induction false} HandlesWithout(bots: map<string, Bot>, e: string)
    requires Unshared(bots) && e in bots
    ensures Unshared(bots - {e}) && Handles(bots - {e}) == Handles(bots) - {bots[e].handle}
  {
    forall h | h in Handles(bots) && h != bots[e].handle ensures h in Handles(bots - {e}) {
      var f :| f in bots && bots[f].handle == h;
      assert f in bots - {e};
    }
  }

  lemma {:induction false} HandlesWith(bots: map<string, Bot>, e: string, bot: Bot)
    requires Unshared(bots) && bot.handle !in Handles(bots) && e !in bots
    ensures Unshared(bots[e := bot]) && Handles(bots[e := bot]) == Handles(bots) + {bot.handle}
  {
    var after := bots[e := bot];
    assert e in after && after[e].handle == bot.handle;
    forall h | h in Handles(bots) ensures h in Handles(after) {
      var f :| f in bots && bots[f].handle == h;
      assert f in after && after[f].handle == h;
    }
    forall f | f in bots ensures bots[f].handle != bot.handle {
      assert bots[f].handle in Handles(bots);
    }
  }

  lemma {:induction false} HandlesSame(bots: map<string, Bot>, e: string, epoch: u64)
    requires Unshared(bots) && e in bots
    ensures var after := bots[e := bots[e].(epoch := epoch)]; Unshared(after) && Handles(after) == Handles(bots)
  {
    var after := bots[e := bots[e].(epoch := epoch)];
    forall h | h in Handles(bots) ensures h in Handles(after) {
      var f :| f in bots && bots[f].handle == h;
      assert f in after && after[f].handle == h;
    }
  }

  lemma {:induction false} DroppedInv(s: State, e: string)
    requires OneBodyEach(s)
    ensures OneBodyEach(Dropped(s, e))
  {
    if e in s.bots {
      HandlesWithout(s.bots, e);
    }
    hide Handles, Unshared;
  }

  lemma {:induction false} AdoptInv(s: State, e: string, epoch: u64)
    requires OneBodyEach(s)
    ensures OneBodyEach(Adopt(s, e, epoch))
  {
    if e in s.bots {
      HandlesSame(s.bots, e, epoch);
    } else {
      assert s.nextHandle !in s.bodies;
      HandlesWith(s.bots, e, Bot(s.nextHandle, epoch));
    }
    hide Handles, Unshared, Lookup;
  }

  lemma {:induction false} SimulatedInv(s: State, motion: map<nat, Rigid>)
    requires OneBodyEach(s)
    ensures OneBodyEach(Simulated(s, motion))
  {
    var t := Simulated(s, motion);
    assert t.bots == s.bots && t.bodies.Keys == s.bodies.Keys;
  }

  lemma {:induction false} FoldInv(cfg: Config, s: State)
    requires OneBodyEach(s)
    ensures OneBodyEach(Fold(cfg, s))
  {
    hide Leaves;
    var t := Fold(cfg, s);
    forall h | h in t.bodies ensures h in Handles(t.bots) {
      var f :| f in s.bots && s.bots[f].handle == h;
      assert f in t.bots;
    }
  }

  lemma {:induction false} ReceiveInv(s: State, op: P.Op)
    requires OneBodyEach(s)
    ensures OneBodyEach(Receive(s, op))
  {
    hide Find, Imminent, RejectDrops, Arr2, Adopt, Dropped, Handles, Unshared;
    match op
    case AuthorityChange(e, component, authoritative, at, _, fields) =>
      AdoptInv(s, e, at);
      DroppedInv(s, e);
    case RemoveEntity(e) => DroppedInv(s.(viewPos := s.viewPos - {e}, viewVel := s.viewVel - {e}), e);
    case UpdateRejected(about, which, reason, _) =>
      if RejectDrops(about, which, reason).Some? {
        DroppedInv(s.(metrics := s.metrics.(rejects := s.metrics.rejects + 1)),
                   RejectDrops(about, which, reason).value);
      }
    case _ =>
  }

  /** In every run the handles of the bots are pairwise distinct and are exactly the live bodies. */
  lemma {:induction false} RunInv(cfg: Config, events: seq<Event>)
    ensures OneBodyEach(Run(cfg, events))
  {
    if events != [] {
      var s := Run(cfg, events[..|events| - 1]);
      RunInv(cfg, events[..|events| - 1]);
      match events[|events| - 1] {
        case Received(op) => ReceiveInv(s, op);
        case Ticked(motion) =>
          SimulatedInv(s, motion);
          FoldInv(cfg, Simulated(s, motion));
      }
      hide Receive, Fold, Simulated, OneBodyEach;
    }
  }

  // ---------------------------------------------------------------- grants and losses

  /** The epoch an event grants for an entity. */
  function Grant(ev: Event, e: string): Option<u64> {
    match ev
    case Received(AuthorityChange(x, component, authoritative, at, _, fields)) =>
      if x == e && Concerns(component, fields) && authoritative then Some(at) else None
    case _ => None
  }

  /** An event takes an entity away: revoked, removed, refused as not ours, or moved across an edge. */
  predicate Loses(cfg: Config, s: State, ev: Event, e: string) {
    match ev
    case Received(AuthorityChange(x, component, authoritative, _, _, fields)) =>
      x == e && Concerns(component, fields) && !authoritative
    case Received(RemoveEntity(x)) => x == e
    case Received(UpdateRejected(about, which, reason, _)) => RejectDrops(about, which, reason) == Some(e)
    case Ticked(motion) => Leaves(cfg, Simulated(s, motion), e)
    case _ => false
  }

  /** The epoch of the latest grant that no loss followed. */
  function Held(cfg: Config, events: seq<Event>, e: string): Option<u64> {
    if events == [] then None
    else
      var init, last := events[..|events| - 1], events[|events| - 1];
      if Grant(last, e).Some? then Grant(last, e)
      else if Loses(cfg, Run(cfg, init), last, e) then None
      else Held(cfg, init, e)
  }

  function EpochOf(s: State, e: string): Option<u64> { if e in s.bots then Some(s.bots[e].epoch) else None }

  lemma {:induction false} ChangeEpoch(s: State, x: string, component: string, authoritative: bool, at: u64,
                                      fields: seq<Field>, e: string)
    ensures EpochOf(ChangeAuthority(s, x, component, authoritative, at, fields), e) ==
      if x != e || !Concerns(component, fields) then EpochOf(s, e)
      else if authoritative then Some(at) else None
  {
    hide Find, Imminent, Lookup;
  }

  lemma {:induction false} ReceiveEpoch(cfg: Config, s: State, op: P.Op, e: string)
    ensures EpochOf(Receive(s, op), e) ==
      if Grant(Received(op), e).Some? then Grant(Received(op), e)
      else if Loses(cfg, s, Received(op), e) then None
      else EpochOf(s, e)
  {
    hide Find, Imminent, RejectDrops, Arr2, ChangeAuthority, Concerns;
    if op.AuthorityChange? {
      ChangeEpoch(s, op.entity, op.component, op.authoritative, op.at, op.fields, e);
    }
  }

  lemma {:induction false} TickEpoch(cfg: Config, s: State, motion: map<nat, Rigid>, e: string)
    ensures EpochOf(Fold(cfg, Simulated(s, motion)), e) ==
      if Leaves(cfg, Simulated(s, motion), e) then None else EpochOf(s, e)
  {
    hide TargetOf;
    assert Simulated(s, motion).bots == s.bots;
  }

  /** In every run an entity has a body exactly while a grant for it stands, and its updates carry the
      epoch of the latest one. */
  lemma {:induction false} EpochIsLatestGrant(cfg: Config, events: seq<Event>, e: string)
    ensures EpochOf(Run(cfg, events), e) == Held(cfg, events, e)
  {
    if events != [] {
      var init, last := events[..|events| - 1], events[|events| - 1];
      EpochIsLatestGrant(cfg, init, e);
      match last {
        case Received(op) => ReceiveEpoch(cfg, Run(cfg, init), op, e);
        case Ticked(motion) => TickEpoch(cfg, Run(cfg, init), motion, e);
      }
      hide Receive, Fold, Simulated, Leaves, EpochOf;
    }
  }

  // ---------------------------------------------------------------- folding

  const EDGES: seq<string> := ["xlo", "xhi", "ylo", "yhi"]

  predicate Crossed(cell: Cell, p: Point, k: nat) {
    || (k == 0 && p.x < cell.x0) || (k == 1 && p.x > cell.x1)
    || (k == 2 && p.y < cell.y0) || (k == 3 && p.y > cell.y1)
  }

  /** The position has crossed edge k, and there is a neighbour behind it. */
  predicate Open(cell: Cell, neighbors: map<string, string>, p: Point, k: nat)
    requires k < |EDGES|
  {
    Crossed(cell, p, k) && EDGES[k] in neighbors
  }

  /** Edge k is open and no edge before it is. */
  predicate FirstOpen(cell: Cell, neighbors: map<string, string>, p: Point, k: nat)
    requires k < |EDGES|
  {
    Open(cell, neighbors, p, k) && forall j :: 0 <= j < k ==> !Open(cell, neighbors, p, j)
  }

  /** A position is handed over exactly when some edge it has crossed has a neighbour, and then to the
      neighbour behind the first such edge; of a cell whose corners are in order at most one edge per
      axis is crossed. */
  lemma {:induction false} FoldTargetIff(cell: Cell, neighbors: map<string, string>, p: Point)
    ensures FoldTarget(cell, neighbors, p).Some? <==> exists k :: 0 <= k < |EDGES| && Open(cell, neighbors, p, k)
    ensures forall k :: 0 <= k < |EDGES| && FirstOpen(cell, neighbors, p, k) ==>
      FoldTarget(cell, neighbors, p) == Some(neighbors[EDGES[k]])
    ensures cell.x0 <= cell.x1 ==> !(Crossed(cell, p, 0) && Crossed(cell, p, 1))
    ensures cell.y0 <= cell.y1 ==> !(Crossed(cell, p, 2) && Crossed(cell, p, 3))
  {
    var t := FoldTarget(cell, neighbors, p);
    assert t.Some? <==> Open(cell, neighbors, p, 0) || Open(cell, neighbors, p, 1) || Open(cell, neighbors, p, 2)
                        || Open(cell, neighbors, p, 3);
  }

  /** A body inside its cell is never handed over. */
  lemma {:induction false} InsideStays(cfg: Config, s: State, e: string)
    requires cfg.cell.Some? && e in s.bots && s.bots[e].handle in s.bodies
    requires var p, c := s.bodies[s.bots[e].handle].at, cfg.cell.value; c.x0 <= p.x <= c.x1 && c.y0 <= p.y <= c.y1
    ensures !Leaves(cfg, s, e) && EpochOf(Fold(cfg, s), e) == EpochOf(s, e)
  {}

  // ---------------------------------------------------------------- the worker object

  /** An update the worker writes: entity, component, and the epoch it is fenced with. */
  datatype Write = Write(entity: string, component: string, value: Point, epoch: u64)

  /** No entity is written twice. */
  ghost predicate Once(writes: seq<Write>) {
    forall i, j :: 0 <= i < j < |writes| ==> writes[i].entity != writes[j].entity
  }

  lemma {:induction false} OnceMore(writes: seq<Write>, w: Write)
    requires Once(writes) && forall x :: x in writes ==> x.entity != w.entity
    ensures Once(writes + [w]) && forall x :: x in writes + [w] <==> x in writes || x == w
  {}

  class Worker {
    const cfg: Config
    var bots: map<string, Bot>
    var bodies: map<nat, Rigid>
    var nextHandle: nat
    var viewPos: map<string, Point>
    var viewVel: map<string, Point>
    var metrics: Metrics

    ghost function View(): State
      reads this
    {
      State(bots, bodies, nextHandle, viewPos, viewVel, metrics)
    }

    ghost predicate Valid()
      reads this
    {
      OneBodyEach(View())
    }

    constructor (cfg: Config)
      ensures this.cfg == cfg && View() == INIT && Valid()
    {
      this.cfg := cfg;
      bots, bodies, nextHandle := map[], map[], 0;
      viewPos, viewVel, metrics := map[], map[], Metrics(0, 0, 0, 0);
    }

    method DestroyBody(e: string)
      modifies this`bots, this`bodies
      ensures View() == Dropped(old(View()), e)
    {
      if e in bots {
        bodies := bodies - {bots[e].handle};
        bots := bots - {e};
      }
    }

    method ApplyAuthorityChange(e: string, component: string, authoritative: bool, epoch: u64, fields: seq<Field>)
      modifies this
      ensures View() == ChangeAuthority(old(View()), e, component, authoritative, epoch, fields)
    {
      hide Find;
      if component != "pos" && component != "" {
        return;
      }
      if AsStr(Find(fields, "state")) == Some("AUTHORITY_LOSS_IMMINENT") {
        metrics := metrics.(imminent := metrics.imminent + 1);
        return;
      }
      if authoritative {
        metrics := metrics.(gains := metrics.gains + 1);
        if e in bots {
          bots := bots[e := bots[e].(epoch := epoch)];
        } else {
          var p := if e in viewPos then viewPos[e] else ORIGIN;
          var v := if e in viewVel then viewVel[e] else ORIGIN;
          bodies := bodies[nextHandle := Rigid(p, v)];
          bots := bots[e := Bot(nextHandle, epoch)];
          nextHandle := nextHandle + 1;
        }
      } else {
        metrics := metrics.(losses := metrics.losses + 1);
        DestroyBody(e);
      }
    }

    method ApplyRemoveEntity(e: string)
      modifies this
      ensures View() == Forget(old(View()), e)
    {
      viewPos := viewPos - {e};
      viewVel := viewVel - {e};
      DestroyBody(e);
    }

    method DropLocalBodyAfterAuthorityReject(about: Option<string>, which: Option<string>, reason: string)
      modifies this
      ensures View() == Rejected(old(View()), about, which, reason)
    {
      hide NotAuthoritative;
      metrics := metrics.(rejects := metrics.rejects + 1);
      if !NotAuthoritative(reason) {
        return;
      }
      var component := P.UnwrapOr(which, "unknown");
      if component != "pos" && component != "vel" {
        return;
      }
      if about.Some? {
        DestroyBody(about.value);
      }
    }

    method ApplyOp(op: P.Op)
      requires Valid()
      modifies this
      ensures Valid() && View() == Receive(old(View()), op)
    {
      hide ChangeAuthority, Forget, Rejected, Introduce, UpdateView, OneBodyEach;
      ReceiveInv(View(), op);
      match op
      case AddEntity(e, shown) => ApplyAddEntity(e, shown);
      case RemoveEntity(e) => ApplyRemoveEntity(e);
      case AuthorityChange(e, component, authoritative, at, _, fields) =>
        ApplyAuthorityChange(e, component, authoritative, at, fields);
      case UpdateRejected(about, which, reason, _) => DropLocalBodyAfterAuthorityReject(about, which, reason);
      case Bag(name, fields) =>
        if name == "ComponentUpdate" {
          ApplyComponentUpdate(fields);
        }
      case _ =>
    }

    method ApplyAddEntity(e: string, components: Option<Value>)
      modifies this`viewPos, this`viewVel
      ensures View() == Introduce(old(View()), e, components)
    {
      hide Find, Arr2;
      if e == "" {
        return;
      }
      var bag := AsObject(components);
      if bag.Some? {
        var p, v := Arr2(Find(bag.value, "pos")), Arr2(Find(bag.value, "vel"));
        if p.Some? {
          viewPos := viewPos[e := p.value];
        }
        if v.Some? {
          viewVel := viewVel[e := v.value];
        }
      }
      if e !in viewPos {
        viewPos := viewPos[e := ORIGIN];
      }
    }

    method ApplyComponentUpdate(fields: seq<Field>)
      modifies this`viewPos, this`viewVel
      ensures View() == UpdateView(old(View()), fields)
    {
      hide Find, Arr2;
      var e := P.UnwrapOr(AsStr(Find(fields, "entity")), "");
      var component := P.UnwrapOr(P.OrElse(AsStr(Find(fields, "comp")), AsStr(Find(fields, "component"))), "");
      var p := Arr2(Find(fields, "value"));
      if p.Some? {
        if component == "pos" {
          viewPos := viewPos[e := p.value];
        } else if component == "vel" {
          viewVel := viewVel[e := p.value];
        }
      }
    }

    /** Step the physics, write or hand over every owned body, drop those handed over.  Every write is
        fenced with its bot's epoch, and a body handed over is not written. */
    method RunTick(motion: map<nat, Rigid>)
      returns (posUpdates: seq<Write>, velUpdates: seq<Write>, folds: map<string, string>)
      requires Valid()
      modifies this
      ensures Valid() && View() == Step(cfg, old(View()), Ticked(motion))
      ensures forall w :: w in posUpdates <==> PosWrite(View(), w)
      ensures forall w :: w in velUpdates <==> VelWrite(View(), w)
      ensures Once(posUpdates) && Once(velUpdates)
      ensures forall e :: e in folds <==> e in old(bots) && e !in bots
      ensures forall e :: e in folds ==>
        Some(folds[e]) == TargetOf(cfg, BodyAt(Simulated(old(View()), motion).bodies, old(bots)[e].handle).at)
    {
      hide Simulated, Fold, PosWrite, VelWrite, OneBodyEach, BodyAt, TargetOf, Once;
      StepBodies(motion);
      posUpdates, velUpdates, folds := WriteOrHandOver();
    }

    method StepBodies(motion: map<nat, Rigid>)
      requires Valid()
      modifies this`bodies
      ensures Valid() && View() == Simulated(old(View()), motion) && bots == old(bots)
    {
      SimulatedInv(View(), motion);
      hide OneBodyEach;
      bodies := map h | h in bodies :: if h in motion then motion[h] else bodies[h];
    }

    method WriteOrHandOver()
      returns (posUpdates: seq<Write>, velUpdates: seq<Write>, folds: map<string, string>)
      requires Valid()
      modifies this`bots, this`bodies
      ensures Valid() && View() == Fold(cfg, old(View()))
      ensures forall w :: w in posUpdates <==> PosWrite(View(), w)
      ensures forall w :: w in velUpdates <==> VelWrite(View(), w)
      ensures Once(posUpdates) && Once(velUpdates)
      ensures forall e :: e in folds <==> e in old(bots) && e !in bots
      ensures forall e :: e in folds ==> Some(folds[e]) == TargetOf(cfg, BodyAt(old(bodies), old(bots)[e].handle).at)
    {
      hide PosWrite, VelWrite, OneBodyEach, BodyAt, TargetOf, Once, Leaves, Fold;
      ghost var moved := View();
      FoldInv(cfg, moved);
      FoldKeepsWrites(cfg, moved);
      FoldedBots(cfg, moved);
      posUpdates, folds := CollectPositions();
      DropFolded(folds);
      velUpdates := CollectVelocities();
    }

    method DropFolded(folds: map<string, string>)
      requires Valid() && forall e :: e in folds <==> Leaves(cfg, View(), e)
      modifies this`bots, this`bodies
      ensures View() == Fold(cfg, old(View()))
    {
      assert forall e :: e in folds ==> e in bots;
      hide Leaves;
      ghost var s := View();
      var todo := folds.Keys;
      ghost var gone: set<string> := {};
      assert bots == Kept(s, gone) && bodies == KeptBodies(s, gone) by { NothingGone(s); }
      while todo != {}
        invariant gone + todo == folds.Keys && gone !! todo
        invariant forall e :: e in folds ==> e in s.bots
        invariant bots == Kept(s, gone) && bodies == KeptBodies(s, gone)
        decreases todo
      {
        var e :| e in todo;
        todo := todo - {e};
        OneMoreGone(s, gone, e);
        DestroyBody(e);
        gone := gone + {e};
        hide Kept, KeptBodies;
      }
      AllGone(cfg, s, gone);
    }

    method CollectVelocities() returns (velUpdates: seq<Write>)
      ensures Once(velUpdates) && forall w :: w in velUpdates <==> VelWrite(View(), w)
    {
      velUpdates := [];
      var todo := bots.Keys;
      while todo != {}
        invariant todo <= bots.Keys && Once(velUpdates)
        invariant forall w :: w in velUpdates <==> VelWrite(View(), w) && w.entity !in todo
        decreases todo
      {
        var e :| e in todo;
        todo := todo - {e};
        var w := Write(e, "vel", BodyAt(bodies, bots[e].handle).velocity, bots[e].epoch);
        OnceMore(velUpdates, w);
        velUpdates := velUpdates + [w];
      }
    }

    method CollectPositions() returns (posUpdates: seq<Write>, folds: map<string, string>)
      ensures forall e :: e in folds <==> Leaves(cfg, View(), e)
      ensures forall e :: e in folds ==> e in bots && Some(folds[e]) == TargetOf(cfg, BodyAt(bodies, bots[e].handle).at)
      ensures Once(posUpdates) && forall w :: w in posUpdates <==> PosWrite(View(), w) && w.entity !in folds
    {
      hide TargetOf, BodyAt;
      posUpdates, folds := [], map[];
      var todo := bots.Keys;
      while todo != {}
        invariant todo <= bots.Keys && Once(posUpdates)
        invariant forall e :: e in folds <==> e in bots && e !in todo && Leaves(cfg, View(), e)
        invariant forall e :: e in folds ==> Some(folds[e]) == TargetOf(cfg, BodyAt(bodies, bots[e].handle).at)
        invariant forall w :: w in posUpdates <==> PosWrite(View(), w) && w.entity !in todo && w.entity !in folds
        decreases todo
      {
        var e :| e in todo;
        todo := todo - {e};
        var at := BodyAt(bodies, bots[e].handle).at;
        var target := TargetOf(cfg, at);
        if target.Some? {
          folds := folds[e := target.value];
        } else {
          var w := Write(e, "pos", at, bots[e].epoch);
          OnceMore(posUpdates, w);
          posUpdates := posUpdates + [w];
        }
      }
    }
  }

  predicate PosWrite(s: State, w: Write) {
    w.entity in s.bots &&
    w == Write(w.entity, "pos", BodyAt(s.bodies, s.bots[w.entity].handle).at, s.bots[w.entity].epoch)
  }

  predicate VelWrite(s: State, w: Write) {
    w.entity in s.bots &&
    w == Write(w.entity, "vel", BodyAt(s.bodies, s.bots[w.entity].handle).velocity, s.bots[w.entity].epoch)
  }

  /** Whatever the history, an update is written only while a grant stands, fenced with the latest. */
  lemma {:induction false} WritesAreFenced(cfg: Config, events: seq<Event>, w: Write)
    requires PosWrite(Run(cfg, events), w) || VelWrite(Run(cfg, events), w)
    ensures Held(cfg, events, w.entity) == Some(w.epoch)
  {
    EpochIsLatestGrant(cfg, events, w.entity);
    hide Run, Held, BodyAt;
  }

  // ---------------------------------------------------------------- dropping bodies one by one

  function Kept(s: State, gone: set<string>): map<string, Bot> { map e | e in s.bots && e !in gone :: s.bots[e] }

  function KeptBodies(s: State, gone: set<string>): map<nat, Rigid> {
    s.bodies - (set e | e in s.bots && e in gone :: s.bots[e].handle)
  }

  lemma {:induction false} NothingGone(s: State)
    ensures Kept(s, {}) == s.bots && KeptBodies(s, {}) == s.bodies
  {}

  lemma {:induction false} OneMoreGone(s: State, gone: set<string>, e: string)
    requires e in s.bots && e !in gone
    ensures e in Kept(s, gone) && Kept(s, gone)[e] == s.bots[e]
    ensures Kept(s, gone + {e}) == Kept(s, gone) - {e}
    ensures KeptBodies(s, gone + {e}) == KeptBodies(s, gone) - {s.bots[e].handle}
  {
    assert (set f | f in s.bots && f in gone + {e} :: s.bots[f].handle)
      == (set f | f in s.bots && f in gone :: s.bots[f].handle) + {s.bots[e].handle};
  }

  lemma {:induction false} AllGone(cfg: Config, s: State, gone: set<string>)
    requires forall e :: e in gone <==> Leaves(cfg, s, e)
    ensures s.(bots := Kept(s, gone), bodies := KeptBodies(s, gone)) == Fold(cfg, s)
  {
    assert forall e :: Leaves(cfg, s, e) ==> e in s.bots;
    hide Leaves;
    assert (set e | e in s.bots && e in gone :: s.bots[e].handle)
      == (set e | e in s.bots && Leaves(cfg, s, e) :: s.bots[e].handle);
  }

  lemma {:induction false} FoldedBots(cfg: Config, s: State)
    ensures forall e :: Leaves(cfg, s, e) <==> e in s.bots && e !in Fold(cfg, s).bots
  {
    hide TargetOf;
  }

  /** Dropping some bodies leaves the others' positions, and so what is written for them. */
  lemma {:induction false} FoldKeepsWrites(cfg: Config, s: State)
    requires OneBodyEach(s)
    ensures forall w :: PosWrite(Fold(cfg, s), w) <==> PosWrite(s, w) && !Leaves(cfg, s, w.entity)
  {
    var t := Fold(cfg, s);
    forall e | e in t.bots ensures BodyAt(t.bodies, t.bots[e].handle) == BodyAt(s.bodies, s.bots[e].handle) {
      KeepsBody(cfg, s, e);
    }
    hide Leaves, BodyAt;
  }

  lemma {:induction false} KeepsBody(cfg: Config, s: State, e: string)
    requires OneBodyEach(s) && e in s.bots && !Leaves(cfg, s, e)
    ensures BodyAt(Fold(cfg, s).bodies, s.bots[e].handle) == BodyAt(s.bodies, s.bots[e].handle)
  {
    hide Leaves;
  }
}
