/** One tick of the agar zone worker, examples/agar_mit_clone/gw_authoritative_zone_worker.js: who eats
    whom, and what becomes of the mass. */
module AgarTick {
  import opened Wrappers

  datatype Pos = Pos(x: real, y: real)

  datatype Body = Body(mass: real, kind: string, pos: Pos, vel: Pos, target: Option<Pos>, epoch: int)

  /** The geometry: a player's velocity and position after one step, the reach of a mass, the distance of
      two positions. */
  datatype Physics = Physics(advance: Body -> (Pos, Pos), eatRadius: real -> real, distance: (Pos, Pos) -> real)

  datatype Message =
    | DeleteEntity(entity: string, epoch: int)
    | UpdateMass(entity: string, mass: real, epoch: int)
    | BatchPos(updates: seq<(string, Pos, int)>)

  /** One absorption, with both masses at that moment and whether the eater was still owned. */
  datatype Meal = Meal(eater: string, eaten: string, eaterMass: real, eatenMass: real, food: bool, alive: bool)

  /** The bodies of all objects the worker refers to, the owned ones in order, and what the tick sent.
      A body that is no longer owned lives on in the snapshot that the tick walks through.  The last
      component records, for the theorems, every absorption. */
  datatype World = World(
    bodies: map<string, Body>,
    owned: seq<string>,
    sent: seq<Message>,
    posUpdates: seq<(string, Pos, int)>,
    meals: seq<Meal>)

  ghost predicate Distinct(ids: seq<string>) {
    forall i, j :: 0 <= i < j < |ids| ==> ids[i] != ids[j]
  }

  ghost predicate WellFormed(w: World) {
    Distinct(w.owned) && forall id :: id in w.owned ==> id in w.bodies
  }

  function Remove(ids: seq<string>, id: string): seq<string> {
    if ids == [] then []
    else if ids[0] == id then ids[1..]
    else [ids[0]] + Remove(ids[1..], id)
  }

  // ---------------------------------------------------------------- a tick

  predicate Edible(b: Body) { b.kind == "food" || b.kind == "player" }

  predicate Eats(ph: Physics, eater: Body, other: Body, reach: real) {
    && Edible(other)
    && eater.mass > other.mass * 1.1
    && ph.distance(other.pos, eater.pos) <= reach
  }

  function Absorb(w: World, id: string, other: string): World
    requires id in w.bodies && other in w.bodies
  {
    var eater, prey := w.bodies[id], w.bodies[other];
    w.(
      bodies := w.bodies[id := eater.(mass := eater.mass + prey.mass)],
      owned := Remove(w.owned, other),
      sent := w.sent + [DeleteEntity(other, if prey.epoch != 0 then prey.epoch else eater.epoch)],
      meals := w.meals + [Meal(id, other, eater.mass, prey.mass, prey.kind == "food", id in w.owned)])
  }

  function TryEat(ph: Physics, w: World, id: string, other: string, reach: real): World
    requires id in w.bodies && other in w.bodies
  {
    if other != id && Eats(ph, w.bodies[id], w.bodies[other], reach) then Absorb(w, id, other) else w
  }

  /** The inner loop over a snapshot of the owned entities. */
  function EatAll(ph: Physics, w: World, id: string, others: seq<string>, reach: real): (t: World)
    requires id in w.bodies && forall x :: x in others ==> x in w.bodies
    ensures t.bodies.Keys == w.bodies.Keys
  {
    if others == [] then w
    else
      var t := EatAll(ph, w, id, others[..|others| - 1], reach);
      TryEat(ph, t, id, others[|others| - 1], reach)
  }

  function Moved(ph: Physics, w: World, id: string): World
    requires id in w.bodies
  {
    var b := w.bodies[id];
    var step := ph.advance(b);
    w.(bodies := w.bodies[id := b.(vel := step.0, pos := step.1)])
  }

  function Report(w: World, id: string, ate: bool): World
    requires id in w.bodies
  {
    var b := w.bodies[id];
    w.(
      posUpdates := w.posUpdates + [(id, b.pos, b.epoch)],
      sent := if ate then w.sent + [UpdateMass(id, b.mass, b.epoch)] else w.sent)
  }

  /** One player's turn; other kinds do nothing. */
  function Turn(ph: Physics, w: World, id: string): (t: World)
    requires WellFormed(w) && id in w.bodies
    ensures t.bodies.Keys == w.bodies.Keys
  {
    if w.bodies[id].kind != "player" then w
    else
      var moved := Moved(ph, w, id);
      var fed := EatAll(ph, moved, id, moved.owned, ph.eatRadius(moved.bodies[id].mass));
      Report(fed, id, |fed.meals| > |w.meals|)
  }

  // ---------------------------------------------------------------- the mass over the owned entities

  function Mass(bodies: map<string, Body>, ids: seq<string>): real
    requires forall id :: id in ids ==> id in bodies
  {
    if ids == [] then 0.0 else bodies[ids[0]].mass + Mass(bodies, ids[1..])
  }

  function Total(w: World): real
    requires WellFormed(w)
  {
    Mass(w.bodies, w.owned)
  }

  /** The mass absorbed by players that had themselves been eaten before. */
  function LostMass(meals: seq<Meal>): real {
    if meals == [] then 0.0
    else
      var last := meals[|meals| - 1];
      LostMass(meals[..|meals| - 1]) + (if last.alive then 0.0 else last.eatenMass)
  }

  lemma {:induction false} TailDistinct(ids: seq<string>)
    requires Distinct(ids) && ids != []
    ensures Distinct(ids[1..]) && ids[0] !in ids[1..]
    ensures forall x :: x in ids <==> x == ids[0] || x in ids[1..]
  {
    assert forall i :: 0 <= i < |ids[1..]| ==> ids[1..][i] == ids[i + 1];
    assert ids == [ids[0]] + ids[1..];
  }

  lemma {:induction false} PrependDistinct(x: string, rest: seq<string>)
    requires Distinct(rest) && x !in rest
    ensures Distinct([x] + rest) && forall y :: y in [x] + rest <==> y == x || y in rest
  {}

  lemma {:induction false} RemoveMembers(ids: seq<string>, id: string)
    requires Distinct(ids)
    ensures Distinct(Remove(ids, id))
    ensures forall x :: x in Remove(ids, id) <==> x in ids && x != id
  {
    if ids != [] {
      TailDistinct(ids);
      hide Distinct;
      RemoveMembers(ids[1..], id);
      if ids[0] != id {
        PrependDistinct(ids[0], Remove(ids[1..], id));
      }
    }
  }

  lemma {:induction false} MassWithout(bodies: map<string, Body>, ids: seq<string>, id: string)
    requires Distinct(ids) && id in ids && forall x :: x in ids ==> x in bodies
    ensures forall x :: x in Remove(ids, id) ==> x in bodies
    ensures Mass(bodies, Remove(ids, id)) == Mass(bodies, ids) - bodies[id].mass
  {
    RemoveMembers(ids, id);
    if ids[0] != id {
      TailDistinct(ids);
      MassWithout(bodies, ids[1..], id);
      var r := Remove(ids, id);
      assert r[0] == ids[0] && r[1..] == Remove(ids[1..], id);
    }
  }

  /** Changing one body changes the mass of a list by the difference, if the body is on it. */
  lemma {:induction false} MassUpdate(bodies: map<string, Body>, ids: seq<string>, id: string, b: Body)
    requires Distinct(ids) && id in bodies && forall x :: x in ids ==> x in bodies
    ensures Mass(bodies[id := b], ids) == Mass(bodies, ids) + (if id in ids then b.mass - bodies[id].mass else 0.0)
  {
    if ids != [] {
      TailDistinct(ids);
      MassUpdate(bodies, ids[1..], id, b);
    }
  }

  // ---------------------------------------------------------------- what every step keeps

  /** How a later world relates to an earlier one. */
  ghost predicate Accounts(w: World, t: World) {
    && WellFormed(w) && WellFormed(t)
    && t.bodies.Keys == w.bodies.Keys
    && Total(t) + LostMass(t.meals) == Total(w) + LostMass(w.meals)
    && w.meals <= t.meals
    && (forall id :: id in t.owned <==> id in w.owned && !EatenSince(w, t, id))
    && (forall m :: m in t.meals[|w.meals|..] ==> m.eaterMass > m.eatenMass * 1.1 && m.eaten in w.owned)
    && (forall id :: id in w.bodies ==> t.bodies[id].kind == w.bodies[id].kind)
  }

  ghost predicate EatenSince(w: World, t: World, id: string) {
    |w.meals| <= |t.meals| && exists m :: m in t.meals[|w.meals|..] && m.eaten == id
  }

  lemma {:induction false} AccountsSelf(w: World)
    requires WellFormed(w)
    ensures Accounts(w, w)
  {}

  lemma {:induction false} AccountsTrans(u: World, w: World, t: World)
    requires Accounts(u, w) && Accounts(w, t)
    ensures Accounts(u, t)
  {
    hide Total, LostMass, WellFormed;
    var a, b := w.meals[|u.meals|..], t.meals[|w.meals|..];
    assert t.meals == u.meals + a + b;
    assert t.meals[|u.meals|..] == a + b;
    forall id ensures EatenSince(u, t, id) <==> EatenSince(u, w, id) || EatenSince(w, t, id) {
      if EatenSince(u, t, id) {
        var m :| m in t.meals[|u.meals|..] && m.eaten == id;
        assert m in a || m in b;
      }
      if EatenSince(u, w, id) {
        var m :| m in a && m.eaten == id;
        assert m in a + b;
      }
      if EatenSince(w, t, id) {
        var m :| m in b && m.eaten == id;
        assert m in a + b;
      }
    }
  }

  lemma {:induction false} LostMassGrows(meals: seq<Meal>, m: Meal)
    ensures LostMass(meals + [m]) == LostMass(meals) + (if m.alive then 0.0 else m.eatenMass)
  {
    assert (meals + [m])[..|meals|] == meals;
  }

  lemma {:induction false} AbsorbAccounts(ph: Physics, w: World, id: string, other: string, reach: real)
    requires WellFormed(w) && id in w.bodies && other in w.owned && other != id
    requires Eats(ph, w.bodies[id], w.bodies[other], reach)
    ensures Accounts(w, Absorb(w, id, other))
    ensures Absorb(w, id, other).owned == Remove(w.owned, other)
  {
    var eater, prey := w.bodies[id], w.bodies[other];
    var t := Absorb(w, id, other);
    var fed := eater.(mass := eater.mass + prey.mass);
    RemoveMembers(w.owned, other);
    MassUpdate(w.bodies, w.owned, id, fed);
    MassWithout(w.bodies[id := fed], w.owned, other);
    var meal := t.meals[|w.meals|];
    LostMassGrows(w.meals, meal);
    assert t.meals[|w.meals|..] == [meal];
    assert meal in t.meals[|w.meals|..];
  }

  lemma {:induction false} EatAllAccounts(ph: Physics, w: World, id: string, others: seq<string>, reach: real)
    requires WellFormed(w) && id in w.bodies && Distinct(others) && forall x :: x in others ==> x in w.owned
    ensures Accounts(w, EatAll(ph, w, id, others, reach))
    ensures forall x :: x in w.owned && x !in others ==> x in EatAll(ph, w, id, others, reach).owned
  {
    if others == [] {
      AccountsSelf(w);
    } else {
      var init, last := others[..|others| - 1], others[|others| - 1];
      EatAllAccounts(ph, w, id, init, reach);
      var t := EatAll(ph, w, id, init, reach);
      assert last !in init;
      if last != id && Eats(ph, t.bodies[id], t.bodies[last], reach) {
        AbsorbAccounts(ph, t, id, last, reach);
        RemoveMembers(t.owned, last);
        AccountsTrans(w, t, Absorb(t, id, last));
      }
      hide Accounts, Eats, Absorb;
    }
  }

  lemma {:induction false} MovedAccounts(ph: Physics, w: World, id: string)
    requires WellFormed(w) && id in w.bodies
    ensures Accounts(w, Moved(ph, w, id)) && Moved(ph, w, id).owned == w.owned
  {
    var b := w.bodies[id];
    var step := ph.advance(b);
    MassUpdate(w.bodies, w.owned, id, b.(vel := step.0, pos := step.1));
  }

  lemma {:induction false} TurnAccounts(ph: Physics, w: World, id: string)
    requires WellFormed(w) && id in w.bodies
    ensures Accounts(w, Turn(ph, w, id))
  {
    if w.bodies[id].kind != "player" {
      AccountsSelf(w);
    } else {
      MovedAccounts(ph, w, id);
      var moved := Moved(ph, w, id);
      var reach := ph.eatRadius(moved.bodies[id].mass);
      EatAllAccounts(ph, moved, id, moved.owned, reach);
      var fed := EatAll(ph, moved, id, moved.owned, reach);
      AccountsTrans(w, moved, fed);
      ReportAccounts(fed, id, |fed.meals| > |w.meals|);
      hide Accounts, Report, Moved, EatAll;
      AccountsTrans(w, fed, Report(fed, id, |fed.meals| > |w.meals|));
    }
  }

  lemma {:induction false} ReportAccounts(w: World, id: string, ate: bool)
    requires WellFormed(w) && id in w.bodies
    ensures Accounts(w, Report(w, id, ate))
  {
    AccountsSelf(w);
  }

  /** The outer loop over the snapshot of the tick. */
  function Turns(ph: Physics, w: World, ids: seq<string>): (t: World)
    requires WellFormed(w) && forall x :: x in ids ==> x in w.bodies
    ensures WellFormed(t) && t.bodies.Keys == w.bodies.Keys
  {
    if ids == [] then w
    else
      var t := Turns(ph, w, ids[..|ids| - 1]);
      TurnAccounts(ph, t, ids[|ids| - 1]);
      Turn(ph, t, ids[|ids| - 1])
  }

  function Tick(ph: Physics, w: World): World
    requires WellFormed(w)
  {
    var t := Turns(ph, Fresh(w), w.owned);
    if t.posUpdates != [] then t.(sent := t.sent + [BatchPos(t.posUpdates)]) else t
  }

  lemma {:induction false} TurnsAccount(ph: Physics, w: World, ids: seq<string>)
    requires WellFormed(w) && forall x :: x in ids ==> x in w.bodies
    ensures Accounts(w, Turns(ph, w, ids))
  {
    if ids == [] {
      AccountsSelf(w);
    } else {
      var t := Turns(ph, w, ids[..|ids| - 1]);
      TurnsAccount(ph, w, ids[..|ids| - 1]);
      TurnAccounts(ph, t, ids[|ids| - 1]);
      hide Accounts, Turn;
      AccountsTrans(w, t, Turn(ph, t, ids[|ids| - 1]));
    }
  }

  // ---------------------------------------------------------------- the theorems

  /** The world a tick starts from: its books empty. */
  function Fresh(w: World): World { w.(posUpdates := [], meals := []) }

  lemma {:induction false} TickAccounts(ph: Physics, w: World)
    requires WellFormed(w)
    ensures Accounts(Fresh(w), Turns(ph, Fresh(w), w.owned))
    ensures var t := Turns(ph, Fresh(w), w.owned);
      Tick(ph, w).bodies == t.bodies && Tick(ph, w).owned == t.owned && Tick(ph, w).meals == t.meals
      && Tick(ph, w).posUpdates == t.posUpdates
  {
    TurnsAccount(ph, Fresh(w), w.owned);
    hide Turns;
  }

  /** The mass over the owned entities changes by exactly what eaten players went on to absorb. */
  lemma {:induction false} MassIsAccounted(ph: Physics, w: World)
    requires WellFormed(w)
    ensures WellFormed(Tick(ph, w))
    ensures Total(Tick(ph, w)) + LostMass(Tick(ph, w).meals) == Total(w)
  {
    TickAccounts(ph, w);
    hide Tick, Turns;
    assert LostMass([]) == 0.0;
  }

  /** What a tick deletes is what was eaten, each by something more than a tenth heavier. */
  lemma {:induction false} DeletedWereEaten(ph: Physics, w: World, id: string)
    requires WellFormed(w) && id in w.owned
    ensures id !in Tick(ph, w).owned <==> exists m :: m in Tick(ph, w).meals && m.eaten == id
    ensures forall m :: m in Tick(ph, w).meals ==> m.eaterMass > m.eatenMass * 1.1
  {
    TickAccounts(ph, w);
    var t := Turns(ph, Fresh(w), w.owned);
    hide Tick, Turns;
    assert t.meals[0..] == t.meals;
    assert EatenSince(Fresh(w), t, id) <==> exists m :: m in t.meals && m.eaten == id;
  }

  // ---------------------------------------------------------------- when mass is conserved

  /** Every dead eater was eaten earlier. */
  ghost predicate Explained(meals: seq<Meal>) {
    forall m :: m in meals && !m.alive ==> exists n :: n in meals && n.eaten == m.eater
  }

  /** What every absorption of a tick was. */
  ghost predicate Told(start: World, meals: seq<Meal>) {
    Explained(meals) && forall m :: m in meals ==>
      && m.eaten in start.bodies && (m.food <==> start.bodies[m.eaten].kind == "food")
      && m.eater in start.bodies && start.bodies[m.eater].kind == "player"
  }

  predicate Weighs(strict: bool, mass: real) { mass > 0.0 || (!strict && mass == 0.0) }

  /** The listed bodies have a positive mass, or at least no negative one. */
  ghost predicate Hearty(strict: bool, ids: seq<string>, bodies: map<string, Body>) {
    forall id :: id in ids ==> id in bodies && Weighs(strict, bodies[id].mass)
  }

  ghost predicate Nourishing(strict: bool, meals: seq<Meal>) {
    forall m :: m in meals ==> Weighs(strict, m.eatenMass)
  }

  ghost predicate Healthy(strict: bool, ids: seq<string>, w: World) {
    Hearty(strict, ids, w.bodies) && Nourishing(strict, w.meals)
  }

  lemma {:induction false} ExplainedMore(meals: seq<Meal>, last: Meal)
    requires Explained(meals) && (last.alive || exists n :: n in meals && n.eaten == last.eater)
    ensures Explained(meals + [last])
  {
    forall m | m in meals + [last] && !m.alive
      ensures exists n :: n in meals + [last] && n.eaten == m.eater
    {
      var n :| n in meals && n.eaten == m.eater;
      assert n in meals + [last];
    }
  }

  lemma {:induction false} EatenBefore(start: World, w: World, id: string)
    requires start.meals == [] && Accounts(start, w) && id in start.owned && id !in w.owned
    ensures exists n :: n in w.meals && n.eaten == id
  {
    assert EatenSince(start, w, id);
    var n :| n in w.meals[0..] && n.eaten == id;
  }

  lemma {:induction false} AbsorbTold(strict: bool, start: World, w: World, id: string, other: string)
    requires start.meals == [] && Accounts(start, w) && Told(start, w.meals)
    requires id in start.owned && start.bodies[id].kind == "player" && other in w.owned
    ensures id in w.bodies && other in w.bodies && Told(start, Absorb(w, id, other).meals)
    ensures Healthy(strict, start.owned, w) ==> Healthy(strict, start.owned, Absorb(w, id, other))
  {
    hide Total, LostMass, Distinct, Explained;
    if id !in w.owned {
      EatenBefore(start, w, id);
    }
    var t := Absorb(w, id, other);
    var last := t.meals[|w.meals|];
    assert t.meals == w.meals + [last];
    assert other in start.owned;
    ExplainedMore(w.meals, last);
    if Healthy(strict, start.owned, w) {
      AbsorbHealthy(strict, start.owned, w, id, other);
    }
    hide Healthy;
  }

  lemma {:induction false} AbsorbHealthy(strict: bool, ids: seq<string>, w: World, id: string, other: string)
    requires Healthy(strict, ids, w) && other in ids && id in w.bodies && other in w.bodies
    ensures Healthy(strict, ids, Absorb(w, id, other))
  {
    assert Weighs(strict, w.bodies[other].mass);
    assert id in ids ==> Weighs(strict, w.bodies[id].mass);
    hide Remove;
  }

  lemma {:induction false} EatAllTold(ph: Physics, strict: bool, start: World, w: World, id: string,
                                      others: seq<string>, reach: real)
    requires start.meals == [] && Accounts(start, w) && Told(start, w.meals)
    requires id in start.owned && start.bodies[id].kind == "player"
    requires Distinct(others) && forall x :: x in others ==> x in w.owned
    ensures id in w.bodies && Told(start, EatAll(ph, w, id, others, reach).meals)
    ensures Healthy(strict, start.owned, w) ==> Healthy(strict, start.owned, EatAll(ph, w, id, others, reach))
  {
    if others != [] {
      var init, last := others[..|others| - 1], others[|others| - 1];
      EatAllTold(ph, strict, start, w, id, init, reach);
      EatAllAccounts(ph, w, id, init, reach);
      var t := EatAll(ph, w, id, init, reach);
      AccountsTrans(start, w, t);
      AbsorbTold(strict, start, t, id, last);
      assert last in t.owned;
      hide Told, Healthy, Accounts, Absorb, Eats;
    }
  }

  lemma {:induction false} MovedHealthy(ph: Physics, strict: bool, ids: seq<string>, w: World, id: string)
    requires id in w.bodies
    ensures Healthy(strict, ids, w) ==> Healthy(strict, ids, Moved(ph, w, id))
    ensures Moved(ph, w, id).meals == w.meals
  {}

  lemma {:induction false} TurnTold(ph: Physics, strict: bool, start: World, w: World, id: string)
    requires start.meals == [] && Accounts(start, w) && Told(start, w.meals) && id in start.owned
    ensures id in w.bodies && Told(start, Turn(ph, w, id).meals)
    ensures Healthy(strict, start.owned, w) ==> Healthy(strict, start.owned, Turn(ph, w, id))
  {
    assert id in w.bodies && w.bodies[id].kind == start.bodies[id].kind;
    if w.bodies[id].kind == "player" {
      MovedAccounts(ph, w, id);
      MovedHealthy(ph, strict, start.owned, w, id);
      var moved := Moved(ph, w, id);
      AccountsTrans(start, w, moved);
      EatAllTold(ph, strict, start, moved, id, moved.owned, ph.eatRadius(moved.bodies[id].mass));
      TurnKeeps(ph, w, id);
      hide Told, EatAll, Accounts, Turn, Hearty, Nourishing;
    }
  }

  /** A player's turn beyond eating touches neither masses nor the record. */
  lemma {:induction false} TurnKeeps(ph: Physics, w: World, id: string)
    requires WellFormed(w) && id in w.bodies && w.bodies[id].kind == "player"
    ensures
      var moved := Moved(ph, w, id);
      var fed := EatAll(ph, moved, id, moved.owned, ph.eatRadius(moved.bodies[id].mass));
      Turn(ph, w, id).bodies == fed.bodies && Turn(ph, w, id).meals == fed.meals
  {
    hide EatAll;
  }

  lemma {:induction false} TurnsTold(ph: Physics, strict: bool, start: World, ids: seq<string>)
    requires WellFormed(start) && start.meals == [] && forall x :: x in ids ==> x in start.owned
    ensures Told(start, Turns(ph, start, ids).meals)
    ensures Healthy(strict, start.owned, start) ==> Healthy(strict, start.owned, Turns(ph, start, ids))
  {
    if ids != [] {
      var init, last := ids[..|ids| - 1], ids[|ids| - 1];
      TurnsTold(ph, strict, start, init);
      TurnsAccount(ph, start, init);
      TurnTold(ph, strict, start, Turns(ph, start, init), last);
      hide Told, Healthy, Accounts, Turn;
    }
  }

  lemma {:induction false} LostMassSign(strict: bool, meals: seq<Meal>)
    requires Nourishing(strict, meals)
    ensures LostMass(meals) >= 0.0
    ensures strict ==> (LostMass(meals) == 0.0 <==> forall m :: m in meals ==> m.alive)
  {
    if meals != [] {
      var init, last := meals[..|meals| - 1], meals[|meals| - 1];
      assert meals == init + [last];
      LostMassSign(strict, init);
    }
  }

  /** If no owned mass is negative, a tick never adds mass; if all are positive, it conserves mass
      exactly when no player ate after being eaten. */
  lemma {:induction false} NeverGains(ph: Physics, strict: bool, w: World)
    requires WellFormed(w) && Hearty(strict, w.owned, w.bodies)
    ensures WellFormed(Tick(ph, w)) && Total(Tick(ph, w)) <= Total(w)
    ensures strict ==> (Total(Tick(ph, w)) == Total(w) <==> forall m :: m in Tick(ph, w).meals ==> m.alive)
  {
    MassIsAccounted(ph, w);
    TickAccounts(ph, w);
    TurnsTold(ph, strict, Fresh(w), w.owned);
    hide Tick, Turns, Told;
    LostMassSign(strict, Tick(ph, w).meals);
  }

  /** If only food is eaten, mass is conserved. */
  lemma {:induction false} OnlyFoodConserves(ph: Physics, w: World)
    requires WellFormed(w) && forall m :: m in Tick(ph, w).meals ==> m.food
    ensures WellFormed(Tick(ph, w)) && Total(Tick(ph, w)) == Total(w)
  {
    MassIsAccounted(ph, w);
    TickAccounts(ph, w);
    TurnsTold(ph, false, Fresh(w), w.owned);
    var meals := Tick(ph, w).meals;
    hide Tick, Turns;
    NothingLost(meals);
  }

  lemma {:induction false} NothingLost(meals: seq<Meal>)
    requires forall m :: m in meals ==> m.alive
    ensures LostMass(meals) == 0.0
  {
    if meals != [] {
      assert meals[|meals| - 1] in meals;
      NothingLost(meals[..|meals| - 1]);
    }
  }

  // ---------------------------------------------------------------- a player eaten earlier still moves

  function Players(bodies: map<string, Body>, ids: seq<string>): seq<string>
    requires forall id :: id in ids ==> id in bodies
  {
    if ids == [] then []
    else
      var last := ids[|ids| - 1];
      Players(bodies, ids[..|ids| - 1]) + (if bodies[last].kind == "player" then [last] else [])
  }

  function Reported(updates: seq<(string, Pos, int)>): seq<string> {
    seq(|updates|, i requires 0 <= i < |updates| => updates[i].0)
  }

  lemma {:induction false} TurnsReport(ph: Physics, w: World, ids: seq<string>)
    requires WellFormed(w) && w.posUpdates == [] && forall x :: x in ids ==> x in w.bodies
    ensures Reported(Turns(ph, w, ids).posUpdates) == Players(w.bodies, ids)
  {
    if ids != [] {
      var init, last := ids[..|ids| - 1], ids[|ids| - 1];
      TurnsReport(ph, w, init);
      TurnsAccount(ph, w, init);
      var t := Turns(ph, w, init);
      TurnReports(ph, t, last);
      assert t.bodies[last].kind == w.bodies[last].kind;
      hide Turn, Accounts;
    }
  }

  lemma {:induction false} EatAllKeepsReports(ph: Physics, w: World, id: string, others: seq<string>, reach: real)
    requires id in w.bodies && forall x :: x in others ==> x in w.bodies
    ensures EatAll(ph, w, id, others, reach).posUpdates == w.posUpdates
  {
    if others != [] {
      EatAllKeepsReports(ph, w, id, others[..|others| - 1], reach);
    }
  }

  lemma {:induction false} TurnReports(ph: Physics, w: World, id: string)
    requires WellFormed(w) && id in w.bodies
    ensures Reported(Turn(ph, w, id).posUpdates)
      == Reported(w.posUpdates) + (if w.bodies[id].kind == "player" then [id] else [])
  {
    if w.bodies[id].kind == "player" {
      var moved := Moved(ph, w, id);
      EatAllKeepsReports(ph, moved, id, moved.owned, ph.eatRadius(moved.bodies[id].mass));
      hide EatAll;
    }
  }

  /** The position report lists every player of the snapshot in order, eaten earlier in the tick or not. */
  lemma {:induction false} EveryPlayerReports(ph: Physics, w: World)
    requires WellFormed(w)
    ensures Reported(Tick(ph, w).posUpdates) == Players(w.bodies, w.owned)
  {
    TickAccounts(ph, w);
    TurnsReport(ph, Fresh(w), w.owned);
    hide Tick, Turns, Players;
  }
}
