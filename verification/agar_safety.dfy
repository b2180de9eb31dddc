/** When a tick conserves mass, by what a reader can see before it: no player that could be eaten
    before its own turn can still eat on it. */
module AgarSafety {
  import opened Wrappers
  import opened AgarTick

  // ---------------------------------------------------------------- the conditions

  /** No owned mass is negative. */
  ghost predicate Weighty(w: World) { Hearty(false, w.owned, w.bodies) }

  /** Where player p will stand on its turn, q is out of its reach. */
  predicate OutOfReach(ph: Physics, p: Body, q: Body) {
    ph.distance(q.pos, ph.advance(p).1) > ph.eatRadius(p.mass)
  }

  /** Nothing in the zone can grow heavy enough to eat q. */
  ghost predicate TooHeavy(w: World, q: Body)
    requires WellFormed(w)
  {
    Weighty(w) && Total(w) <= q.mass * 2.1
  }

  /** q is not more than a tenth heavier than anything else: it cannot eat. */
  ghost predicate Harmless(w: World, q: string)
    requires WellFormed(w) && q in w.owned
  {
    Weighty(w) && forall r :: r in w.owned && r != q ==> w.bodies[q].mass <= w.bodies[r].mass * 1.1
  }

  /** Every player behind another one in the order of turns is harmless or spared by it. */
  ghost predicate Safe(ph: Physics, w: World)
    requires WellFormed(w)
  {
    forall i, j :: 0 <= i < j < |w.owned| ==>
      var p, q := w.bodies[w.owned[i]], w.bodies[w.owned[j]];
      p.kind == "player" && q.kind == "player" ==>
        Harmless(w, w.owned[j]) || TooHeavy(w, q) || OutOfReach(ph, p, q)
  }

  // ---------------------------------------------------------------- one turn

  ghost predicate AllAlive(meals: seq<Meal>) { forall m :: m in meals ==> m.alive }

  /** What holds after some turns: nothing is lost yet, and masses have only grown. */
  ghost predicate Kept(start: World, t: World) {
    && start.meals == [] && Accounts(start, t) && AllAlive(t.meals)
    && (Weighty(start) ==> Healthy(false, start.owned, t))
    && (Weighty(start) ==> forall x :: x in start.owned ==> t.bodies[x].mass >= start.bodies[x].mass)
  }

  lemma {:induction false} KeptTotal(start: World, t: World)
    requires Kept(start, t)
    ensures WellFormed(start) && WellFormed(t) && Total(t) == Total(start)
  {
    NothingLost(t.meals);
    assert LostMass([]) == 0.0;
  }

  lemma {:induction false} TwoMasses(bodies: map<string, Body>, ids: seq<string>, p: string, q: string)
    requires Distinct(ids) && Hearty(false, ids, bodies) && p in ids && q in ids && p != q
    ensures bodies[p].mass + bodies[q].mass <= Mass(bodies, ids)
  {
    RemoveMembers(ids, p);
    MassWithout(bodies, ids, p);
    MassWithout(bodies, Remove(ids, p), q);
    RemoveMembers(Remove(ids, p), q);
    MassSign(bodies, Remove(Remove(ids, p), q));
  }

  lemma {:induction false} MassSign(bodies: map<string, Body>, ids: seq<string>)
    requires Hearty(false, ids, bodies)
    ensures Mass(bodies, ids) >= 0.0
  {
    if ids != [] {
      assert Weighs(false, bodies[ids[0]].mass);
      MassSign(bodies, ids[1..]);
    }
  }

  /** In the middle of a turn of a living player, a body that is too heavy is safe. */
  lemma {:induction false} HeavyIsSafe(ph: Physics, start: World, u: World, id: string, q: string, reach: real)
    requires Kept(start, u) && WellFormed(start) && id in u.owned && q in u.owned && id != q
    requires TooHeavy(start, u.bodies[q])
    ensures !Eats(ph, u.bodies[id], u.bodies[q], reach)
  {
    KeptTotal(start, u);
    OwnedHearty(start, u);
    TwoMasses(u.bodies, u.owned, id, q);
  }

  lemma {:induction false} OwnedHearty(start: World, u: World)
    requires Kept(start, u) && Weighty(start)
    ensures Hearty(false, u.owned, u.bodies)
  {
    forall x | x in u.owned ensures x in u.bodies && Weighs(false, u.bodies[x].mass) {
      assert x in start.owned;
    }
  }

  /** A later player in the middle of a turn: not yet moved, and spared by the player whose turn it is. */
  ghost predicate Spared(ph: Physics, start: World, u: World, id: string, q: string, reach: real)
    requires WellFormed(start)
  {
    && id in u.bodies && q in u.bodies && q != id && q in u.owned
    && (TooHeavy(start, u.bodies[q]) || ph.distance(u.bodies[q].pos, u.bodies[id].pos) > reach)
  }

  lemma {:induction false} AbsorbKept(ph: Physics, start: World, u: World, id: string, other: string, reach: real)
    requires Kept(start, u) && id in u.owned && other in u.owned && other != id
    requires Eats(ph, u.bodies[id], u.bodies[other], reach) && start.bodies[id].kind == "player"
    requires Told(start, u.meals)
    ensures Kept(start, Absorb(u, id, other)) && id in Absorb(u, id, other).owned
    ensures Told(start, Absorb(u, id, other).meals)
  {
    AbsorbAccounts(ph, u, id, other, reach);
    AccountsTrans(start, u, Absorb(u, id, other));
    AbsorbTold(false, start, u, id, other);
    RemoveMembers(u.owned, other);
    AbsorbGrows(start, u, id, other);
    hide Accounts, Told, Healthy, Eats;
  }

  lemma {:induction false} AbsorbGrows(start: World, u: World, id: string, other: string)
    requires Kept(start, u) && id in u.owned && other in u.owned && other != id
    ensures AllAlive(Absorb(u, id, other).meals)
    ensures forall x :: x in u.bodies && x != id ==> Absorb(u, id, other).bodies[x] == u.bodies[x]
    ensures Weighty(start) ==> forall x :: x in start.owned ==>
      x in u.bodies && Absorb(u, id, other).bodies[x].mass >= start.bodies[x].mass
  {
    if Weighty(start) {
      OwnedHearty(start, u);
      assert Weighs(false, u.bodies[other].mass);
    }
  }

  /** The meals of a living player whose later fellows are spared. */
  lemma {:induction false} LivingEats(ph: Physics, start: World, u: World, id: string, others: seq<string>, reach: real,
                                      later: set<string>)
    requires Kept(start, u) && Told(start, u.meals) && id in u.owned && start.bodies[id].kind == "player"
    requires Distinct(others) && forall x :: x in others ==> x in u.owned
    requires forall q :: q in later ==> Spared(ph, start, u, id, q, reach)
    ensures var t := EatAll(ph, u, id, others, reach);
      && Kept(start, t) && Told(start, t.meals) && id in t.owned && t.bodies[id].pos == u.bodies[id].pos
      && (forall x :: x in u.bodies && x != id ==> t.bodies[x] == u.bodies[x])
      && (forall q :: q in later ==> Spared(ph, start, t, id, q, reach))
  {
    if others != [] {
      var init, last := others[..|others| - 1], others[|others| - 1];
      assert last !in init;
      LivingEats(ph, start, u, id, init, reach, later);
      EatAllAccounts(ph, u, id, init, reach);
      var t := EatAll(ph, u, id, init, reach);
      assert last in t.owned;
      OneMoreMeal(ph, start, t, id, last, reach, later);
      hide Kept, Told, Spared, Accounts, TryEat;
    }
  }

  lemma {:induction false} OneMoreMeal(ph: Physics, start: World, u: World, id: string, other: string, reach: real,
                                       later: set<string>)
    requires Kept(start, u) && Told(start, u.meals) && id in u.owned && other in u.owned
    requires start.bodies[id].kind == "player"
    requires forall q :: q in later ==> Spared(ph, start, u, id, q, reach)
    ensures var t := TryEat(ph, u, id, other, reach);
      && Kept(start, t) && Told(start, t.meals) && id in t.owned && t.bodies[id].pos == u.bodies[id].pos
      && (forall x :: x in u.bodies && x != id ==> t.bodies[x] == u.bodies[x])
      && (forall q :: q in later ==> Spared(ph, start, t, id, q, reach))
  {
    if other != id && Eats(ph, u.bodies[id], u.bodies[other], reach) {
      if other in later && TooHeavy(start, u.bodies[other]) {
        HeavyIsSafe(ph, start, u, id, other, reach);
      }
      assert other !in later;
      AbsorbKept(ph, start, u, id, other, reach);
      AbsorbGrows(start, u, id, other);
      RemoveMembers(u.owned, other);
      hide Kept, Told, TooHeavy, Eats, Distinct;
    }
  }

  /** A player no heavier than a tenth above everything else eats nothing, owned or not. */
  lemma {:induction false} HarmlessEatsNothing(ph: Physics, u: World, id: string, others: seq<string>, reach: real)
    requires id in u.bodies && forall x :: x in others ==> x in u.bodies
    requires forall x :: x in others && x != id ==> u.bodies[id].mass <= u.bodies[x].mass * 1.1
    ensures EatAll(ph, u, id, others, reach) == u
  {
    if others != [] {
      HarmlessEatsNothing(ph, u, id, others[..|others| - 1], reach);
    }
  }

  // ---------------------------------------------------------------- the turns of a tick

  /** The players behind position k that are not harmless. */
  ghost predicate LaterEater(w: World, k: nat, q: string)
    requires WellFormed(w)
  {
    exists j :: k <= j < |w.owned| && w.owned[j] == q && w.bodies[q].kind == "player" && !Harmless(w, q)
  }

  /** Before the k-th turn: nobody behind has moved or grown, and whoever can eat is still owned. */
  ghost predicate Steady(start: World, k: nat, t: World)
    requires WellFormed(start)
  {
    && Kept(start, t) && Told(start, t.meals)
    && (forall j :: k <= j < |start.owned| ==>
          start.owned[j] in t.bodies && t.bodies[start.owned[j]] == start.bodies[start.owned[j]])
    && (forall q :: LaterEater(start, k, q) ==> q in t.owned)
  }

  lemma {:induction false} MovedKept(ph: Physics, start: World, t: World, id: string)
    requires Kept(start, t) && id in t.bodies
    ensures Kept(start, Moved(ph, t, id))
  {
    MovedAccounts(ph, t, id);
    AccountsTrans(start, t, Moved(ph, t, id));
    hide Accounts;
  }

  lemma {:induction false} ReportKept(start: World, t: World, id: string, ate: bool)
    requires Kept(start, t) && id in t.bodies
    ensures Kept(start, Report(t, id, ate))
  {
    ReportAccounts(t, id, ate);
    AccountsTrans(start, t, Report(t, id, ate));
    hide Accounts;
  }

  /** Spared in the state before the turn, spared in the turn. */
  lemma {:induction false} SparedOnTurn(ph: Physics, start: World, k: nat, t: World, q: string)
    requires WellFormed(start) && Safe(ph, start) && k < |start.owned| && Steady(start, k, t)
    requires start.bodies[start.owned[k]].kind == "player" && LaterEater(start, k + 1, q)
    ensures var id := start.owned[k];
      id in t.bodies && var m := Moved(ph, t, id); Spared(ph, start, m, id, q, ph.eatRadius(m.bodies[id].mass))
  {
    SafeFromMover(ph, start, k, q);
    assert LaterEater(start, k, q);
    UnmovedYet(start, k, t, q);
    hide Kept, Told, Harmless, TooHeavy, LaterEater, Safe;
  }

  lemma {:induction false} SafeFromMover(ph: Physics, start: World, k: nat, q: string)
    requires WellFormed(start) && Safe(ph, start) && k < |start.owned|
    requires start.bodies[start.owned[k]].kind == "player" && LaterEater(start, k + 1, q)
    ensures q in start.bodies && q != start.owned[k]
    ensures TooHeavy(start, start.bodies[q]) || OutOfReach(ph, start.bodies[start.owned[k]], start.bodies[q])
    ensures LaterEater(start, k, q)
  {
    var j :| k + 1 <= j < |start.owned| && start.owned[j] == q && start.bodies[q].kind == "player"
      && !Harmless(start, q);
    hide Harmless, TooHeavy, OutOfReach;
  }

  lemma {:induction false} UnmovedYet(start: World, k: nat, t: World, q: string)
    requires WellFormed(start) && k < |start.owned| && Steady(start, k, t) && LaterEater(start, k, q)
    ensures start.owned[k] in t.bodies && t.bodies[start.owned[k]] == start.bodies[start.owned[k]]
    ensures q in t.bodies && t.bodies[q] == start.bodies[q] && q in t.owned
  {
    hide Kept, Told, Harmless;
  }

  /** The meals of a player that is still owned on its turn. */
  lemma {:induction false} LivingMeals(ph: Physics, start: World, k: nat, t: World, m: World, fed: World)
    requires WellFormed(start) && Safe(ph, start) && k < |start.owned| && Steady(start, k, t)
    requires start.owned[k] in t.owned && start.bodies[start.owned[k]].kind == "player"
    requires start.owned[k] in t.bodies && m == Moved(ph, t, start.owned[k])
    requires WellFormed(m) && fed == EatAll(ph, m, start.owned[k], m.owned, ph.eatRadius(m.bodies[start.owned[k]].mass))
    ensures Kept(start, fed) && Told(start, fed.meals)
    ensures forall x :: x in m.bodies && x != start.owned[k] ==> fed.bodies[x] == m.bodies[x]
    ensures forall q :: LaterEater(start, k + 1, q) ==> q in fed.owned
  {
    var id := start.owned[k];
    var reach := ph.eatRadius(m.bodies[id].mass);
    MovedKept(ph, start, t, id);
    var later := set q | q in start.owned && LaterEater(start, k + 1, q);
    forall q | q in later ensures Spared(ph, start, m, id, q, reach) {
      SparedOnTurn(ph, start, k, t, q);
    }
    hide Kept, Told, Safe, EatAll, Distinct, Harmless;
    LivingEats(ph, start, m, id, m.owned, reach, later);
    forall q | LaterEater(start, k + 1, q) ensures q in fed.owned {
      assert q in later;
      assert Spared(ph, start, fed, id, q, reach);
    }
  }

  /** The turn of a player that is still owned. */
  lemma {:induction false} LivingTurn(ph: Physics, start: World, k: nat, t: World)
    requires WellFormed(start) && Safe(ph, start) && k < |start.owned| && Steady(start, k, t)
    requires start.owned[k] in t.owned && start.bodies[start.owned[k]].kind == "player"
    ensures WellFormed(t) && start.owned[k] in t.bodies && Steady(start, k + 1, Turn(ph, t, start.owned[k]))
  {
    var id := start.owned[k];
    var m := Moved(ph, t, id);
    MovedAccounts(ph, t, id);
    var fed := EatAll(ph, m, id, m.owned, ph.eatRadius(m.bodies[id].mass));
    LivingMeals(ph, start, k, t, m, fed);
    ReportKept(start, fed, id, |fed.meals| > |t.meals|);
    hide Kept, Told, EatAll, Safe, LaterEater, WellFormed;
    TurnSteady(ph, start, k, t, m, fed);
  }

  lemma {:induction false} TurnSteady(ph: Physics, start: World, k: nat, t: World, m: World, fed: World)
    requires WellFormed(start) && k < |start.owned| && Steady(start, k, t)
    requires var id := start.owned[k]; id in t.bodies && m == Moved(ph, t, id) && fed.bodies.Keys == t.bodies.Keys
    requires forall x :: x in m.bodies && x != start.owned[k] ==> x in fed.bodies && fed.bodies[x] == m.bodies[x]
    requires Told(start, fed.meals)
    requires forall q :: LaterEater(start, k + 1, q) ==> q in fed.owned
    requires Kept(start, Report(fed, start.owned[k], |fed.meals| > |t.meals|))
    ensures Steady(start, k + 1, Report(fed, start.owned[k], |fed.meals| > |t.meals|))
  {
    hide Kept, Told, LaterEater;
  }

  /** The turn of a harmless player, eaten earlier or not. */
  lemma {:induction false} HarmlessTurn(ph: Physics, start: World, k: nat, t: World)
    requires WellFormed(start) && k < |start.owned| && Steady(start, k, t)
    requires Harmless(start, start.owned[k]) && start.bodies[start.owned[k]].kind == "player"
    ensures start.owned[k] in t.bodies && Steady(start, k + 1, Turn(ph, t, start.owned[k]))
  {
    var id := start.owned[k];
    var m := Moved(ph, t, id);
    MovedKept(ph, start, t, id);
    forall x | x in m.owned && x != id ensures m.bodies[id].mass <= m.bodies[x].mass * 1.1 {
      assert x in start.owned;
    }
    HarmlessEatsNothing(ph, m, id, m.owned, ph.eatRadius(m.bodies[id].mass));
    ReportKept(start, m, id, false);
    LaterStill(start, k, t);
    hide Kept, Told, EatAll, Harmless, LaterEater;
    TurnSteady(ph, start, k, t, m, m);
  }

  lemma {:induction false} LaterStill(start: World, k: nat, t: World)
    requires WellFormed(start) && Steady(start, k, t)
    ensures forall q :: LaterEater(start, k + 1, q) ==> q in t.owned
  {
    forall q | LaterEater(start, k + 1, q) ensures q in t.owned {
      assert LaterEater(start, k, q);
    }
    hide Kept, Told, Harmless;
  }

  lemma {:induction false} OneTurn(ph: Physics, start: World, k: nat, t: World)
    requires WellFormed(start) && Safe(ph, start) && k < |start.owned| && Steady(start, k, t)
    ensures WellFormed(t) && start.owned[k] in t.bodies && Steady(start, k + 1, Turn(ph, t, start.owned[k]))
  {
    var id := start.owned[k];
    if start.bodies[id].kind != "player" {
      LaterStill(start, k, t);
      hide Kept, Told, LaterEater;
    } else if Harmless(start, id) {
      HarmlessTurn(ph, start, k, t);
    } else {
      assert LaterEater(start, k, id);
      LivingTurn(ph, start, k, t);
    }
    hide Turn;
  }

  lemma {:induction false} SafeTurns(ph: Physics, start: World, k: nat)
    requires WellFormed(start) && start.meals == [] && Safe(ph, start) && k <= |start.owned|
    ensures Steady(start, k, Turns(ph, start, start.owned[..k]))
  {
    if k == 0 {
      AccountsSelf(start);
      assert start.owned[..0] == [];
    } else {
      SafeTurns(ph, start, k - 1);
      var ids := start.owned[..k];
      assert ids[..|ids| - 1] == start.owned[..k - 1] && ids[|ids| - 1] == start.owned[k - 1];
      OneTurn(ph, start, k - 1, Turns(ph, start, start.owned[..k - 1]));
      hide Steady, Safe, Turn;
    }
  }

  // ---------------------------------------------------------------- the theorems

  lemma {:induction false} SafeFresh(ph: Physics, w: World)
    requires WellFormed(w) && Safe(ph, w)
    ensures WellFormed(Fresh(w)) && Safe(ph, Fresh(w)) && Total(Fresh(w)) == Total(w)
  {
    forall q | q in w.owned ensures Harmless(Fresh(w), q) <==> Harmless(w, q) {}
  }

  /** In a safe zone a tick conserves mass, and no player that was eaten eats. */
  lemma {:induction false} SafeTickConserves(ph: Physics, w: World)
    requires WellFormed(w) && Safe(ph, w)
    ensures WellFormed(Tick(ph, w)) && Total(Tick(ph, w)) == Total(w)
    ensures AllAlive(Tick(ph, w).meals)
  {
    SafeFresh(ph, w);
    SafeTurns(ph, Fresh(w), |w.owned|);
    assert w.owned[..|w.owned|] == w.owned;
    TickAccounts(ph, w);
    hide Tick, Turns, Safe;
    NothingLost(Tick(ph, w).meals);
    MassIsAccounted(ph, w);
  }

  /** A zone with at most one player is safe, whatever the masses. */
  lemma {:induction false} OnePlayerConserves(ph: Physics, w: World, p: string)
    requires WellFormed(w) && forall id :: id in w.owned && w.bodies[id].kind == "player" ==> id == p
    ensures WellFormed(Tick(ph, w)) && Total(Tick(ph, w)) == Total(w)
  {
    hide Tick;
    SafeTickConserves(ph, w);
  }

  /** So is a zone of players of like weight: no two of its masses differ by more than a tenth. */
  lemma {:induction false} LikeWeightsConserve(ph: Physics, w: World)
    requires WellFormed(w) && Weighty(w)
    requires forall p, q :: p in w.owned && q in w.owned && w.bodies[p].kind == "player" && p != q ==>
      w.bodies[p].mass <= w.bodies[q].mass * 1.1
    ensures WellFormed(Tick(ph, w)) && Total(Tick(ph, w)) == Total(w)
  {
    forall q | q in w.owned && w.bodies[q].kind == "player" ensures Harmless(w, q) {}
    hide Tick;
    SafeTickConserves(ph, w);
  }

  /** And a zone in which no player starts within reach of one that moves before it. */
  lemma {:induction false} ApartConserves(ph: Physics, w: World)
    requires WellFormed(w)
    requires forall i, j :: 0 <= i < j < |w.owned| ==>
      var p, q := w.bodies[w.owned[i]], w.bodies[w.owned[j]];
      p.kind == "player" && q.kind == "player" ==> OutOfReach(ph, p, q)
    ensures WellFormed(Tick(ph, w)) && Total(Tick(ph, w)) == Total(w)
  {
    hide Tick, OutOfReach;
    SafeTickConserves(ph, w);
  }

  // ---------------------------------------------------------------- when mass is lost

  /** Players p and q on places i and j, and a piece of food r: p moves first of all players and catches
      q; q, from where it steps, can eat r; and nobody who moves before q reaches r. */
  ghost predicate Doomed(ph: Physics, w: World, i: nat, j: nat, r: string)
    requires WellFormed(w)
  {
    && i < j < |w.owned| && r in w.owned && w.bodies[r].kind == "food"
    && var p, q := w.bodies[w.owned[i]], w.bodies[w.owned[j]];
       && p.kind == "player" && q.kind == "player"
       && (forall k :: 0 <= k < i ==> w.bodies[w.owned[k]].kind != "player")
       && p.mass > q.mass * 1.1 && ph.distance(q.pos, ph.advance(p).1) <= ph.eatRadius(p.mass)
       && q.mass > w.bodies[r].mass * 1.1 && ph.distance(w.bodies[r].pos, ph.advance(q).1) <= ph.eatRadius(q.mass)
       && (forall k :: 0 <= k < j && w.bodies[w.owned[k]].kind == "player" ==>
             OutOfReach(ph, w.bodies[w.owned[k]], w.bodies[r]))
  }

  lemma {:induction false} OnlyEaterChanges(ph: Physics, u: World, id: string, others: seq<string>, reach: real)
    requires id in u.bodies && forall x :: x in others ==> x in u.bodies
    ensures var t := EatAll(ph, u, id, others, reach);
      && t.bodies[id].pos == u.bodies[id].pos
      && forall x :: x in u.bodies && x != id ==> t.bodies[x] == u.bodies[x]
  {
    if others != [] {
      OnlyEaterChanges(ph, u, id, others[..|others| - 1], reach);
    }
  }

  lemma {:induction false} EaterGrows(ph: Physics, u: World, id: string, others: seq<string>, reach: real)
    requires id in u.bodies && Hearty(false, others, u.bodies)
    ensures EatAll(ph, u, id, others, reach).bodies[id].mass >= u.bodies[id].mass
  {
    if others != [] {
      var init, last := others[..|others| - 1], others[|others| - 1];
      EaterGrows(ph, u, id, init, reach);
      OnlyEaterChanges(ph, u, id, init, reach);
      assert Weighs(false, u.bodies[last].mass);
    }
  }

  lemma {:induction false} FarIsSpared(ph: Physics, u: World, id: string, others: seq<string>, reach: real, r: string)
    requires WellFormed(u) && id in u.bodies && Distinct(others) && forall x :: x in others ==> x in u.owned
    requires r in u.owned && (r == id || ph.distance(u.bodies[r].pos, u.bodies[id].pos) > reach)
    ensures r in EatAll(ph, u, id, others, reach).owned
  {
    if others != [] {
      var init, last := others[..|others| - 1], others[|others| - 1];
      assert last !in init;
      FarIsSpared(ph, u, id, init, reach, r);
      OnlyEaterChanges(ph, u, id, init, reach);
      EatAllAccounts(ph, u, id, init, reach);
      RemoveMembers(EatAll(ph, u, id, init, reach).owned, last);
      hide EatAll, Accounts;
      var t := EatAll(ph, u, id, init, reach);
      assert r in TryEat(ph, t, id, last, reach).owned;
      EatAllStep(ph, u, id, others, reach);
    }
  }

  lemma {:induction false} EatAllStep(ph: Physics, u: World, id: string, others: seq<string>, reach: real)
    requires id in u.bodies && others != [] && forall x :: x in others ==> x in u.bodies
    ensures EatAll(ph, u, id, others, reach)
      == TryEat(ph, EatAll(ph, u, id, others[..|others| - 1], reach), id, others[|others| - 1], reach)
  {}

  /** An absorption of the prey by the eater, on the record since an earlier state. */
  ghost predicate Ate(u: World, t: World, id: string, prey: string, alive: bool) {
    |u.meals| <= |t.meals|
    && exists m :: m in t.meals[|u.meals|..] && m.eater == id && m.eaten == prey && m.alive == alive
  }

  lemma {:induction false} AteThen(u: World, t: World, v: World, id: string, prey: string, alive: bool)
    requires Ate(u, t, id, prey, alive) && t.meals <= v.meals
    ensures Ate(u, v, id, prey, alive)
  {
    var m :| m in t.meals[|u.meals|..] && m.eater == id && m.eaten == prey && m.alive == alive;
    var k :| 0 <= k < |t.meals[|u.meals|..]| && t.meals[|u.meals|..][k] == m;
    assert v.meals[|u.meals|..][k] == m;
  }

  lemma {:induction false} StillNear(ph: Physics, u: World, id: string, others: seq<string>, reach: real, q: string)
    requires id in u.bodies && Hearty(false, others, u.bodies) && q in u.bodies && q != id
    requires Eats(ph, u.bodies[id], u.bodies[q], reach)
    ensures var t := EatAll(ph, u, id, others, reach); Eats(ph, t.bodies[id], t.bodies[q], reach)
  {
    OnlyEaterChanges(ph, u, id, others, reach);
    EaterGrows(ph, u, id, others, reach);
    hide EatAll, Hearty;
  }

  lemma {:induction false} NearNow(ph: Physics, u: World, t: World, id: string, q: string, reach: real)
    requires id in t.bodies && q in t.bodies && q != id && Eats(ph, t.bodies[id], t.bodies[q], reach)
    requires u.meals <= t.meals
    ensures Ate(u, TryEat(ph, t, id, q, reach), id, q, id in t.owned)
  {
    hide Eats;
    var v := Absorb(t, id, q);
    assert v.meals[|u.meals|..][|t.meals| - |u.meals|] == v.meals[|t.meals|];
  }

  /** What is near and light enough when the meals begin is eaten. */
  lemma {:induction false} NearIsEaten(ph: Physics, u: World, id: string, others: seq<string>, reach: real, q: string)
    requires WellFormed(u) && id in u.bodies && Distinct(others) && forall x :: x in others ==> x in u.owned
    requires Hearty(false, others, u.bodies) && q in others && q != id && Eats(ph, u.bodies[id], u.bodies[q], reach)
    ensures Ate(u, EatAll(ph, u, id, others, reach), id, q, id in u.owned)
  {
    var init, last := others[..|others| - 1], others[|others| - 1];
    var t := EatAll(ph, u, id, init, reach);
    EatAllAccounts(ph, u, id, init, reach);
    EatAllStep(ph, u, id, others, reach);
    FarIsSparedSelf(ph, u, id, init, reach);
    if q == last {
      StillNear(ph, u, id, init, reach, q);
      hide EatAll, Accounts, Hearty, Eats;
      NearNow(ph, u, t, id, q, reach);
    } else {
      assert q in init;
      NearIsEaten(ph, u, id, init, reach, q);
      hide EatAll, Accounts, Eats, Hearty;
      AteThen(u, t, TryEat(ph, t, id, last, reach), id, q, id in u.owned);
    }
  }

  /** An eater does not lose its own place by eating. */
  lemma {:induction false} FarIsSparedSelf(ph: Physics, u: World, id: string, others: seq<string>, reach: real)
    requires WellFormed(u) && id in u.bodies && Distinct(others) && forall x :: x in others ==> x in u.owned
    ensures id in EatAll(ph, u, id, others, reach).owned <==> id in u.owned
  {
    EatAllAccounts(ph, u, id, others, reach);
    if id in u.owned {
      FarIsSpared(ph, u, id, others, reach, id);
    }
    hide EatAll;
  }

  lemma {:induction false} NearOnTurn(ph: Physics, t: World, id: string, q: string)
    requires WellFormed(t) && Hearty(false, t.owned, t.bodies) && q in t.owned && q != id
    requires id in t.bodies && t.bodies[id].kind == "player" && t.bodies[id].mass >= 0.0
    requires var b := t.bodies[id];
             Eats(ph, b.(pos := ph.advance(b).1, vel := ph.advance(b).0), t.bodies[q], ph.eatRadius(b.mass))
    ensures Ate(t, Turn(ph, t, id), id, q, id in t.owned)
  {
    MovedAccounts(ph, t, id);
    var m := Moved(ph, t, id);
    assert Hearty(false, m.owned, m.bodies);
    hide EatAll, Eats, Distinct;
    NearIsEaten(ph, m, id, m.owned, ph.eatRadius(m.bodies[id].mass), q);
    TurnKeeps(ph, t, id);
  }

  lemma {:induction false} FarOnTurn(ph: Physics, t: World, id: string, r: string)
    requires WellFormed(t) && id in t.bodies && r in t.owned && r != id && r in t.bodies
    requires t.bodies[id].kind == "player" ==> OutOfReach(ph, t.bodies[id], t.bodies[r])
    ensures r in Turn(ph, t, id).owned
  {
    if t.bodies[id].kind == "player" {
      MovedAccounts(ph, t, id);
      var m := Moved(ph, t, id);
      hide EatAll, Distinct;
      FarIsSpared(ph, m, id, m.owned, ph.eatRadius(m.bodies[id].mass), r);
    }
  }

  lemma {:induction false} OnlyMoverChanges(ph: Physics, t: World, id: string)
    requires WellFormed(t) && id in t.bodies
    ensures forall x :: x in t.bodies && x != id ==> Turn(ph, t, id).bodies[x] == t.bodies[x]
    ensures t.bodies[id].kind != "player" ==> Turn(ph, t, id) == t
  {
    if t.bodies[id].kind == "player" {
      var m := Moved(ph, t, id);
      OnlyEaterChanges(ph, m, id, m.owned, ph.eatRadius(m.bodies[id].mass));
      hide EatAll;
    }
  }

  /** Before the k-th turn of a doomed zone. */
  ghost predicate Dooming(start: World, i: nat, j: nat, r: string, k: nat, t: World)
    requires WellFormed(start) && i < j < |start.owned| && r in start.owned
  {
    && Accounts(start, t) && Healthy(true, start.owned, t) && r in t.owned
    && (forall n :: k <= n < |start.owned| ==> t.bodies[start.owned[n]] == start.bodies[start.owned[n]])
    && t.bodies[r] == start.bodies[r]
    && (k <= i ==> start.owned[j] in t.owned) && (k > i ==> start.owned[j] !in t.owned)
  }

  lemma {:induction false} AteIsGone(start: World, t: World, v: World, id: string, q: string, alive: bool)
    requires Accounts(t, v) && Ate(t, v, id, q, alive)
    ensures q !in v.owned
  {
    assert EatenSince(t, v, q);
  }

  lemma {:induction false} HealthyOwned(strict: bool, start: World, t: World)
    requires Accounts(start, t) && Healthy(strict, start.owned, t)
    ensures Hearty(false, t.owned, t.bodies)
  {
    forall x | x in t.owned ensures x in t.bodies && Weighs(false, t.bodies[x].mass) {
      assert x in start.owned && Weighs(strict, t.bodies[x].mass);
    }
  }

  /** The food nobody reaches before the eaten player's turn. */
  lemma {:induction false} FoodStays(ph: Physics, start: World, i: nat, j: nat, r: string, k: nat, t: World)
    requires WellFormed(start) && Doomed(ph, start, i, j, r) && k < j && Dooming(start, i, j, r, k, t)
    ensures WellFormed(t) && start.owned[k] in t.bodies && r in Turn(ph, t, start.owned[k]).owned
    ensures r in Turn(ph, t, start.owned[k]).bodies && Turn(ph, t, start.owned[k]).bodies[r] == start.bodies[r]
  {
    var id := start.owned[k];
    assert t.bodies[id] == start.bodies[id];
    hide Accounts, Turn, Healthy, OutOfReach;
    OnlyMoverChanges(ph, t, id);
    if id != r {
      FarOnTurn(ph, t, id, r);
    }
  }

  lemma {:induction false} CaughtStays(ph: Physics, start: World, i: nat, j: nat, r: string, k: nat, t: World)
    requires WellFormed(start) && Doomed(ph, start, i, j, r) && k < j && Dooming(start, i, j, r, k, t)
    ensures WellFormed(t) && start.owned[k] in t.bodies
    ensures start.owned[j] in Turn(ph, t, start.owned[k]).owned <==> k < i
  {
    var id := start.owned[k];
    assert t.bodies[id] == start.bodies[id];
    TurnAccounts(ph, t, id);
    hide Turn, Healthy, OutOfReach;
    if k < i {
      OnlyMoverChanges(ph, t, id);
    } else if k == i {
      FirstCatches(ph, start, i, j, r, t);
      AteIsGone(start, t, Turn(ph, t, id), id, start.owned[j], id in t.owned);
    } else {
      StaysGone(t, Turn(ph, t, id), start.owned[j]);
    }
    hide Accounts;
  }

  lemma {:induction false} LaterUnmoved(ph: Physics, start: World, i: nat, j: nat, r: string, k: nat, t: World)
    requires WellFormed(start) && k < |start.owned| && i < j < |start.owned| && r in start.owned
    requires Dooming(start, i, j, r, k, t)
    ensures WellFormed(t) && start.owned[k] in t.bodies && Accounts(start, Turn(ph, t, start.owned[k]))
    ensures forall n :: k + 1 <= n < |start.owned| ==>
      Turn(ph, t, start.owned[k]).bodies[start.owned[n]] == start.bodies[start.owned[n]]
  {
    var id := start.owned[k];
    TurnAccounts(ph, t, id);
    AccountsTrans(start, t, Turn(ph, t, id));
    OnlyMoverChanges(ph, t, id);
    hide Turn, Healthy;
  }

  lemma {:induction false} DoomedTurn(ph: Physics, start: World, i: nat, j: nat, r: string, k: nat, t: World)
    requires WellFormed(start) && Doomed(ph, start, i, j, r) && k < j && Dooming(start, i, j, r, k, t)
    requires WellFormed(t) && start.owned[k] in t.bodies && Healthy(true, start.owned, Turn(ph, t, start.owned[k]))
    ensures Dooming(start, i, j, r, k + 1, Turn(ph, t, start.owned[k]))
  {
    FoodStays(ph, start, i, j, r, k, t);
    CaughtStays(ph, start, i, j, r, k, t);
    LaterUnmoved(ph, start, i, j, r, k, t);
    hide Accounts, Turn, Healthy, Doomed;
  }

  lemma {:induction false} StaysGone(t: World, v: World, q: string)
    requires Accounts(t, v)
    ensures q !in t.owned ==> q !in v.owned
  {}

  lemma {:induction false} FirstCatches(ph: Physics, start: World, i: nat, j: nat, r: string, t: World)
    requires WellFormed(start) && Doomed(ph, start, i, j, r) && Dooming(start, i, j, r, i, t)
    ensures WellFormed(t) && start.owned[i] in t.bodies
    ensures Ate(t, Turn(ph, t, start.owned[i]), start.owned[i], start.owned[j], start.owned[i] in t.owned)
  {
    var p, q := start.owned[i], start.owned[j];
    assert p != q && t.bodies[p] == start.bodies[p] && t.bodies[q] == start.bodies[q];
    HealthyOwned(true, start, t);
    assert Weighs(true, t.bodies[p].mass);
    hide Healthy, Accounts, Turn;
    NearOnTurn(ph, t, p, q);
  }

  lemma {:induction false} NextTurn(ph: Physics, start: World, k: nat)
    requires WellFormed(start) && k < |start.owned|
    ensures Turns(ph, start, start.owned[..k + 1]) == Turn(ph, Turns(ph, start, start.owned[..k]), start.owned[k])
  {
    var ids := start.owned[..k + 1];
    assert ids[..|ids| - 1] == start.owned[..k] && ids[|ids| - 1] == start.owned[k];
    hide Turn;
  }

  lemma {:induction false} DoomedTurns(ph: Physics, start: World, i: nat, j: nat, r: string, k: nat)
    requires WellFormed(start) && start.meals == [] && Hearty(true, start.owned, start.bodies)
    requires Doomed(ph, start, i, j, r) && k <= j
    ensures Dooming(start, i, j, r, k, Turns(ph, start, start.owned[..k]))
  {
    TurnsAccount(ph, start, start.owned[..k]);
    TurnsTold(ph, true, start, start.owned[..k]);
    if k == 0 {
      assert start.owned[..0] == [];
    } else {
      DoomedTurns(ph, start, i, j, r, k - 1);
      NextTurn(ph, start, k - 1);
      hide Doomed, Dooming, Turn, Turns, Accounts, Told, Healthy;
      DoomedTurn(ph, start, i, j, r, k - 1, Turns(ph, start, start.owned[..k - 1]));
    }
  }

  /** The eaten player eats on its turn. */
  lemma {:induction false} DeadEats(ph: Physics, start: World, i: nat, j: nat, r: string, t: World)
    requires WellFormed(start) && Doomed(ph, start, i, j, r) && Dooming(start, i, j, r, j, t)
    ensures WellFormed(t) && start.owned[j] in t.bodies
    ensures Ate(t, Turn(ph, t, start.owned[j]), start.owned[j], r, false)
  {
    var q := start.owned[j];
    assert t.bodies[q] == start.bodies[q] && q != r;
    HealthyOwned(true, start, t);
    assert Weighs(true, t.bodies[q].mass);
    hide Healthy, Accounts, Turn;
    NearOnTurn(ph, t, q, r);
  }

  lemma {:induction false} TurnsExtend(ph: Physics, start: World, ids: seq<string>, k: nat)
    requires WellFormed(start) && k <= |ids| && forall x :: x in ids ==> x in start.bodies
    ensures Turns(ph, start, ids[..k]).meals <= Turns(ph, start, ids).meals
    decreases |ids|
  {
    if k == |ids| {
      assert ids[..k] == ids;
    } else {
      var init := ids[..|ids| - 1];
      assert init[..k] == ids[..k];
      TurnsExtend(ph, start, init, k);
      TurnAccounts(ph, Turns(ph, start, init), ids[|ids| - 1]);
      hide Turn;
    }
  }

  lemma {:induction false} DoomedMeal(ph: Physics, start: World, i: nat, j: nat, r: string)
    requires WellFormed(start) && start.meals == [] && Hearty(true, start.owned, start.bodies)
    requires Doomed(ph, start, i, j, r)
    ensures exists m :: m in Turns(ph, start, start.owned).meals && !m.alive
  {
    DoomedTurns(ph, start, i, j, r, j);
    var t := Turns(ph, start, start.owned[..j]);
    var q := start.owned[j];
    DeadEats(ph, start, i, j, r, t);
    NextTurn(ph, start, j);
    TurnsExtend(ph, start, start.owned, j + 1);
    var v, all := Turn(ph, t, q), Turns(ph, start, start.owned);
    hide Turn, Turns, Doomed, Dooming, Hearty;
    AteThen(t, v, all, q, r, false);
    var m :| m in all.meals[|t.meals|..] && m.eater == q && m.eaten == r && m.alive == false;
    assert m in all.meals;
  }

  lemma {:induction false} DoomedFresh(ph: Physics, w: World, i: nat, j: nat, r: string)
    requires WellFormed(w) && Doomed(ph, w, i, j, r)
    ensures WellFormed(Fresh(w)) && Doomed(ph, Fresh(w), i, j, r)
  {}

  /** Then the tick loses mass. */
  lemma {:induction false} DoomedTickLoses(ph: Physics, w: World, i: nat, j: nat, r: string)
    requires WellFormed(w) && Hearty(true, w.owned, w.bodies) && Doomed(ph, w, i, j, r)
    ensures WellFormed(Tick(ph, w)) && Total(Tick(ph, w)) < Total(w)
  {
    DoomedFresh(ph, w, i, j, r);
    TickAccounts(ph, w);
    NeverGains(ph, true, w);
    hide Doomed, Tick, Turns;
    DoomedMeal(ph, Fresh(w), i, j, r);
  }

  // ---------------------------------------------------------------- a zone that loses mass

  function Line(p: Pos, q: Pos): real { if p.x < q.x then q.x - p.x else p.x - q.x }

  const FLAT := Physics((b: Body) => (Pos(0.0, 0.0), b.pos), (m: real) => 1.0, Line)

  function BodyAt(mass: real, kind: string, x: real): Body { Body(mass, kind, Pos(x, 0.0), Pos(0.0, 0.0), None, 1) }

  /** Two players and a piece of food in a row, each in reach of its neighbours only. */
  const ROW := World(
    map["a" := BodyAt(30.0, "player", 0.0), "b" := BodyAt(20.0, "player", 1.0), "c" := BodyAt(10.0, "food", 2.0)],
    ["a", "b", "c"], [], [], [])

  /** Mass can be lost: the first player eats the second, which still takes its turn and eats the food. */
  lemma {:induction false} DeadEaterLosesMass()
    ensures WellFormed(ROW) && WellFormed(Tick(FLAT, ROW)) && Total(Tick(FLAT, ROW)) < Total(ROW)
  {
    assert "a"[0] != "b"[0] && "a"[0] != "c"[0] && "b"[0] != "c"[0];
    assert "food"[0] != "player"[0];
    assert Doomed(FLAT, ROW, 0, 1, "c");
    hide Tick, Total;
    DoomedTickLoses(FLAT, ROW, 0, 1, "c");
  }
}
