/** What an agar tick does to every body and what it sends: each player's turn computed from the bodies
    at its start alone, and the positions, masses and deletions the broker is told. */
module AgarReport {
  import opened Wrappers
  import opened AgarTick

  // ---------------------------------------------------------------- a turn on the bodies at its start

  function Fed(bodies: map<string, Body>, prey: seq<string>): real
    requires forall x :: x in prey ==> x in bodies
  {
    if prey == [] then 0.0 else Fed(bodies, prey[..|prey| - 1]) + bodies[prey[|prey| - 1]].mass
  }

  /** Something else, food or a player, in reach of where the player moves to and lighter by more than a
      tenth than the player has become by eating these. */
  predicate Falls(ph: Physics, bodies: map<string, Body>, id: string, eaten: seq<string>, x: string)
    requires id in bodies && x in bodies && forall y :: y in eaten ==> y in bodies
  {
    var b, other := bodies[id], bodies[x];
    && x != id && (other.kind == "food" || other.kind == "player")
    && b.mass + Fed(bodies, eaten) > other.mass * 1.1
    && ph.distance(other.pos, ph.advance(b).1) <= ph.eatRadius(b.mass)
  }

  /** Whom a player eats of those it comes across in this order. */
  function Prey(ph: Physics, bodies: map<string, Body>, id: string, others: seq<string>): (prey: seq<string>)
    requires id in bodies && forall x :: x in others ==> x in bodies
    ensures forall x :: x in prey ==> x in others && x != id
  {
    if others == [] then []
    else
      var prey, x := Prey(ph, bodies, id, others[..|others| - 1]), others[|others| - 1];
      if Falls(ph, bodies, id, prey, x) then prey + [x] else prey
  }

  /** The player after its turn: moved, and heavier by what it ate. */
  function Grown(ph: Physics, bodies: map<string, Body>, id: string, prey: seq<string>): Body
    requires id in bodies && forall x :: x in prey ==> x in bodies
  {
    var b := bodies[id];
    Body(b.mass + Fed(bodies, prey), b.kind, ph.advance(b).1, ph.advance(b).0, b.target, b.epoch)
  }

  /** Each is deleted under its own epoch, or under the eater's if it has none. */
  function Deletions(bodies: map<string, Body>, prey: seq<string>, epoch: int): seq<Message>
    requires forall x :: x in prey ==> x in bodies
  {
    seq(|prey|, i requires 0 <= i < |prey| =>
      DeleteEntity(prey[i], if bodies[prey[i]].epoch == 0 then epoch else bodies[prey[i]].epoch))
  }

  function Meals(bodies: map<string, Body>, id: string, alive: bool, prey: seq<string>): seq<Meal>
    requires id in bodies && forall x :: x in prey ==> x in bodies
  {
    seq(|prey|, i requires 0 <= i < |prey| =>
      Meal(id, prey[i], bodies[id].mass + Fed(bodies, prey[..i]), bodies[prey[i]].mass,
           bodies[prey[i]].kind == "food", alive))
  }

  function Without(ids: seq<string>, gone: seq<string>): seq<string> {
    if ids == [] then []
    else if ids[0] in gone then Without(ids[1..], gone)
    else [ids[0]] + Without(ids[1..], gone)
  }

  lemma {:induction false} WithoutNone(ids: seq<string>)
    ensures Without(ids, []) == ids
  {
    if ids != [] {
      WithoutNone(ids[1..]);
    }
  }

  lemma {:induction false} WithoutAbsent(ids: seq<string>, gone: seq<string>, x: string)
    requires x !in ids
    ensures Without(ids, gone + [x]) == Without(ids, gone)
  {
    if ids != [] {
      WithoutAbsent(ids[1..], gone, x);
    }
  }

  lemma {:induction false} OneMoreGone(ids: seq<string>, gone: seq<string>, x: string)
    requires Distinct(ids)
    ensures Remove(Without(ids, gone), x) == Without(ids, gone + [x])
  {
    if ids != [] {
      TailDistinct(ids);
      hide Distinct;
      OneMoreGone(ids[1..], gone, x);
      if ids[0] == x {
        WithoutAbsent(ids[1..], gone, x);
        if ids[0] in gone {
          WithoutMembers(ids[1..], gone);
          RemoveAbsent(Without(ids[1..], gone), x);
        }
      }
    }
  }

  lemma {:induction false} WithoutMembers(ids: seq<string>, gone: seq<string>)
    ensures forall x :: x in Without(ids, gone) <==> x in ids && x !in gone
  {
    if ids != [] {
      WithoutMembers(ids[1..], gone);
      assert ids == [ids[0]] + ids[1..];
    }
  }

  lemma {:induction false} RemoveAbsent(ids: seq<string>, x: string)
    requires x !in ids
    ensures Remove(ids, x) == ids
  {
    if ids != [] {
      RemoveAbsent(ids[1..], x);
    }
  }

  // ---------------------------------------------------------------- the turn comes to that

  /** The world in the middle of a player's turn, when it has eaten these. */
  ghost predicate Having(ph: Physics, w: World, id: string, prey: seq<string>, t: World)
    requires id in w.bodies && forall x :: x in prey ==> x in w.bodies
  {
    && t.bodies == w.bodies[id := Grown(ph, w.bodies, id, prey)]
    && t.owned == Without(w.owned, prey)
    && t.sent == w.sent + Deletions(w.bodies, prey, w.bodies[id].epoch)
    && t.posUpdates == w.posUpdates
    && t.meals == w.meals + Meals(w.bodies, id, id in w.owned, prey)
  }

  lemma {:induction false} HavingNothing(ph: Physics, w: World, id: string)
    requires id in w.bodies
    ensures Having(ph, w, id, [], Moved(ph, w, id))
  {
    WithoutNone(w.owned);
  }

  lemma {:induction false} FedMore(bodies: map<string, Body>, prey: seq<string>, x: string)
    requires x in bodies && forall y :: y in prey ==> y in bodies
    ensures Fed(bodies, prey + [x]) == Fed(bodies, prey) + bodies[x].mass
  {
    assert (prey + [x])[..|prey|] == prey;
  }

  lemma {:induction false} DeletionsMore(bodies: map<string, Body>, epoch: int, prey: seq<string>, x: string)
    requires x in bodies && forall y :: y in prey ==> y in bodies
    ensures Deletions(bodies, prey + [x], epoch)
      == Deletions(bodies, prey, epoch) + [DeleteEntity(x, if bodies[x].epoch == 0 then epoch else bodies[x].epoch)]
  {}

  lemma {:induction false} MealsMore(bodies: map<string, Body>, id: string, alive: bool, prey: seq<string>, x: string)
    requires id in bodies && x in bodies && forall y :: y in prey ==> y in bodies
    ensures Meals(bodies, id, alive, prey + [x]) == Meals(bodies, id, alive, prey)
      + [Meal(id, x, bodies[id].mass + Fed(bodies, prey), bodies[x].mass, bodies[x].kind == "food", alive)]
  {
    hide Fed;
    var more := prey + [x];
    assert more[..|prey|] == prey;
    assert forall i :: 0 <= i < |prey| ==> more[i] == prey[i] && more[..i] == prey[..i];
  }

  lemma {:induction false} Regroup<T>(a: seq<T>, b: seq<T>, c: seq<T>)
    ensures (a + b) + c == a + (b + c)
  {}

  lemma {:induction false} GrownMore(ph: Physics, bodies: map<string, Body>, id: string, prey: seq<string>, x: string)
    requires id in bodies && x in bodies && x != id && forall y :: y in prey ==> y in bodies
    requires Fed(bodies, prey + [x]) == Fed(bodies, prey) + bodies[x].mass
    ensures var t, grown := bodies[id := Grown(ph, bodies, id, prey)], Grown(ph, bodies, id, prey);
      t[id := grown.(mass := grown.mass + t[x].mass)] == bodies[id := Grown(ph, bodies, id, prey + [x])]
  {
    hide Fed;
  }

  lemma {:induction false} HavingMore(ph: Physics, w: World, id: string, prey: seq<string>, x: string, t: World)
    requires WellFormed(w) && id in w.bodies && forall y :: y in prey ==> y in w.bodies
    requires x in w.bodies && x != id && id !in prey && Having(ph, w, id, prey, t)
    ensures Having(ph, w, id, prey + [x], Absorb(t, id, x))
  {
    hide Fed, Deletions, Meals, Without, Remove, Distinct;
    var alive, epoch := id in w.owned, w.bodies[id].epoch;
    FedMore(w.bodies, prey, x);
    DeletionsMore(w.bodies, epoch, prey, x);
    MealsMore(w.bodies, id, alive, prey, x);
    OneMoreGone(w.owned, prey, x);
    GrownMore(ph, w.bodies, id, prey, x);
    WithoutMembers(w.owned, prey);
    Regroup(w.sent, Deletions(w.bodies, prey, epoch),
            [DeleteEntity(x, if w.bodies[x].epoch == 0 then epoch else w.bodies[x].epoch)]);
    Regroup(w.meals, Meals(w.bodies, id, alive, prey),
            [Meal(id, x, w.bodies[id].mass + Fed(w.bodies, prey), w.bodies[x].mass, w.bodies[x].kind == "food",
                  alive)]);
    assert t.bodies[x] == w.bodies[x] && t.bodies[id] == Grown(ph, w.bodies, id, prey);
  }

  lemma {:induction false} FallsIsEats(ph: Physics, w: World, id: string, prey: seq<string>, x: string, t: World)
    requires id in w.bodies && x in w.bodies && forall y :: y in prey ==> y in w.bodies
    requires Having(ph, w, id, prey, t)
    ensures x != id && Eats(ph, t.bodies[id], t.bodies[x], ph.eatRadius(w.bodies[id].mass))
      <==> Falls(ph, w.bodies, id, prey, x)
  {
    hide Fed, Deletions, Meals, Without;
  }

  lemma {:induction false} EatAllHas(ph: Physics, w: World, id: string, others: seq<string>)
    requires WellFormed(w) && id in w.bodies && forall x :: x in others ==> x in w.bodies
    ensures Having(ph, w, id, Prey(ph, w.bodies, id, others),
                   EatAll(ph, Moved(ph, w, id), id, others, ph.eatRadius(w.bodies[id].mass)))
  {
    hide Having, Falls, Eats, Absorb, WellFormed, Grown;
    if others == [] {
      HavingNothing(ph, w, id);
    } else {
      var init, x := others[..|others| - 1], others[|others| - 1];
      EatAllHas(ph, w, id, init);
      var prey, reach := Prey(ph, w.bodies, id, init), ph.eatRadius(w.bodies[id].mass);
      var t := EatAll(ph, Moved(ph, w, id), id, init, reach);
      FallsIsEats(ph, w, id, prey, x, t);
      if Falls(ph, w.bodies, id, prey, x) {
        HavingMore(ph, w, id, prey, x, t);
      }
    }
  }

  /** A player's turn, from the bodies at its start alone: it moves, grows by the mass of its prey, which
      is deleted in order; its position is noted, and its mass is sent exactly if it ate. */
  lemma {:induction false} TurnIs(ph: Physics, w: World, id: string)
    requires WellFormed(w) && id in w.bodies
    ensures var t, b, prey := Turn(ph, w, id), w.bodies[id], Prey(ph, w.bodies, id, w.owned);
      if b.kind != "player" then t == w
      else
        && t.bodies == w.bodies[id := Grown(ph, w.bodies, id, prey)]
        && t.owned == Without(w.owned, prey)
        && t.posUpdates == w.posUpdates + [(id, ph.advance(b).1, b.epoch)]
        && t.sent == w.sent + Deletions(w.bodies, prey, b.epoch)
             + (if prey == [] then [] else [UpdateMass(id, b.mass + Fed(w.bodies, prey), b.epoch)])
        && t.meals == w.meals + Meals(w.bodies, id, id in w.owned, prey)
  {
    hide Prey, EatAll, Fed, Without, Deletions;
    if w.bodies[id].kind == "player" {
      EatAllHas(ph, w, id, w.owned);
    }
  }

  // ---------------------------------------------------------------- positions over a whole tick

  /** Where the players go from where they are, in order. */
  function Positions(ph: Physics, bodies: map<string, Body>, players: seq<string>): seq<(string, Pos, int)>
    requires forall x :: x in players ==> x in bodies
  {
    seq(|players|, i requires 0 <= i < |players| =>
      (players[i], ph.advance(bodies[players[i]]).1, bodies[players[i]].epoch))
  }

  /** How far a tick has come: who has not had a turn is as before, a player that has is where it went,
      and kind, target and epoch never change. */
  ghost predicate Advanced(ph: Physics, w: World, ids: seq<string>, t: World) {
    && t.bodies.Keys == w.bodies.Keys
    && (forall x :: x in w.bodies && (x !in ids || w.bodies[x].kind != "player") ==> t.bodies[x] == w.bodies[x])
    && (forall x :: x in w.bodies && x in ids && w.bodies[x].kind == "player" ==>
          var b := w.bodies[x];
          t.bodies[x] == Body(t.bodies[x].mass, b.kind, ph.advance(b).1, ph.advance(b).0, b.target, b.epoch))
  }

  lemma {:induction false} PlayersMembers(bodies: map<string, Body>, ids: seq<string>)
    requires forall id :: id in ids ==> id in bodies
    ensures forall x :: x in Players(bodies, ids) <==> x in ids && bodies[x].kind == "player"
  {
    if ids != [] {
      var init, last := ids[..|ids| - 1], ids[|ids| - 1];
      PlayersMembers(bodies, init);
      assert ids == init + [last];
    }
  }

  lemma {:induction false} TurnAdvances(ph: Physics, w: World, ids: seq<string>, t: World, id: string)
    requires WellFormed(t) && Advanced(ph, w, ids, t) && id in w.bodies && id !in ids
    ensures Advanced(ph, w, ids + [id], Turn(ph, t, id))
  {
    hide Turn, WellFormed, Prey, Fed, Without, Deletions, Meals;
    TurnIs(ph, t, id);
  }

  lemma {:induction false} TurnsAdvance(ph: Physics, w: World, ids: seq<string>)
    requires WellFormed(w) && Distinct(ids) && forall x :: x in ids ==> x in w.bodies
    ensures Advanced(ph, w, ids, Turns(ph, w, ids))
  {
    if ids != [] {
      hide Turn, WellFormed, Advanced;
      var init, last := ids[..|ids| - 1], ids[|ids| - 1];
      TurnsAdvance(ph, w, init);
      assert ids == init + [last];
      TurnAdvances(ph, w, init, Turns(ph, w, init), last);
    } else {
      hide WellFormed;
    }
  }

  lemma {:induction false} TurnNotes(ph: Physics, w: World, ids: seq<string>, t: World, id: string)
    requires WellFormed(t) && Advanced(ph, w, ids, t) && id in w.bodies && id !in ids
    ensures Turn(ph, t, id).posUpdates == t.posUpdates
      + (if w.bodies[id].kind == "player" then [(id, ph.advance(w.bodies[id]).1, w.bodies[id].epoch)] else [])
  {
    hide Turn, WellFormed, Prey, Fed, Without, Deletions, Meals, Grown;
    TurnIs(ph, t, id);
  }

  lemma {:induction false} PositionsMore(ph: Physics, bodies: map<string, Body>, players: seq<string>, x: string)
    requires x in bodies && forall y :: y in players ==> y in bodies
    ensures Positions(ph, bodies, players + [x])
      == Positions(ph, bodies, players) + [(x, ph.advance(bodies[x]).1, bodies[x].epoch)]
  {}

  lemma {:induction false} TurnsNote(ph: Physics, w: World, ids: seq<string>)
    requires WellFormed(w) && Distinct(ids) && forall x :: x in ids ==> x in w.bodies
    ensures forall x :: x in Players(w.bodies, ids) ==> x in w.bodies
    ensures Turns(ph, w, ids).posUpdates == w.posUpdates + Positions(ph, w.bodies, Players(w.bodies, ids))
  {
    PlayersMembers(w.bodies, ids);
    if ids != [] {
      hide Turn, WellFormed, Advanced, Positions;
      var init, last := ids[..|ids| - 1], ids[|ids| - 1];
      TurnsNote(ph, w, init);
      TurnsAdvance(ph, w, init);
      TurnNotes(ph, w, init, Turns(ph, w, init), last);
      PlayersMembers(w.bodies, init);
      PositionsMore(ph, w.bodies, Players(w.bodies, init), last);
    }
  }

  // ---------------------------------------------------------------- masses and deletions over a whole tick

  /** What one turn sends. */
  function TurnSends(ph: Physics, w: World, id: string): seq<Message>
    requires WellFormed(w) && id in w.bodies
  {
    var b, prey := w.bodies[id], Prey(ph, w.bodies, id, w.owned);
    if b.kind != "player" || prey == [] then []
    else Deletions(w.bodies, prey, b.epoch) + [UpdateMass(id, b.mass + Fed(w.bodies, prey), b.epoch)]
  }

  function Sends(ph: Physics, w: World, ids: seq<string>): seq<Message>
    requires WellFormed(w) && forall x :: x in ids ==> x in w.bodies
  {
    if ids == [] then []
    else Sends(ph, w, ids[..|ids| - 1]) + TurnSends(ph, Turns(ph, w, ids[..|ids| - 1]), ids[|ids| - 1])
  }

  lemma {:induction false} TurnAppends(ph: Physics, w: World, id: string)
    requires WellFormed(w) && id in w.bodies
    ensures Turn(ph, w, id).sent == w.sent + TurnSends(ph, w, id)
  {
    hide Turn, Distinct, Prey, Fed, Without, Meals, Grown;
    TurnIs(ph, w, id);
    Regroup(w.sent, Deletions(w.bodies, Prey(ph, w.bodies, id, w.owned), w.bodies[id].epoch),
            [UpdateMass(id, w.bodies[id].mass + Fed(w.bodies, Prey(ph, w.bodies, id, w.owned)), w.bodies[id].epoch)]);
  }

  lemma {:induction false} TurnsSend(ph: Physics, w: World, ids: seq<string>)
    requires WellFormed(w) && forall x :: x in ids ==> x in w.bodies
    ensures Turns(ph, w, ids).sent == w.sent + Sends(ph, w, ids)
  {
    if ids != [] {
      hide Turn, TurnSends, WellFormed;
      var init, last := ids[..|ids| - 1], ids[|ids| - 1];
      TurnsSend(ph, w, init);
      TurnAppends(ph, Turns(ph, w, init), last);
      Regroup(w.sent, Sends(ph, w, init), TurnSends(ph, Turns(ph, w, init), last));
    }
  }

  ghost predicate Ate(meals: seq<Meal>, id: string) { exists m :: m in meals && m.eater == id }

  /** The epoch a meal is deleted under. */
  function EpochOf(bodies: map<string, Body>, m: Meal): int
    requires m.eater in bodies && m.eaten in bodies
  {
    if bodies[m.eaten].epoch == 0 then bodies[m.eater].epoch else bodies[m.eaten].epoch
  }

  ghost predicate Deletes(bodies: map<string, Body>, meals: seq<Meal>, x: string, epoch: int)
    requires forall m :: m in meals ==> m.eater in bodies && m.eaten in bodies
  {
    exists m :: m in meals && m.eaten == x && epoch == EpochOf(bodies, m)
  }

  /** The messages of the turns so far, against the absorptions so far. */
  ghost predicate Announced(w: World, ids: seq<string>, t: World, sent: seq<Message>) {
    && (forall m :: m in t.meals ==> m.eater in ids && m.eater in w.bodies && m.eaten in w.bodies)
    && t.bodies.Keys == w.bodies.Keys
    && (forall id, mass, epoch :: UpdateMass(id, mass, epoch) in sent <==>
          Ate(t.meals, id) && mass == t.bodies[id].mass && epoch == w.bodies[id].epoch)
    && (forall x, epoch :: DeleteEntity(x, epoch) in sent <==> Deletes(w.bodies, t.meals, x, epoch))
    && (forall m :: m in sent ==> !m.BatchPos?)
  }

  lemma {:induction false} MealsOf(bodies: map<string, Body>, id: string, alive: bool, prey: seq<string>, epoch: int)
    requires id in bodies && (forall x :: x in prey ==> x in bodies) && epoch == bodies[id].epoch
    ensures forall m :: m in Meals(bodies, id, alive, prey) ==> m.eater == id && m.eaten in bodies
    ensures Ate(Meals(bodies, id, alive, prey), id) <==> prey != []
    ensures forall m :: m in Deletions(bodies, prey, epoch) ==> m.DeleteEntity?
    ensures forall x, e :: DeleteEntity(x, e) in Deletions(bodies, prey, epoch) <==>
                           Deletes(bodies, Meals(bodies, id, alive, prey), x, e)
  {
    hide Fed;
    var meals, deletions := Meals(bodies, id, alive, prey), Deletions(bodies, prey, epoch);
    if prey != [] {
      assert meals[0] in meals;
    }
    forall x, e | DeleteEntity(x, e) in deletions ensures Deletes(bodies, meals, x, e) {
      var i :| 0 <= i < |prey| && deletions[i] == DeleteEntity(x, e);
      assert meals[i] in meals && meals[i].eaten == x;
    }
    forall x, e | Deletes(bodies, meals, x, e) ensures DeleteEntity(x, e) in deletions {
      var m :| m in meals && m.eaten == x && e == EpochOf(bodies, m);
      var i :| 0 <= i < |prey| && meals[i] == m;
      assert deletions[i] == DeleteEntity(x, e);
    }
  }

  lemma {:induction false} AteBoth(a: seq<Meal>, b: seq<Meal>, id: string)
    ensures Ate(a + b, id) <==> Ate(a, id) || Ate(b, id)
  {
    if Ate(a, id) {
      var m :| m in a && m.eater == id;
      assert m in a + b;
    }
    if Ate(b, id) {
      var m :| m in b && m.eater == id;
      assert m in a + b;
    }
  }

  lemma {:induction false} DeletesBoth(bodies: map<string, Body>, a: seq<Meal>, b: seq<Meal>, x: string, epoch: int)
    requires forall m :: m in a || m in b ==> m.eater in bodies && m.eaten in bodies
    ensures Deletes(bodies, a + b, x, epoch) <==> Deletes(bodies, a, x, epoch) || Deletes(bodies, b, x, epoch)
  {
    hide EpochOf;
    if Deletes(bodies, a, x, epoch) {
      var m :| m in a && m.eaten == x && epoch == EpochOf(bodies, m);
      assert m in a + b;
    }
    if Deletes(bodies, b, x, epoch) {
      var m :| m in b && m.eaten == x && epoch == EpochOf(bodies, m);
      assert m in a + b;
    }
  }

  lemma {:induction false} SameEpochs(a: map<string, Body>, b: map<string, Body>, meals: seq<Meal>, x: string, e: int)
    requires a.Keys == b.Keys && forall y :: y in a ==> a[y].epoch == b[y].epoch
    requires forall m :: m in meals ==> m.eater in a && m.eaten in a
    ensures Deletes(a, meals, x, e) <==> Deletes(b, meals, x, e)
  {
    assert forall m :: m in meals ==> EpochOf(a, m) == EpochOf(b, m);
  }

  /** What a player that eats adds to the messages. */
  lemma {:induction false} MealAnnounced(ph: Physics, w: World, ids: seq<string>, t: World, id: string,
                                         prey: seq<string>, sent: seq<Message>)
    requires Advanced(ph, w, ids, t) && Announced(w, ids, t, sent) && id in w.bodies && id !in ids
    requires prey != [] && forall x :: x in prey ==> x in w.bodies
    ensures var b := t.bodies[id];
      Announced(w, ids + [id],
        t.(bodies := t.bodies[id := Grown(ph, t.bodies, id, prey)],
           meals := t.meals + Meals(t.bodies, id, id in t.owned, prey)),
        sent + (Deletions(t.bodies, prey, b.epoch) + [UpdateMass(id, b.mass + Fed(t.bodies, prey), b.epoch)]))
  {
    hide Fed, Meals, Deletions;
    var b, news := t.bodies[id], Meals(t.bodies, id, id in t.owned, prey);
    MealsOf(t.bodies, id, id in t.owned, prey, b.epoch);
    forall x ensures Ate(t.meals + news, x) <==> Ate(t.meals, x) || Ate(news, x) {
      AteBoth(t.meals, news, x);
    }
    forall x, e ensures Deletes(w.bodies, t.meals + news, x, e) <==>
                        Deletes(w.bodies, t.meals, x, e) || Deletes(t.bodies, news, x, e) {
      DeletesBoth(w.bodies, t.meals, news, x, e);
      SameEpochs(w.bodies, t.bodies, news, x, e);
    }
    hide Deletes;
  }

  /** What a turn without a meal leaves. */
  lemma {:induction false} HungryAnnounced(ph: Physics, w: World, ids: seq<string>, t: World, u: World, id: string,
                                           sent: seq<Message>)
    requires Announced(w, ids, t, sent) && id in w.bodies && id !in ids
    requires u.meals == t.meals && u.bodies.Keys == t.bodies.Keys
    requires forall x :: x in t.bodies && x != id ==> u.bodies[x] == t.bodies[x]
    ensures Announced(w, ids + [id], u, sent)
  {
    hide Deletes;
    assert !Ate(t.meals, id);
  }

  lemma {:induction false} Fasts(ph: Physics, t: World, id: string)
    requires WellFormed(t) && id in t.bodies
    requires t.bodies[id].kind != "player" || Prey(ph, t.bodies, id, t.owned) == []
    ensures TurnSends(ph, t, id) == []
    ensures var u := Turn(ph, t, id);
      && u.meals == t.meals && u.bodies.Keys == t.bodies.Keys
      && forall x :: x in t.bodies && x != id ==> u.bodies[x] == t.bodies[x]
  {
    TurnIs(ph, t, id);
    hide Turn, Distinct, Prey, Fed, Without, Deletions, Grown;
  }

  lemma {:induction false} Feasts(ph: Physics, t: World, id: string)
    requires WellFormed(t) && id in t.bodies && t.bodies[id].kind == "player" && Prey(ph, t.bodies, id, t.owned) != []
    ensures var u, b, prey := Turn(ph, t, id), t.bodies[id], Prey(ph, t.bodies, id, t.owned);
      && u.bodies == t.bodies[id := Grown(ph, t.bodies, id, prey)]
      && u.meals == t.meals + Meals(t.bodies, id, id in t.owned, prey)
      && TurnSends(ph, t, id)
           == Deletions(t.bodies, prey, b.epoch) + [UpdateMass(id, b.mass + Fed(t.bodies, prey), b.epoch)]
  {
    TurnIs(ph, t, id);
    hide Turn, Distinct, Prey, Fed, Without, Deletions, Grown, Meals;
  }

  lemma {:induction false} TurnAnnounces(ph: Physics, w: World, ids: seq<string>, t: World, id: string,
                                         sent: seq<Message>)
    requires WellFormed(t) && Advanced(ph, w, ids, t) && Announced(w, ids, t, sent) && id in w.bodies && id !in ids
    ensures Announced(w, ids + [id], Turn(ph, t, id), sent + TurnSends(ph, t, id))
  {
    hide Turn, Distinct, Prey, Fed, Without, Deletions, Grown, Announced, Meals, TurnSends;
    assert t.bodies.Keys == w.bodies.Keys;
    hide Advanced;
    var prey, u := Prey(ph, t.bodies, id, t.owned), Turn(ph, t, id);
    if t.bodies[id].kind != "player" || prey == [] {
      Fasts(ph, t, id);
      HungryAnnounced(ph, w, ids, t, u, id, sent);
      assert sent + [] == sent;
    } else {
      Feasts(ph, t, id);
      MealAnnounced(ph, w, ids, t, id, prey, sent);
      AnnouncedReads(w, ids + [id],
                     t.(bodies := t.bodies[id := Grown(ph, t.bodies, id, prey)],
                        meals := t.meals + Meals(t.bodies, id, id in t.owned, prey)), u, sent + TurnSends(ph, t, id));
    }
  }

  lemma {:induction false} AnnouncedReads(w: World, ids: seq<string>, t: World, u: World, sent: seq<Message>)
    requires Announced(w, ids, t, sent) && u.bodies == t.bodies && u.meals == t.meals
    ensures Announced(w, ids, u, sent)
  {
    hide Ate, Deletes;
  }

  lemma {:induction false} TurnsAnnounce(ph: Physics, w: World, ids: seq<string>)
    requires WellFormed(w) && w.meals == [] && Distinct(ids) && forall x :: x in ids ==> x in w.bodies
    ensures Announced(w, ids, Turns(ph, w, ids), Sends(ph, w, ids))
  {
    if ids != [] {
      hide Turn, WellFormed, Advanced, Announced, TurnSends;
      var init, last := ids[..|ids| - 1], ids[|ids| - 1];
      TurnsAnnounce(ph, w, init);
      TurnsAdvance(ph, w, init);
      assert ids == init + [last];
      TurnAnnounces(ph, w, init, Turns(ph, w, init), last, Sends(ph, w, init));
    }
  }

  // ---------------------------------------------------------------- what a tick tells the broker

  lemma {:induction false} TickIs(ph: Physics, w: World)
    requires WellFormed(w)
    ensures forall x :: x in Players(w.bodies, w.owned) ==> x in w.bodies
    ensures var t, u, noted := Turns(ph, Fresh(w), w.owned), Tick(ph, w),
                               Positions(ph, w.bodies, Players(w.bodies, w.owned));
      && u.bodies == t.bodies && u.meals == t.meals && u.posUpdates == noted
      && u.sent == w.sent + Sends(ph, Fresh(w), w.owned) + (if noted == [] then [] else [BatchPos(noted)])
  {
    TickAccounts(ph, w);
    TurnsNote(ph, Fresh(w), w.owned);
    TurnsSend(ph, Fresh(w), w.owned);
    hide Turns, Sends, Positions, Players, WellFormed;
    assert Fresh(w).sent == w.sent && Fresh(w).bodies == w.bodies && Fresh(w).posUpdates == [];
  }

  /** Every player of the snapshot is reported, in order, where its step from its place before the tick
      takes it; that is where it is after the tick, and its velocity is the step's. */
  lemma {:induction false} ReportedPositions(ph: Physics, w: World)
    requires WellFormed(w)
    ensures forall x :: x in Players(w.bodies, w.owned) ==> x in w.bodies && x in Tick(ph, w).bodies
    ensures Tick(ph, w).posUpdates == Positions(ph, w.bodies, Players(w.bodies, w.owned))
    ensures forall x :: x in Players(w.bodies, w.owned) ==>
      var b, after := w.bodies[x], Tick(ph, w).bodies[x];
      after.pos == ph.advance(b).1 && after.vel == ph.advance(b).0 && after.epoch == b.epoch
  {
    TickIs(ph, w);
    TurnsAdvance(ph, Fresh(w), w.owned);
    PlayersMembers(w.bodies, w.owned);
    hide Tick, Turns, Sends, Positions, Players, Distinct;
    assert Fresh(w).bodies == w.bodies;
  }

  /** A tick sends, besides the position report at its end, exactly this: for every player that ate, its
      mass after the tick under its epoch, and for everything eaten, its deletion under its own epoch, or
      under its eater's if it has none. */
  lemma {:induction false} SentMessages(ph: Physics, w: World)
    requires WellFormed(w)
    ensures forall x :: x in Players(w.bodies, w.owned) ==> x in w.bodies
    ensures var sent, noted := Sends(ph, Fresh(w), w.owned), Positions(ph, w.bodies, Players(w.bodies, w.owned));
      && Announced(w, w.owned, Tick(ph, w), sent)
      && Tick(ph, w).sent == w.sent + sent + if Players(w.bodies, w.owned) == [] then [] else [BatchPos(noted)]
  {
    TickIs(ph, w);
    TurnsAnnounce(ph, Fresh(w), w.owned);
    var t := Turns(ph, Fresh(w), w.owned);
    hide Tick, Turns, Sends, Players, Distinct, Announced, Deletes, Ate;
    AnnouncedFrom(Fresh(w), w, w.owned, t, Tick(ph, w), Sends(ph, Fresh(w), w.owned));
  }

  lemma {:induction false} AnnouncedFrom(v: World, w: World, ids: seq<string>, t: World, u: World, sent: seq<Message>)
    requires Announced(v, ids, t, sent) && v.bodies == w.bodies && u.bodies == t.bodies && u.meals == t.meals
    ensures Announced(w, ids, u, sent)
  {
    hide Ate, Deletes;
  }

  // ---------------------------------------------------------------- masses

  /** What a player absorbed. */
  function Gained(meals: seq<Meal>, id: string): real {
    if meals == [] then 0.0
    else
      var last := meals[|meals| - 1];
      Gained(meals[..|meals| - 1], id) + if last.eater == id then last.eatenMass else 0.0
  }

  lemma {:induction false} GainedBoth(a: seq<Meal>, b: seq<Meal>, id: string)
    ensures Gained(a + b, id) == Gained(a, id) + Gained(b, id)
  {
    if b == [] {
      assert a + b == a;
    } else {
      var init, last := b[..|b| - 1], b[|b| - 1];
      GainedBoth(a, init, id);
      assert (a + b)[..|a + b| - 1] == a + init;
    }
  }

  lemma {:induction false} GainedIsFed(bodies: map<string, Body>, id: string, alive: bool, prey: seq<string>, x: string)
    requires id in bodies && forall y :: y in prey ==> y in bodies
    ensures Gained(Meals(bodies, id, alive, prey), x) == if x == id then Fed(bodies, prey) else 0.0
  {
    if prey != [] {
      var init, last := prey[..|prey| - 1], prey[|prey| - 1];
      GainedIsFed(bodies, id, alive, init, x);
      assert prey == init + [last];
      FedMore(bodies, init, last);
      MealsMore(bodies, id, alive, init, last);
      var meals := Meals(bodies, id, alive, prey);
      assert meals[..|meals| - 1] == Meals(bodies, id, alive, init);
    }
  }

  lemma {:induction false} TurnsGain(ph: Physics, w: World, ids: seq<string>, x: string)
    requires WellFormed(w) && w.meals == [] && x in w.bodies && forall y :: y in ids ==> y in w.bodies
    ensures var t := Turns(ph, w, ids); t.bodies[x].mass == w.bodies[x].mass + Gained(t.meals, x)
  {
    if ids != [] {
      hide Turn, WellFormed, Prey, Without, Deletions, Meals, Fed, Gained;
      var init, last := ids[..|ids| - 1], ids[|ids| - 1];
      TurnsGain(ph, w, init, x);
      TurnGains(ph, Turns(ph, w, init), last, x);
    }
  }

  lemma {:induction false} TurnGains(ph: Physics, t: World, id: string, x: string)
    requires WellFormed(t) && id in t.bodies && x in t.bodies
    ensures var u := Turn(ph, t, id);
      u.bodies[x].mass - Gained(u.meals, x) == t.bodies[x].mass - Gained(t.meals, x)
  {
    hide Turn, Distinct, Prey, Without, Deletions, Meals, Fed, Gained;
    TurnIs(ph, t, id);
    var prey := Prey(ph, t.bodies, id, t.owned);
    GainedBoth(t.meals, Meals(t.bodies, id, id in t.owned, prey), x);
    GainedIsFed(t.bodies, id, id in t.owned, prey, x);
  }

  /** After a tick everything weighs what it weighed before and what it absorbed. */
  lemma {:induction false} MassIsGained(ph: Physics, w: World, x: string)
    requires WellFormed(w) && x in w.bodies
    ensures x in Tick(ph, w).bodies
    ensures Tick(ph, w).bodies[x].mass == w.bodies[x].mass + Gained(Tick(ph, w).meals, x)
  {
    TickIs(ph, w);
    TurnsGain(ph, Fresh(w), w.owned, x);
    hide Tick, Turns, Gained;
  }
}
