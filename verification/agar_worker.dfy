/** The agar zone worker object, examples/agar_mit_clone/gw_authoritative_zone_worker.js: its map of
    owned entities updated in place by nested loops over snapshots. */
module AgarWorker {
  import opened Wrappers
  import opened AgarTick

  class Worker {
    const physics: Physics
    var bodies: map<string, Body>
    var owned: seq<string>
    var sent: seq<Message>
    var posUpdates: seq<(string, Pos, int)>
    ghost var meals: seq<Meal>

    ghost function View(): World
      reads this
    {
      World(bodies, owned, sent, posUpdates, meals)
    }

    constructor (physics: Physics)
      ensures this.physics == physics && View() == World(map[], [], [], [], []) && WellFormed(View())
    {
      this.physics := physics;
      bodies, owned, sent, posUpdates, meals := map[], [], [], [], [];
    }

    method DeleteOwned(entity: string, epoch: int)
      modifies this`owned, this`sent
      ensures owned == Remove(old(owned), entity) && sent == old(sent) + [DeleteEntity(entity, epoch)]
    {
      owned := Remove(owned, entity);
      sent := sent + [DeleteEntity(entity, epoch)];
    }

    method DeleteIfOwned(entity: string) returns (deleted: bool)
      requires WellFormed(View())
      modifies this`owned, this`sent
      ensures WellFormed(View()) && deleted == (entity in old(owned))
      ensures forall x :: x in owned <==> x in old(owned) && x != entity
      ensures !deleted ==> owned == old(owned) && sent == old(sent)
      ensures deleted ==>
        var epoch := old(bodies)[entity].epoch;
        sent == old(sent) + [DeleteEntity(entity, if epoch != 0 then epoch else 1)]
    {
      if entity !in owned {
        RemoveMembers(owned, entity);
        return false;
      }
      RemoveMembers(owned, entity);
      var epoch := bodies[entity].epoch;
      DeleteOwned(entity, if epoch != 0 then epoch else 1);
      deleted := true;
    }

    /** One candidate of the inner loop. */
    method Consider(entityId: string, otherId: string, eatRadius: real) returns (ate: bool)
      requires entityId in bodies && otherId in bodies
      modifies this`bodies, this`owned, this`sent, this`meals
      ensures View() == TryEat(physics, old(View()), entityId, otherId, eatRadius)
      ensures ate == (|meals| > |old(meals)|)
    {
      hide Remove;
      var entity, other := bodies[entityId], bodies[otherId];
      if otherId == entityId {
        return false;
      }
      if other.kind != "food" && other.kind != "player" {
        return false;
      }
      if entity.mass <= other.mass * 1.1 {
        return false;
      }
      if physics.distance(other.pos, entity.pos) > eatRadius {
        return false;
      }
      meals := meals + [Meal(entityId, otherId, entity.mass, other.mass, other.kind == "food", entityId in owned)];
      bodies := bodies[entityId := entity.(mass := entity.mass + other.mass)];
      DeleteOwned(otherId, if other.epoch != 0 then other.epoch else entity.epoch);
      ate := true;
    }

    method TakeTurn(entityId: string)
      requires WellFormed(View()) && entityId in bodies
      modifies this`bodies, this`owned, this`sent, this`posUpdates, this`meals
      ensures View() == Turn(physics, old(View()), entityId)
    {
      hide TryEat;
      var entity := bodies[entityId];
      if entity.kind != "player" {
        return;
      }
      ghost var before := View();
      var step := physics.advance(entity);
      bodies := bodies[entityId := entity.(vel := step.0, pos := step.1)];
      ghost var moved := View();
      assert moved == Moved(physics, before, entityId);
      var eatRadius := physics.eatRadius(bodies[entityId].mass);
      var massDirty := false;
      var others := owned;
      for k := 0 to |others|
        invariant forall x :: x in others ==> x in moved.bodies
        invariant entityId in bodies && bodies.Keys == moved.bodies.Keys
        invariant View() == EatAll(physics, moved, entityId, others[..k], eatRadius)
        invariant |meals| >= |moved.meals| && massDirty == (|meals| > |moved.meals|)
      {
        assert others[..k + 1][..k] == others[..k];
        assert others[k] in others;
        ghost var count := |meals|;
        MealsGrow(View(), entityId, others[k], eatRadius);
        var ate := Consider(entityId, others[k], eatRadius);
        massDirty := massDirty || ate;
      }
      assert others[..|others|] == others;
      posUpdates := posUpdates + [(entityId, bodies[entityId].pos, bodies[entityId].epoch)];
      if massDirty {
        sent := sent + [UpdateMass(entityId, bodies[entityId].mass, bodies[entityId].epoch)];
      }
    }

    lemma {:induction false} MealsGrow(w: World, id: string, other: string, reach: real)
      requires id in w.bodies && other in w.bodies
      ensures |TryEat(physics, w, id, other, reach).meals| >= |w.meals|
      ensures TryEat(physics, w, id, other, reach).bodies.Keys == w.bodies.Keys
    {}

    method TickOwned()
      requires WellFormed(View())
      modifies this
      ensures WellFormed(View()) && View() == Tick(physics, old(View()))
    {
      hide Turn;
      posUpdates, meals := [], [];
      ghost var start := View();
      var snapshot := owned;
      for k := 0 to |snapshot|
        invariant WellFormed(View()) && bodies.Keys == start.bodies.Keys
        invariant View() == Turns(physics, start, snapshot[..k])
      {
        assert snapshot[..k + 1][..k] == snapshot[..k];
        assert snapshot[k] in snapshot;
        TurnWellFormed(physics, View(), snapshot[k]);
        TakeTurn(snapshot[k]);
      }
      assert snapshot[..|snapshot|] == snapshot;
      if posUpdates != [] {
        sent := sent + [BatchPos(posUpdates)];
      }
    }
  }

  lemma {:induction false} TurnWellFormed(ph: Physics, w: World, id: string)
    requires WellFormed(w) && id in w.bodies
    ensures WellFormed(Turn(ph, w, id))
  {
    TurnAccounts(ph, w, id);
    hide Turn;
  }
}
