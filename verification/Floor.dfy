/** Registry, substrates, process jobs, lots and recipes as the objects that are updated in place. */
module Floor {
  import opened Basics
  import opened Secs
  import opened Gem300
  import opened Recipes

  class ObjectRegistry {
    var objects: Registry

    constructor ()
      ensures objects == map[]
    {
      objects := map[];
    }

    /** `create`: refuses an identifier in use. */
    method Create(id: Id, kind: Kind) returns (ok: bool)
      modifies this
      ensures ok <==> id !in old(objects)
      ensures objects == if ok then old(objects)[id := kind] else old(objects)
    {
      ok := id !in objects;
      if ok {
        objects := objects[id := kind];
      }
    }

    method Destroy(id: Id) returns (ok: bool)
      modifies this
      ensures ok <==> id in old(objects)
      ensures objects == old(objects) - {id}
    {
      ok := id in objects;
      objects := objects - {id};
    }
  }

  /** An event id with the values it reports. */
  datatype Occurrence = Occurrence(ceid: nat, reports: seq<(string, Item)>)

  class SubstrateManager {
    var substrates: Wafers

    constructor ()
      ensures substrates == map[]
    {
      substrates := map[];
    }

    method Register(registry: ObjectRegistry, id: Id, lot: Option<Id>, location: Location) returns (ok: bool)
      modifies this, registry
      ensures ok <==> id !in old(registry.objects)
      ensures registry.objects == if ok then old(registry.objects)[id := Substrate] else old(registry.objects)
      ensures substrates == if ok then old(substrates)[id := Wafer(lot, location)] else old(substrates)
    {
      ok := registry.Create(id, Substrate);
      if ok {
        substrates := substrates[id := Wafer(lot, location)];
      }
    }

    /** `move_substrate`: replaces the location and reports where the wafer came from. */
    method MoveSubstrate(id: Id, to: Location) returns (o: Option<Occurrence>)
      modifies this
      ensures o.Some? <==> id in old(substrates)
      ensures o.None? ==> substrates == old(substrates)
      ensures o.Some? ==>
                && substrates == old(substrates)[id := old(substrates)[id].(location := to)]
                && o.value == Occurrence(5001, [("SubstrateID", A(id)),
                                                ("FromLocation", A(FormatLocation(old(substrates)[id].location))),
                                                ("ToLocation", A(FormatLocation(to)))])
    {
      if id !in substrates {
        return None;
      }
      var from := substrates[id].location;
      substrates := substrates[id := substrates[id].(location := to)];
      o := Some(Occurrence(5001, [("SubstrateID", A(id)), ("FromLocation", A(FormatLocation(from))),
                                  ("ToLocation", A(FormatLocation(to)))]));
    }
  }

  class ProcessJobManager {
    var jobs: Jobs

    constructor ()
      ensures jobs == map[]
    {
      jobs := map[];
    }

    method Create(registry: ObjectRegistry, id: Id, carriers: seq<Id>, recipe: string, wafers: seq<Id>) returns (ok: bool)
      modifies this, registry
      ensures ok <==> id !in old(registry.objects)
      ensures registry.objects == if ok then old(registry.objects)[id := ProcessJob] else old(registry.objects)
      ensures jobs == if ok then old(jobs)[id := Job(carriers, recipe, Queued, wafers)] else old(jobs)
    {
      ok := registry.Create(id, ProcessJob);
      if ok {
        jobs := jobs[id := Job(carriers, recipe, Queued, wafers)];
      }
    }

    /** `transition`: an illegal move, an unknown job or an unregistered one changes nothing. */
    method Transition(registry: ObjectRegistry, id: Id, to: JobState) returns (ceid: Option<nat>)
      modifies this
      ensures match MoveJob(registry.objects, old(jobs), id, to)
              case None => ceid == None && jobs == old(jobs)
              case Some(moved) => ceid == Some(moved.event) && jobs == moved.state
    {
      if id !in registry.objects || id !in jobs {
        return None;
      }
      ceid := JobEvent(jobs[id].state, to);
      if ceid.Some? {
        jobs := jobs[id := jobs[id].(state := to)];
      }
    }
  }

  class LotTracker {
    var lots: Lots

    constructor ()
      ensures lots == []
    {
      lots := [];
    }

    method Register(lot: Lot) returns (ok: bool)
      modifies this
      ensures ok <==> forall i :: 0 <= i < |old(lots)| ==> old(lots)[i].id != lot.id
      ensures lots == if ok then old(lots) + [lot] else old(lots)
    {
      ok := FindLot(lots, lot.id).None?;
      if ok {
        lots := lots + [lot];
      }
    }

    /** `get_mut(id)` and `transition(to)`: the history and the state of one lot change together. */
    method Transition(id: Id, to: LotState) returns (ceid: Option<nat>)
      modifies this
      ensures match MoveLotById(old(lots), id, to)
              case None => ceid == None && lots == old(lots)
              case Some(moved) => ceid == Some(moved.event) && lots == moved.state
    {
      var at := FindLot(lots, id);
      if at.None? {
        return None;
      }
      var l := lots[at.value];
      ceid := LotEventOf(l.state, to);
      if ceid.Some? {
        lots := lots[at.value := l.(history := l.history + [LotEvent(l.state, to, ceid.value)], state := to)];
      }
    }
  }

  class RecipeStore {
    var recipes: Store

    constructor ()
      ensures recipes == map[]
    {
      recipes := map[];
    }

    /** `add`: a duplicate is reported, but the new recipe has already taken the old one's place. */
    method Add(id: string, recipe: Recipe) returns (ok: bool)
      modifies this
      ensures ok <==> id !in old(recipes)
      ensures recipes == old(recipes)[id := recipe]
    {
      ok := id !in recipes;
      recipes := recipes[id := recipe];
    }

    /** `get_mut(id)` and `add_version`; `false` when there is no such recipe. */
    method AppendVersion(id: string, v: Version) returns (ok: bool)
      modifies this
      ensures ok <==> id in old(recipes)
      ensures recipes == if ok then old(recipes)[id := AddVersion(old(recipes)[id], v)] else old(recipes)
    {
      ok := id in recipes;
      if ok {
        recipes := recipes[id := AddVersion(recipes[id], v)];
      }
    }
  }
}
