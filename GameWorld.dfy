/** The scripted game world: a name, the entities in spawn order, and named
    trigger areas. The world script and the entities' own scripts are not
    part of the model; an entity is known by its id and the file it was
    loaded from. */
module GameWorld {
  import opened Common

  datatype Entity = Entity(id: string, path: string)

  /** A rectangle `(x, y, w, h)` (`glam::Vec4`). */
  datatype Vec4 = Vec4(x: real, y: real, z: real, w: real)

  /** A trigger: the name scripts see and its hitbox. */
  datatype Trigger = Trigger(name: string, hitbox: Vec4)

  /** The position of the first entity with that id, if any. */
  function FirstIndex(ents: seq<Entity>, id: string): (r: Option<nat>)
    ensures r.Some? ==> r.value < |ents| && ents[r.value].id == id
    ensures r.Some? ==> forall j :: 0 <= j < r.value ==> ents[j].id != id
    ensures r.None? ==> forall j :: 0 <= j < |ents| ==> ents[j].id != id
  {
    if ents == [] then None
    else if ents[0].id == id then Some(0)
    else match FirstIndex(ents[1..], id)
      case None => None
      case Some(k) => Some(k + 1)
  }

  /** The list without its first entity with that id; the list itself when
      there is none. */
  function RemoveFirst(ents: seq<Entity>, id: string): (r: seq<Entity>)
    ensures FirstIndex(ents, id).None? ==> r == ents
    ensures FirstIndex(ents, id).Some? ==>
      var k := FirstIndex(ents, id).value;
      |r| == |ents| - 1 &&
      (forall j :: 0 <= j < k ==> r[j] == ents[j]) &&
      (forall j :: k <= j < |r| ==> r[j] == ents[j + 1])
  {
    match FirstIndex(ents, id)
    case None => ents
    case Some(k) => ents[..k] + ents[k + 1..]
  }

  /** Removing an entity that was just spawned under a fresh id gives back
      the list from before the spawn. */
  lemma {:induction false} KillUndoesSpawn(ents: seq<Entity>, e: Entity)
    requires forall j :: 0 <= j < |ents| ==> ents[j].id != e.id
    ensures FirstIndex(ents + [e], e.id) == Some(|ents|)
    ensures RemoveFirst(ents + [e], e.id) == ents
  {
    if ents != [] {
      KillUndoesSpawn(ents[1..], e);
      assert (ents + [e])[1..] == ents[1..] + [e];
    }
  }

  class World {
    var name: string
    var ents: seq<Entity>
    var triggers: map<string, Trigger>

    constructor New()
      ensures name == "" && ents == [] && triggers == map[]
    {
      name := "";
      ents := [];
      triggers := map[];
    }

    /** `parse`: takes the new name and empties the entity list before the
        world script runs; the triggers are kept. */
    method Parse(id: string)
      modifies this`name, this`ents
      ensures name == id && ents == []
    {
      name := id;
      ents := [];
    }

    /** The index of the first entity with that id; a missing id is a panic. */
    method GetEntity(id: string) returns (i: nat)
      requires exists j :: 0 <= j < |ents| && ents[j].id == id
      ensures FirstIndex(ents, id) == Some(i)
    {
      i := 0;
      while ents[i].id != id
        invariant i < |ents|
        invariant forall j :: 0 <= j < i ==> ents[j].id != id
        invariant exists j :: i <= j < |ents| && ents[j].id == id
        decreases |ents| - i
      {
        i := i + 1;
      }
      FirstIndexIs(ents, id, i);
    }

    /** `spawn`: the new entity goes to the end of the list. */
    method Spawn(id: string, path: string)
      modifies this`ents
      ensures ents == old(ents) + [Entity(id, path)]
    {
      ents := ents + [Entity(id, path)];
    }

    /** `kill`: removes the first entity with that id, if any. */
    method Kill(id: string)
      modifies this`ents
      ensures ents == RemoveFirst(old(ents), id)
    {
      var i := 0;
      while i < |ents|
        invariant 0 <= i <= |ents| && ents == old(ents)
        invariant forall j :: 0 <= j < i ==> ents[j].id != id
      {
        if ents[i].id == id {
          FirstIndexIs(ents, id, i);
          ents := ents[..i] + ents[i + 1..];
          return;
        }
        i := i + 1;
      }
    }

    /** `createTrigger`: inserts the trigger or overwrites the one with that
        id. */
    method CreateTrigger(id: string, trigName: string, hitbox: Vec4)
      modifies this`triggers
      ensures triggers == old(triggers)[id := Trigger(trigName, hitbox)]
    {
      triggers := triggers[id := Trigger(trigName, hitbox)];
    }

    /** `modifyTrigger`: an existing trigger gets the new hitbox and keeps its
        name; an unknown id changes nothing. */
    method ModifyTrigger(id: string, hitbox: Vec4)
      modifies this`triggers
      ensures id in old(triggers) ==>
        triggers == old(triggers)[id := Trigger(old(triggers)[id].name, hitbox)]
      ensures id !in old(triggers) ==> triggers == old(triggers)
    {
      if id in triggers {
        triggers := triggers[id := triggers[id].(hitbox := hitbox)];
      }
    }
  }

  /** The first index is determined by "matches, and nothing before does". */
  lemma {:induction false} FirstIndexIs(ents: seq<Entity>, id: string, i: nat)
    requires i < |ents| && ents[i].id == id
    requires forall j :: 0 <= j < i ==> ents[j].id != id
    ensures FirstIndex(ents, id) == Some(i)
  {
    if i > 0 {
      FirstIndexIs(ents[1..], id, i - 1);
    }
  }
}
