/** The physics-backed ("envell") world: its entities and its own variable
    store, which scripts reach through `world.setNum` and friends. */
module EnvellWorld {
  import opened Common
  import opened Programmable
  import opened EnvellEntity

  /** One `<entity>` element of a world document, already read: the id it
      gives and the variables declared inside it. */
  datatype EntityDecl = EntityDecl(id: string, vars: Programmable)

  class World {
    var ents: seq<Entity>
    var prog: Programmable

    constructor New()
      ensures ents == [] && prog == map[]
    {
      ents := [];
      prog := map[];
    }

    /** `load`: the entity list is emptied first, whether or not the
        document can be read (`doc == None` when it cannot); then one freshly
        made entity per declaration is initialised and appended, in document
        order. */
    method Load(doc: Option<seq<EntityDecl>>)
      modifies this`ents
      ensures doc.None? ==> ents == []
      ensures doc.Some? ==> |ents| == |doc.value|
      ensures doc.Some? ==> forall i :: 0 <= i < |ents| ==>
        fresh(ents[i]) && ents[i].id == doc.value[i].id && ents[i].prog == doc.value[i].vars
    {
      ents := [];
      if doc.None? {
        return;
      }
      var decls := doc.value;
      var i := 0;
      while i < |decls|
        invariant 0 <= i <= |decls| && |ents| == i
        invariant forall j :: 0 <= j < i ==>
          fresh(ents[j]) && ents[j].id == decls[j].id && ents[j].prog == decls[j].vars
      {
        var e := new Entity.New();
        e.Init(decls[i].id, decls[i].vars);
        ents := ents + [e];
        i := i + 1;
      }
    }

    method SetNum(varName: string, v: real)
      modifies this`prog
      ensures prog == WithNum(old(prog), varName, v)
    {
      if varName in prog {
        prog := prog[varName := prog[varName].(num := v)];
      } else {
        prog := prog[varName := Variable(v, "")];
      }
    }

    method SetStr(varName: string, s: string)
      modifies this`prog
      ensures prog == WithStr(old(prog), varName, s)
    {
      if varName in prog {
        prog := prog[varName := prog[varName].(str := s)];
      } else {
        prog := prog[varName := Variable(0.0, s)];
      }
    }

    function GetNum(varName: string): (r: real)
      reads this
      ensures varName in prog ==> r == prog[varName].num
      ensures varName !in prog ==> r == 0.0
    {
      NumOf(prog, varName)
    }

    function GetStr(varName: string): (r: string)
      reads this
      ensures varName in prog ==> r == prog[varName].str
      ensures varName !in prog ==> r == ""
    {
      StrOf(prog, varName)
    }
  }
}
