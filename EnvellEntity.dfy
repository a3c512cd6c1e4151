/** An entity of the physics-backed ("envell") world as its script sees it:
    its variable store, its list of sprites and its optional physics body.
    The Lua closures `entity.*` and `physics.*` act on the current entity;
    here they are members of the entity itself. */
module EnvellEntity {
  import opened Common
  import opened Programmable

  /** A handle of a body in the physics world. */
  type BodyHandle = nat

  datatype BodyType = Static | Kinematic | Dynamic

  /** The body type named by a script: "static" and "kinematic" are
      recognised, every other string is dynamic. */
  function BodyTypeOf(data: string): (t: BodyType)
    ensures t == Static <==> data == "static"
    ensures t == Kinematic <==> data == "kinematic"
  {
    if data == "static" then Static
    else if data == "kinematic" then Kinematic
    else Dynamic
  }

  /** A request to the physics world about one body. Positions and
      velocities are in pixels, angles in degrees, as the script gives them. */
  datatype BodyCommand =
    | SetBodyType(body: BodyHandle, kind: BodyType)
    | ReplaceHitbox(body: BodyHandle)
    | SetTransform(body: BodyHandle, x: real, y: real, degrees: real)
    | SetVelocity(body: BodyHandle, vx: real, vy: real)
    | ApplyForce(body: BodyHandle, fx: real, fy: real)

  class Entity {
    var id: string
    var name: string
    var group: string
    var prog: Programmable
    /** The animator file of each sprite, in creation order. */
    var drawable: seq<string>
    var physics: Option<BodyHandle>

    /** `Entity::new()`. */
    constructor New()
      ensures id == "" && name == "" && group == ""
      ensures prog == map[] && drawable == [] && physics == None
    {
      id := "";
      name := "";
      group := "";
      prog := map[];
      drawable := [];
      physics := None;
    }

    /** Takes the id and copies every supplied variable into the store, in
        whatever order the map yields them. */
    method Init(newId: string, supplied: Programmable)
      modifies this`id, this`prog
      ensures id == newId
      ensures prog == Merge(old(prog), supplied)
    {
      id := newId;
      var rest := supplied.Keys;
      while rest != {}
        invariant id == newId && rest <= supplied.Keys
        invariant prog == old(prog) + Copied(supplied, supplied.Keys - rest)
        decreases rest
      {
        var key :| key in rest;
        CopyStep(old(prog), supplied, supplied.Keys - rest, key);
        prog := prog[key := supplied[key]];
        assert supplied.Keys - (rest - {key}) == (supplied.Keys - rest) + {key};
        rest := rest - {key};
      }
      CopiedAll(old(prog), supplied);
      assert supplied.Keys - rest == supplied.Keys;
    }

    method SetNum(varName: string, v: real)
      modifies this`prog
      ensures prog == WithNum(old(prog), varName, v)
    {
      if varName in prog {
        prog := prog[varName := prog[varName].(num := v)];
      } else {
        prog := prog[varName := Variable(v, "")];
      }
    }

    method SetStr(varName: string, s: string)
      modifies this`prog
      ensures prog == WithStr(old(prog), varName, s)
    {
      if varName in prog {
        prog := prog[varName := prog[varName].(str := s)];
      } else {
        prog := prog[varName := Variable(0.0, s)];
      }
    }

    function GetNum(varName: string): (r: real)
      reads this
      ensures varName in prog ==> r == prog[varName].num
      ensures varName !in prog ==> r == 0.0
    {
      NumOf(prog, varName)
    }

    function GetStr(varName: string): (r: string)
      reads this
      ensures varName in prog ==> r == prog[varName].str
      ensures varName !in prog ==> r == ""
    {
      StrOf(prog, varName)
    }

    /** Adds a sprite and answers its index, which is the old length of the
        list. */
    method CreateSprite(path: string) returns (index: int)
      modifies this`drawable
      ensures drawable == old(drawable) + [path]
      ensures index == |old(drawable)| && drawable[index] == path
    {
      drawable := drawable + [path];
      index := |drawable| - 1;
    }

    /** `physics.init`: the entity gets the body the physics world created. */
    method PhysicsInit(body: BodyHandle)
      modifies this`physics
      ensures physics == Some(body)
    {
      physics := Some(body);
    }

    /** The request `physics.setBodyType` makes; none without a body. */
    function PhysicsSetBodyType(data: string): (cmd: Option<BodyCommand>)
      reads this
      ensures cmd.None? <==> physics.None?
      ensures cmd.Some? ==> cmd.value == SetBodyType(physics.value, BodyTypeOf(data))
    {
      if physics.None? then None else Some(SetBodyType(physics.value, BodyTypeOf(data)))
    }

    /** The request `physics.setHitbox` makes (its fixtures are replaced);
        none without a body. */
    function PhysicsSetHitbox(): (cmd: Option<BodyCommand>)
      reads this
      ensures cmd.None? <==> physics.None?
      ensures cmd.Some? ==> cmd.value == ReplaceHitbox(physics.value)
    {
      if physics.None? then None else Some(ReplaceHitbox(physics.value))
    }

    function PhysicsSetTransform(x: real, y: real, degrees: real): (cmd: Option<BodyCommand>)
      reads this
      ensures cmd.None? <==> physics.None?
      ensures cmd.Some? ==> cmd.value == SetTransform(physics.value, x, y, degrees)
    {
      if physics.None? then None else Some(SetTransform(physics.value, x, y, degrees))
    }

    function PhysicsSetVelocity(vx: real, vy: real): (cmd: Option<BodyCommand>)
      reads this
      ensures cmd.None? <==> physics.None?
      ensures cmd.Some? ==> cmd.value == SetVelocity(physics.value, vx, vy)
    {
      if physics.None? then None else Some(SetVelocity(physics.value, vx, vy))
    }

    function PhysicsApplyForce(fx: real, fy: real): (cmd: Option<BodyCommand>)
      reads this
      ensures cmd.None? <==> physics.None?
      ensures cmd.Some? ==> cmd.value == ApplyForce(physics.value, fx, fy)
    {
      if physics.None? then None else Some(ApplyForce(physics.value, fx, fy))
    }

    /** `physics.getTransform`: `pose` is what the physics world reports for
        the body (position in pixels, angle in degrees); without a body the
        answer is all zeros. */
    function PhysicsGetTransform(pose: (real, real, real)): (r: (real, real, real))
      reads this
      ensures physics.None? ==> r == (0.0, 0.0, 0.0)
      ensures physics.Some? ==> r == pose
    {
      if physics.None? then (0.0, 0.0, 0.0) else pose
    }

    /** `physics.getVelocity`, in the same terms as `PhysicsGetTransform`. */
    function PhysicsGetVelocity(velocity: (real, real)): (r: (real, real))
      reads this
      ensures physics.None? ==> r == (0.0, 0.0)
      ensures physics.Some? ==> r == velocity
    {
      if physics.None? then (0.0, 0.0) else velocity
    }
  }
}
