/** Server settings: whether the session has ten player slots instead of
    five, the tick rates, per-name permission groups, and the checkpoint a
    new world starts from. Durations are in seconds. */
module Config {
  import opened Common

  datatype Permission = Developer | Player

  /** The group's name as stored in the settings file. */
  function ToString(p: Permission): (s: string)
    ensures s != []
  {
    match p
    case Developer => "dev"
    case Player => "player"
  }

  /** The group for a name read from the settings file; `None` for an
      unknown name, which the loader rejects. */
  function PermissionOf(s: string): (p: Option<Permission>)
    ensures p.Some? ==> ToString(p.value) == s
  {
    if s == "dev" then Some(Developer)
    else if s == "player" then Some(Player)
    else None
  }

  /** Group names round-trip through the settings file. */
  lemma PermissionNameRoundTrip(p: Permission)
    ensures PermissionOf(ToString(p)) == Some(p)
  {
  }

  /** Whether a holder of `have` may do what requires `level`. */
  function Check(have: Permission, level: Permission): (ok: bool)
    ensures level == Player ==> ok
    ensures level == Developer ==> (ok <==> have == Developer)
  {
    match level
    case Player => true
    case Developer => have == Developer
  }

  /** `Check` is an order: reflexive and transitive, Developer above Player. */
  lemma CheckIsOrder(a: Permission, b: Permission, c: Permission)
    ensures Check(a, a)
    ensures Check(a, b) && Check(b, c) ==> Check(a, c)
    ensures Check(a, b) && Check(b, a) ==> a == b
  {
  }

  const WEB_CLIENT := "WebClient"

  class Config {
    var extendedPlayers: bool
    var tickRate: byte
    var sendTime: real
    var recvTime: real
    var permissions: map<string, Permission>
    var firstCheckpoint: string

    /** The settings used when there is no settings file. */
    constructor Default()
      ensures !extendedPlayers && tickRate == 1 && sendTime == 1.0 && recvTime == 0.5
      ensures permissions == map[] && firstCheckpoint == "main"
    {
      extendedPlayers := false;
      tickRate := 1;
      sendTime := 1.0;
      recvTime := 0.5;
      permissions := map[];
      firstCheckpoint := "main";
    }

    /** The web client is always a developer; a name without an entry is a
        player. */
    function GetPermission(name: string): (p: Permission)
      reads this
      ensures name == WEB_CLIENT ==> p == Developer
      ensures name != WEB_CLIENT && name !in permissions ==> p == Player
      ensures name != WEB_CLIENT && name in permissions ==> p == permissions[name]
    {
      if name == WEB_CLIENT then Developer else GetOr(permissions, name, Player)
    }

    method SetPermission(name: string, group: Permission)
      modifies this`permissions
      ensures permissions == old(permissions)[name := group]
      ensures name != WEB_CLIENT ==> GetPermission(name) == group
      ensures forall n :: n != name ==> GetPermission(n) == old(GetPermission(n))
    {
      permissions := permissions[name := group];
    }

    /** The number of player slots. */
    function PlayersCount(): (n: nat)
      reads this
      ensures n == if extendedPlayers then 10 else 5
    {
      5 * if extendedPlayers then 2 else 1
    }
  }
}
