/** The `network` table the game scripts use: queries and commands over the
    client's `Network` object (message history, player states, login
    identity) and the encoding of requests sent to the server. */
module Bind {
  import opened Common
  import opened ClientNet
  import Transmission

  /** The number a script uses to ask for a kind of message. */
  function Code(m: NetMessage): (k: int)
    ensures 1 <= k <= 7
  {
    match m
    case Login(_, _, _) => 1
    case Disconnected(_) => 2
    case Chat(_) => 3
    case SetPosition => 4
    case GetInfo(_, _, _, _, _) => 5
    case SelectChar(_, _) => 6
    case GameReady(_) => 7
  }

  /** Whether any message of the kind is waiting, scanning the history in
      order and stopping at the first hit. */
  method HasMessage(net: Network, code: byte) returns (found: bool)
    ensures found <==> exists i :: 0 <= i < |net.tcpHistory| && Code(net.tcpHistory[i]) == code
  {
    var i := 0;
    while i < |net.tcpHistory|
      invariant 0 <= i <= |net.tcpHistory|
      invariant forall j :: 0 <= j < i ==> Code(net.tcpHistory[j]) != code
    {
      if Code(net.tcpHistory[i]) == code {
        return true;
      }
      i := i + 1;
    }
    return false;
  }

  /** A message `getMessage` hands out for the code: its kind matches, and
      it is not a `SetPosition`, which has no arm of its own there. */
  predicate Retrievable(m: NetMessage, code: int)
  {
    Code(m) == code && !m.SetPosition?
  }

  /** The index of the first retrievable message. */
  function FirstRetrievable(h: seq<NetMessage>, code: int): (r: Option<nat>)
    ensures r.Some? ==> r.value < |h| && Retrievable(h[r.value], code)
    ensures r.Some? ==> forall j :: 0 <= j < r.value ==> !Retrievable(h[j], code)
    ensures r.None? ==> forall j :: 0 <= j < |h| ==> !Retrievable(h[j], code)
  {
    if h == [] then None
    else if Retrievable(h[0], code) then Some(0)
    else match FirstRetrievable(h[1..], code)
      case None => None
      case Some(j) => Some(j + 1)
  }

  /** `Vec::swap_remove`: the last element takes the place of the removed one. */
  function SwapRemove<T>(h: seq<T>, i: nat): (r: seq<T>)
    requires i < |h|
    ensures |r| == |h| - 1
  {
    if i == |h| - 1 then h[..i] else h[..i] + [h[|h| - 1]] + h[i + 1..|h| - 1]
  }

  /** Removing by swapping loses exactly the removed element. */
  lemma SwapRemoveMultiset<T>(h: seq<T>, i: nat)
    requires i < |h|
    ensures multiset(SwapRemove(h, i)) == multiset(h) - multiset{h[i]}
  {
    if i == |h| - 1 {
      assert h == h[..i] + [h[i]];
    } else {
      assert h == h[..i] + [h[i]] + h[i + 1..|h| - 1] + [h[|h| - 1]];
    }
  }

  /** A `getMessage` call that does not stop the game: when the message it
      would hand out is a session description, every player entry in it
      is a well-formed `id/name/class` (a malformed one panics while the
      players table is built, before anything is removed). */
  predicate PlayersReadable(h: seq<NetMessage>, code: int)
  {
    match FirstRetrievable(h, code)
    case None => true
    case Some(i) => h[i].GetInfo? ==> PlayersTable(h[i].players).Some?
  }

  /** Takes the first retrievable message of the kind out of the history;
      `None` stands for the empty table returned when there is none. For a
      session description, `players` holds the rows of its players table. */
  method GetMessage(net: Network, code: byte) returns (r: Option<NetMessage>, players: seq<(byte, Text, Text)>)
    requires PlayersReadable(net.tcpHistory, code)
    modifies net`tcpHistory
    ensures match FirstRetrievable(old(net.tcpHistory), code)
      case None => r.None? && players == [] && net.tcpHistory == old(net.tcpHistory)
      case Some(i) =>
        r == Some(old(net.tcpHistory)[i]) && net.tcpHistory == SwapRemove(old(net.tcpHistory), i) &&
        if old(net.tcpHistory)[i].GetInfo? then PlayersTable(old(net.tcpHistory)[i].players) == Some(players)
        else players == []
  {
    players := [];
    var i := 0;
    while i < |net.tcpHistory|
      invariant 0 <= i <= |net.tcpHistory|
      invariant net.tcpHistory == old(net.tcpHistory) && players == []
      invariant forall j :: 0 <= j < i ==> !Retrievable(net.tcpHistory[j], code)
    {
      var m := net.tcpHistory[i];
      var found := false;
      match m {
        case Login(_, _, _) => found := code == 1;
        case Disconnected(_) => found := code == 2;
        case Chat(_) => found := code == 3;
        case GetInfo(_, _, _, _, entries) =>
          if code == 5 {
            assert FirstRetrievable(net.tcpHistory, code) == Some(i) by {
              FirstRetrievableIs(net.tcpHistory, code, i);
            }
            players := ReadPlayers(entries);
            found := true;
          }
        case SelectChar(_, _) => found := code == 6;
        case GameReady(_) => found := code == 7;
        case SetPosition =>
      }
      if found {
        FirstRetrievableIs(net.tcpHistory, code, i);
        net.tcpHistory := SwapRemove(net.tcpHistory, i);
        return Some(m), players;
      }
      i := i + 1;
    }
    return None, [];
  }

  /** A retrievable index with none before it is the first one. */
  lemma {:induction false} FirstRetrievableIs(h: seq<NetMessage>, code: int, i: nat)
    requires i < |h| && Retrievable(h[i], code)
    requires forall j :: 0 <= j < i ==> !Retrievable(h[j], code)
    ensures FirstRetrievable(h, code) == Some(i)
    decreases i
  {
    if i > 0 {
      FirstRetrievableIs(h[1..], code, i - 1);
    }
  }

  /** A `SetPosition` can be reported by `hasMessage(4)` but is never
      handed out or removed by `getMessage(4)`. */
  lemma SetPositionNeverRetrieved(h: seq<NetMessage>)
    ensures FirstRetrievable(h, 4) == None
  {
    forall j | 0 <= j < |h| ensures !Retrievable(h[j], 4) {
    }
  }

  // ---------------------------------------------------------------------------
  // Player entries of a session description

  const SLASH: byte := '/' as int

  /** One entry of the session's player list, `id/name/class`; `None` when
      the id is not a byte value or a part is missing. */
  function PlayerEntry(p: Text): (r: Option<(byte, Text, Text)>)
    ensures r.Some? ==> SLASH !in r.value.1 && SLASH !in r.value.2
  {
    var parts := SplitOn(p, SLASH);
    match ParseU8(parts[0])
    case None => None
    case Some(id) => if |parts| < 3 then None else Some((id, parts[1], parts[2]))
  }

  /** The players table of a session description, or `None` when one of
      its entries is malformed. */
  function PlayersTable(players: seq<Text>): (r: Option<seq<(byte, Text, Text)>>)
    ensures r.Some? ==> |r.value| == |players|
  {
    if players == [] then Some([])
    else match PlayerEntry(players[0])
      case None => None
      case Some(e) =>
        match PlayersTable(players[1..])
        case None => None
        case Some(rest) => Some([e] + rest)
  }

  /** A players table exists iff every entry is well formed, and its rows
      are the entries read one by one. */
  lemma {:induction false} PlayersTableIndex(ps: seq<Text>)
    ensures PlayersTable(ps).Some? <==> forall j :: 0 <= j < |ps| ==> PlayerEntry(ps[j]).Some?
    ensures PlayersTable(ps).Some? ==> forall j :: 0 <= j < |ps| ==> PlayersTable(ps).value[j] == PlayerEntry(ps[j]).value
    decreases |ps|
  {
    if ps != [] {
      PlayersTableIndex(ps[1..]);
      assert forall j :: 1 <= j < |ps| ==> ps[1..][j - 1] == ps[j];
    }
  }

  /** The loop of `getMessage` that builds the players table of a session
      description, one `id/name/class` entry at a time. */
  method ReadPlayers(entries: seq<Text>) returns (rows: seq<(byte, Text, Text)>)
    requires PlayersTable(entries).Some?
    ensures PlayersTable(entries) == Some(rows)
  {
    PlayersTableIndex(entries);
    rows := [];
    var k := 0;
    while k < |entries|
      invariant 0 <= k <= |entries|
      invariant |rows| == k && forall j :: 0 <= j < k ==> rows[j] == PlayerEntry(entries[j]).value
    {
      var parts := SplitOn(entries[k], SLASH);
      assert PlayerEntry(entries[k]).Some?;
      var id := ParseU8(parts[0]).value;
      rows := rows + [(id, parts[1], parts[2])];
      k := k + 1;
    }
    assert PlayersTable(entries).value == rows;
  }

  /** An entry written as `id/name/class`, with names free of `/`, reads
      back as the same id, name and class. */
  lemma PlayerEntryRoundTrip(id: byte, name: Text, cls: Text)
    requires SLASH !in name && SLASH !in cls
    ensures PlayerEntry(Decimal(id) + [SLASH] + name + [SLASH] + cls) == Some((id, name, cls))
  {
    var d := Decimal(id);
    assert SLASH !in d by {
      forall k | 0 <= k < |d| ensures d[k] != SLASH { assert IsDigit(d[k]); }
    }
    SplitOnJoin(name, cls, SLASH);
    assert d + [SLASH] + name + [SLASH] + cls == d + [SLASH] + (name + [SLASH] + cls);
    SplitOnJoin(d, name + [SLASH] + cls, SLASH);
    ParseU8OfDecimal(id);
  }

  // ---------------------------------------------------------------------------
  // Identity and player states

  /** Forgets the session: no identity, no stream, no socket. */
  method Disconnect(net: Network)
    modifies net`className, net`id, net`name, net`tcp, net`udp
    ensures net.className == [] && net.id == 0 && net.name == [] && !net.tcp && !net.udp
  {
    net.className := [];
    net.id := 0;
    net.name := [];
    net.tcp := false;
    net.udp := false;
  }

  /** Records the identity the server assigned. */
  method Login(net: Network, id: byte, name: Text, className: Text)
    modifies net`id, net`name, net`className
    ensures net.id == id && net.name == name && net.className == className
  {
    net.id := id;
    net.name := name;
    net.className := className;
  }

  /** The state of a player slot; slot 0 (no player) reads as all zeros. */
  function GetState(net: Network, id: byte): (r: PlayerState)
    reads net
    requires id == 0 || id <= |net.state|
    ensures id == 0 ==> r == DefaultState
    ensures id != 0 ==> r == net.state[id - 1]
  {
    if id == 0 then PlayerState((0, 0), (0, 0), 0, false, false, false)
    else net.state[id - 1]
  }

  // ---------------------------------------------------------------------------
  // Requests to the server

  /** The bytes written for `sendMessage(code, fields)`: register a name
      (1), send a chat line (2), or one of the bare requests 4, 5 (with a
      slot) and 6; any other code writes nothing. */
  function Packet(code: byte, name: Text, msg: Text, id: byte): (r: seq<byte>)
    ensures code in {1, 2, 4, 5, 6} <==> |r| > 0
  {
    if code == 1 then [1] + name
    else if code == 2 then [2] + msg
    else if code == 4 then [4]
    else if code == 5 then [5, id]
    else if code == 6 then [6]
    else []
  }

  /** What the server makes of a request when the whole packet arrives in
      one read: a registration carries the name, a chat request the line,
      and the other requests are not understood by it. */
  lemma PacketAsServerReads(code: byte, name: Text, msg: Text, id: byte)
    requires code in {1, 2, 4, 5, 6}
    ensures Transmission.FromRaw(Packet(code, name, msg, id)) ==
      if code == 1 then Transmission.Register(name)
      else if code == 2 then Transmission.ServerMessage.Chat(msg)
      else Transmission.Invalid
  {
    var p := Packet(code, name, msg, id);
    if code == 1 { assert p[1..] == name; }
    if code == 2 { assert p[1..] == msg; }
  }
}
