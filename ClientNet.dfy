/** The client side of the game's networking: the 9-byte player-state
    record exchanged over UDP, the decoder of the server's TCP stream, and
    the `Network` object that holds the connection state, the received
    player states and the history of received messages. */
module ClientNet {
  import opened Common
  import Transmission

  // ===========================================================================
  // Player state records

  const RECORD_SIZE: nat := 9

  /** One player's replicated state. Positions and velocities are the
      integer values that travel on the wire. */
  datatype PlayerState = PlayerState(
    pos: (int, int),
    vel: (int, int),
    moveX: int,
    jump: bool,
    attack: bool,
    protect: bool)

  const DefaultState := PlayerState((0, 0), (0, 0), 0, false, false, false)

  /** The values a record can carry: every coordinate fits in 16 bits. */
  predicate Encodable(s: PlayerState)
  {
    IsU16(s.pos.0) && IsU16(s.pos.1) && IsU16(s.vel.0) && IsU16(s.vel.1)
  }

  const ID_MASK: bv8 := 0x07
  const JUMP_BIT: bv8 := 0x08
  const RIGHT_BIT: bv8 := 0x10
  const LEFT_BIT: bv8 := 0x20
  const PROTECT_BIT: bv8 := 0x40
  const ATTACK_BIT: bv8 := 0x80

  /** Decodes one record: the low three bits of the first byte are the
      sender's slot, the other bits are the input flags, then four
      little-endian 16-bit fields. */
  function ParseState(data: seq<byte>): (r: (byte, PlayerState))
    requires |data| >= RECORD_SIZE
    ensures r.0 < 8
    ensures Encodable(r.1) && r.1.moveX in {-1, 0, 1}
  {
    var status := data[0] as bv8;
    var moveX := if status & LEFT_BIT != 0 then -1 else if status & RIGHT_BIT != 0 then 1 else 0;
    ((status & ID_MASK) as int,
     PlayerState(
       (FromLE16(data[1], data[2]), FromLE16(data[3], data[4])),
       (FromLE16(data[5], data[6]), FromLE16(data[7], data[8])),
       moveX,
       status & JUMP_BIT != 0,
       status & ATTACK_BIT != 0,
       status & PROTECT_BIT != 0))
  }

  /** The status byte: the slot number with the input flags or-ed in. */
  function StatusByte(s: PlayerState, id: byte): bv8
  {
    var b := id as bv8;
    var b := if s.moveX == -1 then b | LEFT_BIT else b;
    var b := if s.moveX == 1 then b | RIGHT_BIT else b;
    var b := if s.jump then b | JUMP_BIT else b;
    var b := if s.attack then b | ATTACK_BIT else b;
    if s.protect then b | PROTECT_BIT else b
  }

  /** Encodes one record for slot `id`. */
  function RawState(s: PlayerState, id: byte): (r: seq<byte>)
    requires Encodable(s)
    ensures |r| == RECORD_SIZE
  {
    [StatusByte(s, id) as int] + LE16(s.pos.0) + LE16(s.pos.1) + LE16(s.vel.0) + LE16(s.vel.1)
  }

  lemma StatusByteOfSmallId(s: PlayerState, id: byte)
    requires id < 8 && s.moveX in {-1, 0, 1}
    ensures StatusByte(s, id) & ID_MASK == id as bv8
    ensures (StatusByte(s, id) & LEFT_BIT != 0) == (s.moveX == -1)
    ensures (StatusByte(s, id) & RIGHT_BIT != 0) == (s.moveX == 1)
    ensures (StatusByte(s, id) & JUMP_BIT != 0) == s.jump
    ensures (StatusByte(s, id) & ATTACK_BIT != 0) == s.attack
    ensures (StatusByte(s, id) & PROTECT_BIT != 0) == s.protect
  {
  }

  /** A record written for a slot below 8 reads back as the same slot and
      the same state. */
  lemma RawStateRoundTrip(s: PlayerState, id: byte)
    requires Encodable(s) && s.moveX in {-1, 0, 1} && id < 8
    ensures ParseState(RawState(s, id)) == (id, s)
  {
    var r := RawState(s, id);
    StatusByteOfSmallId(s, id);
    BitsRoundTrip(StatusByte(s, id));
    RawStateBytes(s, id);
    ParseOfStatus(r, StatusByte(s, id), s, id);
  }

  /** A record whose status byte carries slot `id` and the input flags of
      `s`, and whose words are the position and velocity of `s`, reads
      back as `(id, s)`. */
  lemma ParseOfStatus(r: seq<byte>, st: bv8, s: PlayerState, id: byte)
    requires |r| >= RECORD_SIZE && r[0] as bv8 == st && id < 8 && s.moveX in {-1, 0, 1}
    requires st & ID_MASK == id as bv8
    requires (st & LEFT_BIT != 0) == (s.moveX == -1) && (st & RIGHT_BIT != 0) == (s.moveX == 1)
    requires (st & JUMP_BIT != 0) == s.jump && (st & ATTACK_BIT != 0) == s.attack
    requires (st & PROTECT_BIT != 0) == s.protect
    requires FromLE16(r[1], r[2]) == s.pos.0 && FromLE16(r[3], r[4]) == s.pos.1
    requires FromLE16(r[5], r[6]) == s.vel.0 && FromLE16(r[7], r[8]) == s.vel.1
    ensures ParseState(r) == (id, s)
  {
    assert (id as bv8) as int == id as int;
  }

  /** Where each field lands in a record. */
  lemma RawStateBytes(s: PlayerState, id: byte)
    requires Encodable(s)
    ensures var r := RawState(s, id);
      r[0] == StatusByte(s, id) as int &&
      FromLE16(r[1], r[2]) == s.pos.0 && FromLE16(r[3], r[4]) == s.pos.1 &&
      FromLE16(r[5], r[6]) == s.vel.0 && FromLE16(r[7], r[8]) == s.vel.1
  {
    var a, b, c, d := LE16(s.pos.0), LE16(s.pos.1), LE16(s.vel.0), LE16(s.vel.1);
    var r := RawState(s, id);
    assert r == [StatusByte(s, id) as int] + a + b + c + d;
    assert r[1] == a[0] && r[2] == a[1] && r[3] == b[0] && r[4] == b[1];
    assert r[5] == c[0] && r[6] == c[1] && r[7] == d[0] && r[8] == d[1];
  }

  /** The slot is not masked when the record is written: a slot number of
      8 or more cannot be read back, and its bit 3 reads as a jump. */
  lemma RawStateLargeIdAliases(s: PlayerState, id: byte)
    requires Encodable(s) && id >= 8
    ensures ParseState(RawState(s, id)).0 != id
    ensures (id as bv8) & JUMP_BIT != 0 ==> ParseState(RawState(s, id)).1.jump
  {
    var b := StatusByte(s, id);
    var r := RawState(s, id);
    StatusByteKeepsJump(s, id);
    BitsRoundTrip(b);
    assert r[0] == b as int;
    assert ParseState(r).1.jump == (r[0] as bv8 & JUMP_BIT != 0);
  }

  lemma BitsRoundTrip(x: bv8)
    ensures (x as int) as bv8 == x
  {
  }

  lemma StatusByteKeepsJump(s: PlayerState, id: byte)
    ensures (id as bv8) & JUMP_BIT != 0 ==> StatusByte(s, id) & JUMP_BIT != 0
  {
  }

  // ===========================================================================
  // Received TCP messages

  /** A message of the server as the client understands it. The payload of
      `SetPosition` is not part of this model; the decoder never produces it. */
  datatype NetMessage =
    | Login(id: byte, name: Text, className: Text)
    | Disconnected(id: byte)
    | Chat(text: Text)
    | SetPosition
    | GetInfo(udpPort: int, tickRate: byte, checkpoint: Text, extendPlayers: bool, players: seq<Text>)
    | SelectChar(id: byte, className: Text)
    | GameReady(ready: byte)

  const PIPE: byte := '|' as int

  /** The index of the first NUL byte at or after `start`; `None` when the
      scan runs off the end of the buffer. */
  function NulFrom(b: seq<byte>, start: nat): (r: Option<nat>)
    ensures r.Some? ==> start <= r.value < |b| && b[r.value] == 0
    ensures r.Some? ==> forall k :: start <= k < r.value ==> b[k] != 0
    ensures r.None? ==> forall k :: start <= k < |b| ==> b[k] != 0
    decreases |b| - start
  {
    if start >= |b| then None else if b[start] == 0 then Some(start) else NulFrom(b, start + 1)
  }

  /** The non-empty pieces of a split. */
  function NonEmpty(ps: seq<Text>): (r: seq<Text>)
    ensures forall i :: 0 <= i < |r| ==> r[i] != [] && r[i] in ps
  {
    if ps == [] then []
    else (if ps[0] == [] then [] else [ps[0]]) + NonEmpty(ps[1..])
  }

  /** The result of decoding the message that starts at a cursor: the
      message, if the tag is known, and the cursor after it. */
  datatype Step = Step(msg: Option<NetMessage>, next: nat)

  function OptList(m: Option<NetMessage>): seq<NetMessage>
  {
    if m.Some? then [m.value] else []
  }

  /** Decodes the message whose tag is at `c`; `None` when a field or a
      terminator lies past the end of the buffer (an out-of-bounds index
      in the decoder). Unknown tags are skipped one byte at a time. */
  function DecodeAt(b: seq<byte>, c: nat): (r: Option<Step>)
    requires c < |b|
    ensures r.Some? ==> c < r.value.next <= |b|
  {
    var tag := b[c];
    if tag == 1 then DecodeLogin(b, c)
    else if tag == 5 then DecodeGetInfo(b, c)
    else if tag == 2 then DecodeTagAndByte(b, c)
    else if tag == 3 then DecodeChat(b, c)
    else if tag == 6 then DecodeSelectChar(b, c)
    else if tag == 7 then DecodeTagAndByte(b, c)
    else Some(Step(None, c + 1))
  }

  /** Tag 1: slot, NUL-terminated name, NUL-terminated class. */
  function DecodeLogin(b: seq<byte>, c: nat): (r: Option<Step>)
    requires c < |b|
    ensures r.Some? ==> c < r.value.next <= |b|
  {
    if c + 1 >= |b| then None
    else match NulFrom(b, c + 2)
      case None => None
      case Some(e1) =>
        match NulFrom(b, e1 + 1)
        case None => None
        case Some(e2) => Some(Step(Some(Login(b[c + 1], b[c + 2..e1], b[e1 + 1..e2])), e2 + 1))
  }

  /** Tag 5: UDP port, tick rate, extended flag, NUL-terminated player
      list separated by `|`, NUL-terminated checkpoint. */
  function DecodeGetInfo(b: seq<byte>, c: nat): (r: Option<Step>)
    requires c < |b|
    ensures r.Some? ==> c < r.value.next <= |b|
  {
    if c + 4 >= |b| then None
    else match NulFrom(b, c + 5)
      case None => None
      case Some(e1) =>
        match NulFrom(b, e1 + 1)
        case None => None
        case Some(e2) =>
          var players := NonEmpty(SplitOn(b[c + 5..e1], PIPE));
          Some(Step(Some(GetInfo(FromLE16(b[c + 1], b[c + 2]), b[c + 3], b[e1 + 1..e2], b[c + 4] != 0, players)), e2 + 1))
  }

  /** Tags 2 and 7: one byte after the tag (a slot, a ready flag). */
  function DecodeTagAndByte(b: seq<byte>, c: nat): (r: Option<Step>)
    requires c < |b|
    ensures r.Some? ==> c < r.value.next <= |b|
  {
    if c + 1 >= |b| then None
    else Some(Step(Some(if b[c] == 2 then Disconnected(b[c + 1]) else GameReady(b[c + 1])), c + 2))
  }

  /** Tag 3: a NUL-terminated chat line. */
  function DecodeChat(b: seq<byte>, c: nat): (r: Option<Step>)
    requires c < |b|
    ensures r.Some? ==> c < r.value.next <= |b|
  {
    match NulFrom(b, c + 1)
    case None => None
    case Some(e) => Some(Step(Some(Chat(b[c + 1..e])), e + 1))
  }

  /** Tag 6: slot and NUL-terminated class. */
  function DecodeSelectChar(b: seq<byte>, c: nat): (r: Option<Step>)
    requires c < |b|
    ensures r.Some? ==> c < r.value.next <= |b|
  {
    if c + 1 >= |b| then None
    else match NulFrom(b, c + 2)
      case None => None
      case Some(e) => Some(Step(Some(SelectChar(b[c + 1], b[c + 2..e])), e + 1))
  }

  /** Decodes the buffer from cursor `c` on, after `acc` was decoded. */
  function DecodeFrom(b: seq<byte>, c: nat, acc: seq<NetMessage>): Option<seq<NetMessage>>
    decreases |b| - c
  {
    if c >= |b| then Some(acc)
    else match DecodeAt(b, c)
      case None => None
      case Some(st) => DecodeFrom(b, st.next, acc + OptList(st.msg))
  }

  /** The messages in one received TCP buffer, or `None` when decoding it
      indexes past its end. */
  function Decode(b: seq<byte>): Option<seq<NetMessage>>
  {
    DecodeFrom(b, 0, [])
  }

  /** Finds the next NUL byte the way the decoder's inner loops do. */
  method ScanNul(b: seq<byte>, start: nat) returns (r: Option<nat>)
    ensures r == NulFrom(b, start)
  {
    var len := 0;
    while start + len < |b| && b[start + len] != 0
      invariant NulFrom(b, start) == NulFrom(b, start + len)
      decreases |b| - len
    {
      len := len + 1;
    }
    if start + len >= |b| {
      return None;
    }
    return Some(start + len);
  }

  /** The decoder's `match` on the tag at `current`. */
  method DecodeOne(buffer: seq<byte>, current: nat) returns (r: Option<Step>)
    requires current < |buffer|
    ensures r == DecodeAt(buffer, current)
  {
    var tag := buffer[current];
    if tag == 1 {
      r := ReadLogin(buffer, current);
    } else if tag == 5 {
      r := ReadGetInfo(buffer, current);
    } else if tag == 2 {
      if current + 1 >= |buffer| { return None; }
      var id := buffer[current + 1];
      return Some(Step(Some(Disconnected(id)), current + 1 + 1));
    } else if tag == 3 {
      r := ReadChat(buffer, current);
    } else if tag == 6 {
      r := ReadSelectChar(buffer, current);
    } else if tag == 7 {
      if current + 1 >= |buffer| { return None; }
      var state := buffer[current + 1];
      return Some(Step(Some(GameReady(state)), current + 1 + 1));
    } else {
      return Some(Step(None, current + 1));
    }
  }

  method ReadLogin(buffer: seq<byte>, current: nat) returns (r: Option<Step>)
    requires current < |buffer|
    ensures r == DecodeLogin(buffer, current)
  {
    if current + 1 >= |buffer| { return None; }
    var id := buffer[current + 1];
    var nameEnd := ScanNul(buffer, current + 2);
    if nameEnd.None? { return None; }
    var name := buffer[current + 2..nameEnd.value];
    var classEnd := ScanNul(buffer, current + |name| + 3);
    if classEnd.None? { return None; }
    var cls := buffer[current + |name| + 3..classEnd.value];
    return Some(Step(Some(Login(id, name, cls)), current + 1 + 1 + |name| + 1 + |cls| + 1));
  }

  method ReadGetInfo(buffer: seq<byte>, current: nat) returns (r: Option<Step>)
    requires current < |buffer|
    ensures r == DecodeGetInfo(buffer, current)
  {
    if current + 4 >= |buffer| { return None; }
    var port := FromLE16(buffer[current + 1], buffer[current + 2]);
    var tickRate := buffer[current + 3];
    var extended := buffer[current + 4] != 0;
    var playersEnd := ScanNul(buffer, current + 5);
    if playersEnd.None? { return None; }
    var pl := playersEnd.value - (current + 5);
    var players := NonEmpty(SplitOn(buffer[current + 5..current + 5 + pl], PIPE));
    var cpEnd := ScanNul(buffer, current + 6 + pl);
    if cpEnd.None? { return None; }
    var checkpoint := buffer[current + 6 + pl..cpEnd.value];
    return Some(Step(Some(GetInfo(port, tickRate, checkpoint, extended, players)),
                     current + 1 + 2 + 1 + 1 + pl + 1 + |checkpoint| + 1));
  }

  method ReadChat(buffer: seq<byte>, current: nat) returns (r: Option<Step>)
    requires current < |buffer|
    ensures r == DecodeChat(buffer, current)
  {
    var msgEnd := ScanNul(buffer, current + 1);
    if msgEnd.None? { return None; }
    var msg := buffer[current + 1..msgEnd.value];
    return Some(Step(Some(Chat(msg)), current + 1 + |msg| + 1));
  }

  method ReadSelectChar(buffer: seq<byte>, current: nat) returns (r: Option<Step>)
    requires current < |buffer|
    ensures r == DecodeSelectChar(buffer, current)
  {
    if current + 1 >= |buffer| { return None; }
    var id := buffer[current + 1];
    var classEnd := ScanNul(buffer, current + 2);
    if classEnd.None? { return None; }
    var cls := buffer[current + 2..classEnd.value];
    return Some(Step(Some(SelectChar(id, cls)), current + 1 + 1 + |cls| + 1));
  }

  /** The decoder of one TCP buffer, walking a cursor over it; `None`
      stands for the out-of-bounds index that ends it on a truncated
      message. */
  method ParseMessages(buffer: seq<byte>) returns (out: Option<seq<NetMessage>>)
    ensures out == Decode(buffer)
  {
    var msgs: seq<NetMessage> := [];
    var current := 0;
    while current < |buffer|
      invariant DecodeFrom(buffer, current, msgs) == Decode(buffer)
      decreases |buffer| - current
    {
      var step := DecodeOne(buffer, current);
      if step.None? {
        return None;
      }
      msgs := msgs + OptList(step.value.msg);
      current := step.value.next;
    }
    return Some(msgs);
  }

  // ---------------------------------------------------------------------------
  // Properties of the decoder

  /** A byte that is no known tag is skipped on its own. */
  lemma UnknownTagSkipped(b: seq<byte>, c: nat)
    requires c < |b| && b[c] !in {1, 2, 3, 5, 6, 7}
    ensures DecodeAt(b, c) == Some(Step(None, c + 1))
  {
  }

  /** A chat message whose terminating NUL has not arrived makes the whole
      buffer undecodable. */
  lemma {:induction false} UnterminatedChatFails(b: seq<byte>, c: nat, acc: seq<NetMessage>)
    requires c < |b| && b[c] == 3
    requires forall k :: c < k < |b| ==> b[k] != 0
    ensures DecodeFrom(b, c, acc) == None
  {
    assert NulFrom(b, c + 1) == None;
  }

  /** What the client makes of an announcement encoded by the server. */
  function AsReceived(m: Transmission.ClientMessage): NetMessage
  {
    match m
    case Login(id, name) => Login(id, name, [])
    case Disconnected(id) => Disconnected(id)
    case Chat(text) => Chat(text)
  }

  /** Announcements the client can decode: disconnections and chat lines
      without a NUL byte. */
  predicate Decodable(m: Transmission.ClientMessage)
  {
    m.Disconnected? || (m.Chat? && Transmission.NulFree(m.text))
  }

  /** The decoder's step at an encoded announcement reads exactly that
      announcement. */
  lemma DecodeAtServerMessage(b: seq<byte>, c: nat, m: Transmission.ClientMessage)
    requires Decodable(m)
    requires c + |Transmission.ToRaw(m)| <= |b| && b[c..c + |Transmission.ToRaw(m)|] == Transmission.ToRaw(m)
    ensures DecodeAt(b, c) == Some(Step(Some(AsReceived(m)), c + |Transmission.ToRaw(m)|))
  {
    var r := Transmission.ToRaw(m);
    forall k | 0 <= k < |r| ensures b[c + k] == r[k] {
      assert b[c..c + |r|][k] == b[c + k];
    }
    assert b[c] == r[0];
    if m.Chat? {
      var e := c + |r| - 1;
      forall k | c + 1 <= k < e ensures b[k] != 0 {
        assert b[k] == r[k - c] == m.text[k - c - 1];
      }
      assert b[e] == r[|r| - 1] == 0;
      assert NulFrom(b, c + 1) == Some(e);
      assert b[c + 1..e] == m.text by {
        forall k | 0 <= k < |m.text| ensures b[c + 1..e][k] == m.text[k] {
          assert b[c + 1 + k] == r[1 + k];
        }
      }
    } else {
      assert b[c + 1] == r[1];
    }
  }

  /** A disconnection or NUL-free chat line encoded by the server, found
      anywhere in a buffer, decodes in place as the same message, and
      decoding resumes right after it. */
  lemma DecodeFromServerMessage(b: seq<byte>, c: nat, m: Transmission.ClientMessage, acc: seq<NetMessage>)
    requires Decodable(m)
    requires c + |Transmission.ToRaw(m)| <= |b| && b[c..c + |Transmission.ToRaw(m)|] == Transmission.ToRaw(m)
    ensures DecodeFrom(b, c, acc) == DecodeFrom(b, c + |Transmission.ToRaw(m)|, acc + [AsReceived(m)])
  {
    DecodeAtServerMessage(b, c, m);
  }

  /** The server's login announcement has no class field, so the client's
      decoder reads past its end. */
  lemma ServerLoginUndecodable(id: byte, name: Text)
    requires Transmission.NulFree(name)
    ensures Decode(Transmission.ToRaw(Transmission.Login(id, name))) == None
  {
    var b := Transmission.ToRaw(Transmission.Login(id, name));
    assert NulFrom(b, 2) == Some(|b| - 1) by {
      forall k | 2 <= k < |b| - 1 ensures b[k] != 0 {
        assert b[k] == name[k - 2];
      }
    }
  }

  /** A server login announcement followed by more bytes is decoded: the
      slot and name are its own, and the class is read from the bytes
      after it, up to the next NUL, which are consumed with it. */
  lemma ServerLoginReadsOn(id: byte, name: Text, rest: seq<byte>)
    requires Transmission.NulFree(name)
    ensures var b := Transmission.ToRaw(Transmission.Login(id, name)) + rest;
      var e1 := |name| + 2;
      var e2 := NulFrom(b, e1 + 1);
      (e2.None? ==> DecodeAt(b, 0).None?) &&
      (e2.Some? ==> DecodeAt(b, 0) == Some(Step(Some(Login(id, name, b[e1 + 1..e2.value])), e2.value + 1)))
  {
    var b := Transmission.ToRaw(Transmission.Login(id, name)) + rest;
    LoginHead(id, name, rest);
    LoginAfterName(b, 0, |name| + 2, id, name);
  }

  /** In a buffer that starts with a Login, the tag, the slot and the
      NUL-terminated name are where the decoder looks for them. */
  lemma LoginHead(id: byte, name: Text, rest: seq<byte>)
    requires Transmission.NulFree(name)
    ensures var b := Transmission.ToRaw(Transmission.Login(id, name)) + rest;
      var e1 := |name| + 2;
      e1 < |b| && b[0] == 1 && b[1] == id && NulFrom(b, 2) == Some(e1) && b[2..e1] == name
  {
    var l := Transmission.ToRaw(Transmission.Login(id, name));
    assert l == [Transmission.TAG_LOGIN, id] + name + [0];
    var b := l + rest;
    var e1 := |name| + 2;
    assert b[0] == 1 && b[1] == id && b[e1] == 0;
    assert b[2..e1] == name;
    forall k | 2 <= k < e1 ensures b[k] != 0 {
      assert b[k] == name[k - 2];
    }
    NulFromFirst(b, 2, e1);
  }

  /** A Login whose class ends at `e2` decodes in full, and the cursor
      moves past that NUL. */
  lemma LoginWithClass(b: seq<byte>, c: nat, e1: nat, e2: nat, id: byte, name: Text, cls: Text)
    requires c + 1 < |b| && b[c] == 1 && NulFrom(b, c + 2) == Some(e1)
    requires b[c + 1] == id && b[c + 2..e1] == name && NulFrom(b, e1 + 1) == Some(e2)
    requires b[e1 + 1..e2] == cls
    ensures DecodeAt(b, c) == Some(Step(Some(Login(id, name, cls)), e2 + 1))
  {
    LoginAfterName(b, c, e1, id, name);
  }

  /** Once the name's terminator is found, a login's class is whatever
      lies between it and the next NUL. */
  lemma LoginAfterName(b: seq<byte>, c: nat, e1: nat, id: byte, name: Text)
    requires c + 1 < |b| && b[c] == 1 && NulFrom(b, c + 2) == Some(e1)
    requires b[c + 1] == id && b[c + 2..e1] == name
    ensures NulFrom(b, e1 + 1).None? ==> DecodeAt(b, c).None?
    ensures NulFrom(b, e1 + 1).Some? ==>
      var e2 := NulFrom(b, e1 + 1).value;
      DecodeAt(b, c) == Some(Step(Some(Login(id, name, b[e1 + 1..e2])), e2 + 1))
  {
  }

  /** A stretch free of NUL bytes followed by a NUL ends the scan there. */
  lemma {:induction false} NulFromFirst(b: seq<byte>, start: nat, e: nat)
    requires start <= e < |b| && b[e] == 0
    requires forall k :: start <= k < e ==> b[k] != 0
    ensures NulFrom(b, start) == Some(e)
    decreases e - start
  {
    if start < e {
      NulFromFirst(b, start + 1, e);
    }
  }

  /** A login announcement followed by a chat line decodes as one login
      whose class is the chat's tag and text: the chat line is lost. */
  lemma ServerLoginThenChat(id: byte, name: Text, text: Text)
    requires Transmission.NulFree(name) && Transmission.NulFree(text)
    ensures var b := Transmission.ToRaw(Transmission.Login(id, name)) + Transmission.ToRaw(Transmission.ClientMessage.Chat(text));
      DecodeAt(b, 0) == Some(Step(Some(Login(id, name, [Transmission.TAG_CHAT] + text)), |b|))
  {
    var l := Transmission.ToRaw(Transmission.Login(id, name));
    var m := Transmission.ToRaw(Transmission.ClientMessage.Chat(text));
    var run := [Transmission.TAG_CHAT] + text;
    assert m == run + [0];
    forall k | 0 <= k < |run| ensures run[k] != 0 {
      if k > 0 {
        assert run[k] == text[k - 1];
      }
    }
    LoginSwallowsRun(id, name, run);
  }

  /** A Login followed by a NUL-free run and a NUL decodes as one Login
      whose class is that run, and the cursor ends after the NUL. */
  lemma LoginSwallowsRun(id: byte, name: Text, run: seq<byte>)
    requires Transmission.NulFree(name)
    requires forall k :: 0 <= k < |run| ==> run[k] != 0
    ensures var b := Transmission.ToRaw(Transmission.Login(id, name)) + (run + [0]);
      DecodeAt(b, 0) == Some(Step(Some(Login(id, name, run)), |b|))
  {
    var l := Transmission.ToRaw(Transmission.Login(id, name));
    var b := l + (run + [0]);
    LoginHead(id, name, run + [0]);
    NulTerminatedTail(l, run);
    var e1 := |name| + 2;
    assert e1 + 1 == |l|;
    LoginWithClass(b, 0, e1, |b| - 1, id, name, run);
  }

  /** A NUL-free run closed by a NUL, after any prefix: the search from the
      run's start stops at that NUL, the last byte. */
  lemma NulTerminatedTail(pre: seq<byte>, run: seq<byte>)
    requires forall k :: 0 <= k < |run| ==> run[k] != 0
    ensures var b := pre + (run + [0]);
      NulFrom(b, |pre|) == Some(|b| - 1) && b[|pre|..|b| - 1] == run
  {
    var b := pre + (run + [0]);
    forall k | |pre| <= k < |b| - 1 ensures b[k] != 0 {
      assert b[k] == run[k - |pre|];
    }
    NulFromFirst(b, |pre|, |b| - 1);
  }

  // ===========================================================================
  // The network object

  /** The outcome of one read from the TCP stream. */
  datatype TcpRead = Received(data: seq<byte>) | WouldBlock | ConnectionRefused | OtherError

  /** How a run of non-blocking UDP receives ended. */
  datatype UdpEnd = Drained | Failed

  const UDP_BUFFER: nat := 128

  function Truncated(d: seq<byte>, n: nat): (r: seq<byte>)
    ensures |r| <= n && |r| <= |d| && r == d[..|r|]
  {
    if |d| <= n then d else d[..n]
  }

  /** The latest state of every player slot after applying records in
      order; a record overwrites the slot it names. */
  function Applied(st: seq<PlayerState>, recs: seq<(byte, PlayerState)>): (r: seq<PlayerState>)
    requires forall i :: 0 <= i < |recs| ==> 1 <= recs[i].0 <= |st|
    ensures |r| == |st|
  {
    if recs == [] then st
    else
      var last := recs[|recs| - 1];
      Applied(st, recs[..|recs| - 1])[last.0 - 1 := last.1]
  }

  /** One record of a batch: when it names a slot it extends what has been
      applied, and when it does not, the applicable prefix ends at `i`. */
  lemma BatchStep(recs: seq<(byte, PlayerState)>, st: seq<PlayerState>, i: nat)
    requires i < |recs| && i <= FitPrefix(recs, |st|)
    ensures 1 <= recs[i].0 <= |st| ==> i < FitPrefix(recs, |st|)
    ensures !(1 <= recs[i].0 <= |st|) ==> i == FitPrefix(recs, |st|)
  {
  }

  lemma AppliedStep(recs: seq<(byte, PlayerState)>, st: seq<PlayerState>, i: nat)
    requires i < |recs| && forall j :: 0 <= j <= i ==> 1 <= recs[j].0 <= |st|
    ensures Applied(st, recs[..i + 1]) == Applied(st, recs[..i])[recs[i].0 - 1 := recs[i].1]
  {
    var p := recs[..i + 1];
    assert p[..|p| - 1] == recs[..i] && p[|p| - 1] == recs[i];
  }

  /** The records of a batch in order, one per whole 9-byte chunk. */
  function ParseBatch(data: seq<byte>): (r: seq<(byte, PlayerState)>)
    ensures |r| == |data| / RECORD_SIZE
  {
    seq(|data| / RECORD_SIZE, i requires 0 <= i < |data| / RECORD_SIZE =>
      ParseState(data[RECORD_SIZE * i..RECORD_SIZE * i + RECORD_SIZE]))
  }

  /** The `i`-th record of a batch is parsed from the `i`-th chunk. */
  lemma ParseBatchIndex(data: seq<byte>, i: nat)
    requires i < |data| / RECORD_SIZE
    ensures RECORD_SIZE * i + RECORD_SIZE <= |data|
    ensures ParseBatch(data)[i] == ParseState(data[RECORD_SIZE * i..RECORD_SIZE * i + RECORD_SIZE])
  {
  }

  /** The `i`-th record of a batch either names a slot, and applying it
      extends the applied prefix by one record, or ends the fitting prefix. */
  lemma RecordStep(recs: seq<(byte, PlayerState)>, st: seq<PlayerState>, i: nat)
    requires i < |recs| && i <= FitPrefix(recs, |st|)
    ensures 1 <= recs[i].0 <= |st| <==> i < FitPrefix(recs, |st|)
    ensures 1 <= recs[i].0 <= |st| ==>
      Applied(st, recs[..i + 1]) == Applied(st, recs[..i])[recs[i].0 - 1 := recs[i].1]
  {
    BatchStep(recs, st, i);
    if 1 <= recs[i].0 <= |st| {
      AppliedStep(recs, st, i);
    }
  }

  /** How many leading records name a slot that exists. */
  function FitPrefix(recs: seq<(byte, PlayerState)>, n: nat): (k: nat)
    ensures k <= |recs|
    ensures forall i :: 0 <= i < k ==> 1 <= recs[i].0 <= n
    ensures k < |recs| ==> !(1 <= recs[k].0 <= n)
  {
    if recs == [] || !(1 <= recs[0].0 <= n) then 0 else 1 + FitPrefix(recs[1..], n)
  }

  /** The state of the last record for `slot`, if any. */
  function LastFor(recs: seq<(byte, PlayerState)>, slot: int): Option<PlayerState>
  {
    if recs == [] then None
    else if recs[|recs| - 1].0 == slot then Some(recs[|recs| - 1].1)
    else LastFor(recs[..|recs| - 1], slot)
  }

  /** Applying a batch leaves each slot with its last record's state, or
      untouched when no record names it. */
  lemma {:induction false} AppliedLastWins(st: seq<PlayerState>, recs: seq<(byte, PlayerState)>, k: nat)
    requires forall i :: 0 <= i < |recs| ==> 1 <= recs[i].0 <= |st|
    requires k < |st|
    ensures Applied(st, recs)[k] == (match LastFor(recs, k + 1) case Some(s) => s case None => st[k])
    decreases |recs|
  {
    if recs != [] {
      AppliedLastWins(st, recs[..|recs| - 1], k);
    }
  }

  class Network {
    /** Whether the TCP stream is present. */
    var tcp: bool
    /** Whether the UDP socket is present. */
    var udp: bool
    var name: Text
    var className: Text
    var id: byte
    var mainState: PlayerState
    var state: seq<PlayerState>
    var tcpHistory: seq<NetMessage>

    constructor ()
      ensures !tcp && !udp && name == [] && className == [] && id == 0
      ensures mainState == DefaultState && state == [] && tcpHistory == []
    {
      tcp := false;
      udp := false;
      name := [];
      className := [];
      id := 0;
      mainState := DefaultState;
      state := [];
      tcpHistory := [];
    }

    /** Whether the session has the extended player count (10 slots). */
    function GetEP(): (r: bool)
      reads this
      ensures r <==> 10 <= |state| < 15
    {
      |state| / 5 == 2
    }

    /** Resizes the slot table to 5 or 10 players, keeping existing
        entries and filling new ones with the default state. */
    method SetEP(extendPlayers: bool)
      modifies this`state
      ensures |state| == if extendPlayers then 10 else 5
      ensures GetEP() == extendPlayers
      ensures forall i :: 0 <= i < |state| ==>
        state[i] == if i < |old(state)| then old(state)[i] else DefaultState
    {
      var n := 5 * if extendPlayers then 2 else 1;
      if n <= |state| {
        state := state[..n];
      } else {
        state := state + seq(n - |state|, _ => DefaultState);
      }
    }

    /** Records the local player's state, sent with every update tick. */
    method SetState(px: int, py: int, vx: int, vy: int, input: (int, bool, bool, bool))
      modifies this`mainState
      ensures mainState == PlayerState((px, py), (vx, vy), input.0, input.1, input.2, input.3)
    {
      mainState := PlayerState((px, py), (vx, vy), input.0, input.1, input.2, input.3);
    }

    /** Drains the non-blocking UDP socket: every datagram overwrites the
        receive buffer, so only the last one is kept, truncated to the
        buffer. A failure other than "would block" drops the socket. */
    method ReceiveUDP(datagrams: seq<seq<byte>>, ending: UdpEnd) returns (r: Option<seq<byte>>)
      requires udp
      modifies this`udp
      ensures ending.Failed? ==> r.None? && !udp
      ensures ending.Drained? ==> udp && r == Some(
        if datagrams == [] then [] else Truncated(datagrams[|datagrams| - 1], UDP_BUFFER))
    {
      var buffer: seq<byte> := seq(UDP_BUFFER, _ => 0);
      var size := 0;
      var i := 0;
      while i < |datagrams|
        invariant 0 <= i <= |datagrams| && |buffer| == UDP_BUFFER
        invariant size <= UDP_BUFFER
        invariant i == 0 ==> size == 0
        invariant i > 0 ==> buffer[..size] == Truncated(datagrams[i - 1], UDP_BUFFER)
      {
        var d := Truncated(datagrams[i], UDP_BUFFER);
        buffer := d + buffer[|d|..];
        size := |d|;
        assert buffer[..size] == d;
        i := i + 1;
      }
      if ending.Failed? {
        udp := false;
        return None;
      }
      if size == 0 {
        return Some([]);
      }
      return Some(buffer[..size]);
    }

    /** One tick of the update thread after a batch has arrived: the batch
        must be whole records, or the socket is dropped and the thread
        stops; each record overwrites the slot it names; a record naming a
        slot that does not exist ends the thread there. When every record
        was applied the local player's record is sent back. */
    method ApplyStates(data: seq<byte>) returns (running: bool, sent: Option<seq<byte>>)
      requires Encodable(mainState)
      modifies this`state, this`udp
      ensures |data| % 9 != 0 ==> !running && sent.None? && !udp && state == old(state)
      ensures |data| % 9 == 0 ==> (
        var recs := ParseBatch(data);
        var k := FitPrefix(recs, |old(state)|);
        udp == old(udp) &&
        state == Applied(old(state), recs[..k]) &&
        running == (k == |recs|) &&
        sent == if running then Some(RawState(mainState, id)) else None)
    {
      if |data| % 9 != 0 {
        udp := false;
        return false, None;
      }
      ghost var recs := ParseBatch(data);
      ghost var k := FitPrefix(recs, |state|);
      ghost var st0 := state;
      var i := 0;
      while i < |data| / RECORD_SIZE
        invariant 0 <= i <= k
        invariant udp == old(udp)
        invariant |state| == |st0|
        invariant state == Applied(st0, recs[..i])
      {
        RecordStep(recs, st0, i);
        ParseBatchIndex(data, i);
        var rec := ParseState(data[RECORD_SIZE * i..RECORD_SIZE * i + RECORD_SIZE]);
        if !(1 <= rec.0 <= |state|) {
          return false, None;
        }
        state := state[rec.0 - 1 := rec.1];
        i := i + 1;
      }
      assert i == k == |recs|;
      return true, Some(RawState(mainState, id));
    }

    /** One iteration of the TCP thread: a received buffer is decoded and
        its messages appended to the history; a refused connection drops
        the stream and ends the thread; a buffer the decoder cannot finish
        ends the thread too. */
    method ReceiveTCP(outcome: TcpRead) returns (running: bool)
      modifies this`tcp, this`tcpHistory
      ensures !old(tcp) ==> !running && tcp == old(tcp) && tcpHistory == old(tcpHistory)
      ensures old(tcp) && outcome.Received? ==>
        var msgs := Decode(Truncated(outcome.data, 256));
        tcp && running == msgs.Some? &&
        tcpHistory == old(tcpHistory) + (if msgs.Some? then msgs.value else [])
      ensures old(tcp) && outcome.ConnectionRefused? ==> !running && !tcp && tcpHistory == old(tcpHistory)
      ensures old(tcp) && (outcome.WouldBlock? || outcome.OtherError?) ==>
        running && tcp && tcpHistory == old(tcpHistory)
    {
      if !tcp {
        return false;
      }
      match outcome {
        case Received(data) =>
          var msgs := ParseMessages(Truncated(data, 256));
          if msgs.None? {
            return false;
          }
          tcpHistory := tcpHistory + msgs.value;
          return true;
        case WouldBlock =>
          return true;
        case ConnectionRefused =>
          tcp := false;
          return false;
        case OtherError =>
          return true;
      }
    }
  }
}
