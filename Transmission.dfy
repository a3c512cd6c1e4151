/** The TCP wire format between the game server and its clients: messages a
    client sends to the server (`ServerMessage`, decoded by the server) and
    messages the server sends to every client (`ClientMessage`, encoded by
    the server). */
module Transmission {
  import opened Common

  const TAG_REGISTER: byte := 1
  const TAG_CHAT_IN: byte := 2
  const TAG_DISCONNECTED_IN: byte := 3

  const TAG_LOGIN: byte := 1
  const TAG_DISCONNECTED: byte := 2
  const TAG_CHAT: byte := 3

  /** A request received from one client. */
  datatype ServerMessage = Invalid | Register(name: Text) | Chat(text: Text) | Disconnected

  /** An announcement sent to all clients. */
  datatype ClientMessage = Login(id: byte, name: Text) | Disconnected(id: byte) | Chat(text: Text)

  predicate NulFree(t: Text)
  {
    forall k :: 0 <= k < |t| ==> t[k] != 0
  }

  /** Decoding of one received TCP buffer: the first byte selects the
      request, the rest of the buffer is its text. An empty buffer has no
      tag to remove, which the server does not survive. */
  function FromRaw(data: seq<byte>): (m: ServerMessage)
    requires |data| > 0
    ensures m.Register? <==> data[0] == TAG_REGISTER
    ensures m.Chat? <==> data[0] == TAG_CHAT_IN
    ensures m.Disconnected? <==> data[0] == TAG_DISCONNECTED_IN
    ensures m.Invalid? <==> data[0] !in {TAG_REGISTER, TAG_CHAT_IN, TAG_DISCONNECTED_IN}
    ensures m.Register? ==> m.name == data[1..]
    ensures m.Chat? ==> m.text == data[1..]
  {
    if data[0] == TAG_REGISTER then Register(data[1..])
    else if data[0] == TAG_CHAT_IN then ServerMessage.Chat(data[1..])
    else if data[0] == TAG_DISCONNECTED_IN then ServerMessage.Disconnected
    else Invalid
  }

  /** Encoding of one announcement: a tag byte, the player slot for
      Login/Disconnected, and a NUL-terminated text for Login/Chat. */
  function ToRaw(m: ClientMessage): (r: seq<byte>)
    ensures |r| >= 2
    ensures m.Login? ==> |r| == |m.name| + 3 && r[0] == TAG_LOGIN && r[1] == m.id && r[2..|r| - 1] == m.name && r[|r| - 1] == 0
    ensures m.Disconnected? ==> r == [TAG_DISCONNECTED, m.id]
    ensures m.Chat? ==> r[0] == TAG_CHAT && r[1..|r| - 1] == m.text && r[|r| - 1] == 0
  {
    match m
    case Login(id, name) => [TAG_LOGIN, id] + name + [0]
    case Disconnected(id) => [TAG_DISCONNECTED, id]
    case Chat(text) => [TAG_CHAT] + text + [0]
  }

  /** Different announcements are sent as different byte strings. */
  lemma ToRawInjective(m1: ClientMessage, m2: ClientMessage)
    requires ToRaw(m1) == ToRaw(m2)
    ensures m1 == m2
  {
    var r := ToRaw(m1);
    if m1.Login? && m2.Login? {
      assert m1.name == r[2..|r| - 1] == m2.name;
    } else if m1.Chat? && m2.Chat? {
      assert m1.text == r[1..|r| - 1] == m2.text;
    }
  }
}
