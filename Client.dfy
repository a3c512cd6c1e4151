/** One player slot as the server keeps it: the TCP stream (when the slot
    is taken), the UDP address learnt from the player's first state
    datagram, the account, and the player's last 9-byte state record.
    Streams and addresses are opaque: a stream is present or not, an
    address is a number. */
module Client {
  import opened Common
  import Transmission

  type Addr = nat

  /** The name and class a player is known by. */
  datatype Account = Account(name: Text, className: Text)

  const DefaultAccount := Account([], [])

  const STATE_SIZE: nat := 9

  datatype Client = Client(tcp: bool, udp: Option<Addr>, info: Account, state: seq<byte>)

  /** A free slot. */
  function Default(): (c: Client)
    ensures !c.tcp && c.udp.None? && c.state == seq(STATE_SIZE, _ => 0)
  {
    Client(false, None, DefaultAccount, seq(STATE_SIZE, _ => 0))
  }

  /** A slot taken by a player who has just connected. */
  function Connect(info: Account): (c: Client)
    ensures c.tcp && c.udp.None? && c.info == info && c.state == seq(STATE_SIZE, _ => 0)
  {
    Client(true, None, info, seq(STATE_SIZE, _ => 0))
  }

  /** The bytes written to the slot's stream for an announcement; nothing
      without a stream. */
  function SendTCP(c: Client, msg: Transmission.ClientMessage): (written: Option<seq<byte>>)
    ensures written.Some? <==> c.tcp
    ensures written.Some? ==> written.value == Transmission.ToRaw(msg)
  {
    if !c.tcp then None else Some(Transmission.ToRaw(msg))
  }

  /** The outcome of one non-blocking read from a player's stream. */
  datatype ReadOutcome = Read(data: seq<byte>) | WouldBlock | ConnectionReset | OtherError

  const READ_BUFFER: nat := 1024

  /** Classifies one read: nothing without a stream or when the read would
      block; an empty read or a reset connection means the player left; any
      other error also drops the stream; otherwise the bytes read are
      decoded as one request. */
  function ReceiveTCP(c: Client, outcome: ReadOutcome): (r: (Client, Option<Transmission.ServerMessage>))
    requires outcome.Read? ==> |outcome.data| <= READ_BUFFER
    ensures !c.tcp ==> r == (c, None)
    ensures c.tcp && outcome.WouldBlock? ==> r == (c, None)
    ensures c.tcp && outcome.Read? && outcome.data == [] ==> r == (c, Some(Transmission.ServerMessage.Disconnected))
    ensures c.tcp && outcome.ConnectionReset? ==> r == (c, Some(Transmission.ServerMessage.Disconnected))
    ensures c.tcp && outcome.OtherError? ==> r == (c.(tcp := false), Some(Transmission.ServerMessage.Disconnected))
    ensures c.tcp && outcome.Read? && outcome.data != [] ==> r == (c, Some(Transmission.FromRaw(outcome.data)))
  {
    if !c.tcp then (c, None)
    else match outcome
      case Read(data) =>
        if |data| == 0 then (c, Some(Transmission.ServerMessage.Disconnected))
        else (c, Some(Transmission.FromRaw(data)))
      case WouldBlock => (c, None)
      case ConnectionReset => (c, Some(Transmission.ServerMessage.Disconnected))
      case OtherError => (c.(tcp := false), Some(Transmission.ServerMessage.Disconnected))
  }

  /** Only a failed read other than a reset changes the slot, and then
      only by dropping its stream; every read that reports something
      reports a departure unless bytes arrived. */
  lemma ReceiveTCPKeepsSlot(c: Client, outcome: ReadOutcome)
    requires outcome.Read? ==> |outcome.data| <= READ_BUFFER
    ensures var (c2, m) := ReceiveTCP(c, outcome);
      c2.udp == c.udp && c2.info == c.info && c2.state == c.state &&
      (c2.tcp != c.tcp ==> c.tcp && outcome.OtherError? && m == Some(Transmission.ServerMessage.Disconnected)) &&
      (m.Some? && m.value != Transmission.ServerMessage.Disconnected ==> outcome.Read? && outcome.data != [])
  {
  }
}
