/** The game server's slot table and dispatcher: player slots keyed by id,
    the queue of requests read from the players' streams, the queue of
    announcements to send back, the state datagrams relayed between
    players, chat commands and polls. Sockets are not modelled: what a read
    returns is an input and what is sent is an output. HashMap iteration
    order, where a result depends on it, is an explicit `order` input that
    lists every key once. */
module Server {
  import opened Common
  import opened Transmission
  import Client
  import Voting
  import State

  const SPACE: byte := ' ' as int
  const QUOTE: byte := '"' as int
  const SLASH: byte := '/' as int

  // ---------------------------------------------------------------------------
  // Command tokenizer

  /** The token in progress, if any, as a list of zero or one tokens. */
  function Flush(cur: Text): seq<Text>
  {
    if cur == [] then [] else [cur]
  }

  /** The tokens of `t`, given the token in progress `cur` and whether a
      quote is open: outside quotes a space ends a token, inside quotes it
      is kept; a quote toggles quoting and ends a token. */
  function SplitFrom(t: Text, cur: Text, quoted: bool): seq<Text>
    decreases |t|
  {
    if t == [] then Flush(cur)
    else if t[0] == SPACE then
      if quoted then SplitFrom(t[1..], cur + [t[0]], quoted)
      else Flush(cur) + SplitFrom(t[1..], [], false)
    else if t[0] == QUOTE then Flush(cur) + SplitFrom(t[1..], [], !quoted)
    else SplitFrom(t[1..], cur + [t[0]], quoted)
  }

  function Tokens(src: Text): seq<Text>
  {
    SplitFrom(src, [], false)
  }

  /** One character of the tokenizer: the tokens so far `v`, the token in
      progress `s` and the quote flag after reading `c`. */
  function Scan(v: seq<Text>, s: Text, quoted: bool, c: byte): (seq<Text>, Text, bool)
  {
    if c == SPACE then
      if quoted then (v, s + [c], quoted)
      else if s != [] then (v + [s], [], quoted)
      else (v, s, quoted)
    else if c == QUOTE then
      if s != [] then (v + [s], [], !quoted) else (v, s, !quoted)
    else (v, s + [c], quoted)
  }

  /** Reading one character keeps the tokens of the whole text the same. */
  lemma ScanStep(v: seq<Text>, s: Text, quoted: bool, t: Text)
    requires t != []
    ensures
      var (v', s', q') := Scan(v, s, quoted, t[0]);
      v + SplitFrom(t, s, quoted) == v' + SplitFrom(t[1..], s', q')
  {
    var c, rest := t[0], t[1..];
    if c == SPACE && quoted {
      assert SplitFrom(t, s, quoted) == SplitFrom(rest, s + [c], quoted);
    } else if c == SPACE || c == QUOTE {
      var q' := if c == QUOTE then !quoted else quoted;
      assert SplitFrom(t, s, quoted) == Flush(s) + SplitFrom(rest, [], q');
      if s != [] {
        assert Scan(v, s, quoted, c) == (v + [s], [], q');
        assert v + ([s] + SplitFrom(rest, [], q')) == (v + [s]) + SplitFrom(rest, [], q');
      } else {
        assert Scan(v, s, quoted, c) == (v, [], q');
        assert [] + SplitFrom(rest, [], q') == SplitFrom(rest, [], q');
      }
    } else {
      assert SplitFrom(t, s, quoted) == SplitFrom(rest, s + [c], quoted);
    }
  }

  /** `Server::split`. */
  method Split(src: Text) returns (v: seq<Text>)
    ensures v == Tokens(src)
  {
    v := [];
    var s: Text := [];
    var quoted := false;
    for i := 0 to |src|
      invariant v + SplitFrom(src[i..], s, quoted) == Tokens(src)
    {
      var c := src[i];
      ScanStep(v, s, quoted, src[i..]);
      assert src[i..][1..] == src[i + 1..];
      if c == SPACE {
        if quoted {
          s := s + [c];
        } else if s != [] {
          v := v + [s];
          s := [];
        }
      } else if c == QUOTE {
        quoted := !quoted;
        if s != [] {
          v := v + [s];
          s := [];
        }
      } else {
        s := s + [c];
      }
    }
    if s != [] {
      v := v + [s];
    }
  }

  /** No token is empty and no token holds a quote. */
  lemma {:induction false} SplitFromWellFormed(t: Text, cur: Text, quoted: bool)
    requires QUOTE !in cur
    ensures forall k :: 0 <= k < |SplitFrom(t, cur, quoted)| ==>
      SplitFrom(t, cur, quoted)[k] != [] && QUOTE !in SplitFrom(t, cur, quoted)[k]
    decreases |t|
  {
    if t != [] {
      if t[0] == SPACE {
        if quoted {
          SplitFromWellFormed(t[1..], cur + [t[0]], quoted);
        } else {
          SplitFromWellFormed(t[1..], [], false);
        }
      } else if t[0] == QUOTE {
        SplitFromWellFormed(t[1..], [], !quoted);
      } else {
        SplitFromWellFormed(t[1..], cur + [t[0]], quoted);
      }
    }
  }

  lemma TokensWellFormed(src: Text)
    ensures forall k :: 0 <= k < |Tokens(src)| ==> Tokens(src)[k] != [] && QUOTE !in Tokens(src)[k]
  {
    SplitFromWellFormed(src, [], false);
  }

  /** The characters a tokenizer keeps: every character but quotes and the
      spaces outside quotes. */
  function KeptFrom(t: Text, quoted: bool): Text
    decreases |t|
  {
    if t == [] then []
    else if t[0] == QUOTE then KeptFrom(t[1..], !quoted)
    else if t[0] == SPACE && !quoted then KeptFrom(t[1..], quoted)
    else [t[0]] + KeptFrom(t[1..], quoted)
  }

  function Concat(ps: seq<Text>): Text
  {
    if ps == [] then [] else ps[0] + Concat(ps[1..])
  }

  lemma {:induction false} ConcatAppend(a: seq<Text>, b: seq<Text>)
    ensures Concat(a + b) == Concat(a) + Concat(b)
  {
    if a == [] {
      assert a + b == b;
    } else {
      assert (a + b)[1..] == a[1..] + b;
      ConcatAppend(a[1..], b);
    }
  }

  /** The tokens, put back together, are exactly the kept characters:
      nothing is lost but separators and quotes. */
  lemma {:induction false} SplitFromKeeps(t: Text, cur: Text, quoted: bool)
    ensures Concat(SplitFrom(t, cur, quoted)) == cur + KeptFrom(t, quoted)
    decreases |t|
  {
    if t == [] {
    } else if (t[0] == SPACE && !quoted) || t[0] == QUOTE {
      var q := if t[0] == QUOTE then !quoted else false;
      SplitFromKeeps(t[1..], [], q);
      ConcatAppend(Flush(cur), SplitFrom(t[1..], [], q));
      assert [] + KeptFrom(t[1..], q) == KeptFrom(t[1..], q);
    } else {
      SplitFromKeeps(t[1..], cur + [t[0]], quoted);
      assert cur + [t[0]] + KeptFrom(t[1..], quoted) == cur + ([t[0]] + KeptFrom(t[1..], quoted));
    }
  }

  lemma TokensKeep(src: Text)
    ensures Concat(Tokens(src)) == KeptFrom(src, false)
  {
    SplitFromKeeps(src, [], false);
    assert [] + KeptFrom(src, false) == KeptFrom(src, false);
  }

  /** Outside quotes, a space splits the text into the tokens of either side. */
  lemma {:induction false} SplitFromSpace(a: Text, b: Text, cur: Text)
    requires QUOTE !in a
    ensures SplitFrom(a + [SPACE] + b, cur, false) == SplitFrom(a, cur, false) + Tokens(b)
    decreases |a|
  {
    var t := a + [SPACE] + b;
    if a == [] {
      assert t[1..] == b;
    } else {
      assert t[1..] == a[1..] + [SPACE] + b;
      if a[0] == SPACE {
        SplitFromSpace(a[1..], b, []);
      } else {
        SplitFromSpace(a[1..], b, cur + [a[0]]);
      }
    }
  }

  lemma TokensSpace(a: Text, b: Text)
    requires QUOTE !in a
    ensures Tokens(a + ([SPACE] + b)) == Tokens(a) + Tokens(b)
  {
    assert a + ([SPACE] + b) == a + [SPACE] + b;
    SplitFromSpace(a, b, []);
  }

  /** A word without spaces or quotes is one token. */
  lemma {:induction false} SplitFromWord(w: Text, cur: Text)
    requires SPACE !in w && QUOTE !in w
    ensures SplitFrom(w, cur, false) == Flush(cur + w)
    decreases |w|
  {
    if w == [] {
      assert cur + w == cur;
    } else {
      SplitFromWord(w[1..], cur + [w[0]]);
      assert cur + [w[0]] + w[1..] == cur + w;
    }
  }

  /** Inside quotes, everything up to the closing quote is one token. */
  lemma {:induction false} SplitFromQuoted(p: Text, rest: Text, cur: Text)
    requires QUOTE !in p
    ensures SplitFrom(p + [QUOTE] + rest, cur, true) == Flush(cur + p) + Tokens(rest)
    decreases |p|
  {
    var t := p + [QUOTE] + rest;
    if p == [] {
      assert t[1..] == rest;
      assert cur + p == cur;
    } else {
      assert t[1..] == p[1..] + [QUOTE] + rest;
      SplitFromQuoted(p[1..], rest, cur + [p[0]]);
      assert cur + [p[0]] + p[1..] == cur + p;
    }
  }

  /** A phrase between double quotes. */
  function Quoted(p: Text): Text
  {
    [QUOTE] + p + [QUOTE]
  }

  /** A quoted phrase is one token, spaces included. */
  lemma TokensQuoted(p: Text, rest: Text)
    requires QUOTE !in p && p != []
    ensures Tokens(Quoted(p) + rest) == [p] + Tokens(rest)
  {
    var t := Quoted(p) + rest;
    assert t[1..] == p + [QUOTE] + rest;
    SplitFromQuoted(p, rest, []);
    assert [] + p == p;
  }

  // ---------------------------------------------------------------------------
  // Slot table

  type Slots = map<byte, Client.Client>

  /** Slots 1..`n`, all free. */
  function FreeSlots(n: byte): (r: Slots)
    ensures forall id :: id in r <==> 1 <= id <= n
    ensures forall id :: id in r ==> r[id] == Client.Default()
  {
    if n == 0 then map[] else FreeSlots(n - 1)[n := Client.Default()]
  }

  /** Slot `id` has a player on the stream. */
  predicate Occupied(clients: Slots, id: int)
  {
    0 <= id < 256 && id in clients && clients[id].tcp
  }

  /** Every slot 1..`hi` exists and is occupied. */
  predicate OccupiedUpTo(clients: Slots, hi: int)
  {
    forall j :: 1 <= j <= hi ==> Occupied(clients, j)
  }

  /** One pass of the free-slot search over the slots in iteration order:
      a slot is looked at only when its id is at most one above the last
      slot looked at; the pass stops at the first free one. */
  function Pass(clients: Slots, order: seq<byte>, minID: nat): (r: (nat, bool))
    requires forall i :: 0 <= i < |order| ==> order[i] in clients
    ensures r.1 ==> r.0 < 256
  {
    if order == [] then (minID, false)
    else if order[0] > minID + 1 then Pass(clients, order[1..], minID)
    else if !clients[order[0]].tcp then (order[0], true)
    else Pass(clients, order[1..], order[0])
  }

  /** Passes repeated until one finds a slot, at most `fuel` of them. */
  function Search(clients: Slots, order: seq<byte>, minID: nat, fuel: nat): (r: Option<nat>)
    requires forall i :: 0 <= i < |order| ==> order[i] in clients
    ensures r.Some? ==> r.value < 256
    decreases fuel
  {
    if fuel == 0 then None
    else
      var (m, found) := Pass(clients, order, minID);
      if found then Some(m) else Search(clients, order, m, fuel - 1)
  }

  lemma {:induction false} PassKeepsLowOccupied(clients: Slots, order: seq<byte>, minID: nat, hi: nat)
    requires forall i :: 0 <= i < |order| ==> order[i] in clients && order[i] >= 1
    requires minID <= hi && OccupiedUpTo(clients, hi)
    ensures var (m, found) := Pass(clients, order, minID);
      if found then m >= 1 && m in clients && !clients[m].tcp && OccupiedUpTo(clients, m - 1)
      else OccupiedUpTo(clients, m) && OccupiedUpTo(clients, hi)
    decreases |order|
  {
    if order != [] {
      var x := order[0];
      if x > minID + 1 {
        PassKeepsLowOccupied(clients, order[1..], minID, hi);
      } else if clients[x].tcp {
        var hi2 := if x > hi then x as nat else hi;
        assert OccupiedUpTo(clients, hi2);
        PassKeepsLowOccupied(clients, order[1..], x, hi2);
      }
    }
  }

  lemma {:induction false} SearchKeepsLowOccupied(clients: Slots, order: seq<byte>, minID: nat, hi: nat, fuel: nat)
    requires forall i :: 0 <= i < |order| ==> order[i] in clients && order[i] >= 1
    requires minID <= hi && OccupiedUpTo(clients, hi)
    ensures var r := Search(clients, order, minID, fuel);
      r.Some? ==> r.value >= 1 && r.value in clients && !clients[r.value].tcp && OccupiedUpTo(clients, r.value - 1)
    decreases fuel
  {
    if fuel > 0 {
      PassKeepsLowOccupied(clients, order, minID, hi);
      var (m, found) := Pass(clients, order, minID);
      if !found {
        SearchKeepsLowOccupied(clients, order, m, if m > hi then m else hi, fuel - 1);
      }
    }
  }

  /** A slot the search finds is free, and every slot below it is taken: it
      is the lowest free slot. In particular it is never 0. */
  lemma FoundSlotIsLowestFree(clients: Slots, order: seq<byte>, fuel: nat)
    requires forall i :: 0 <= i < |order| ==> order[i] in clients && order[i] >= 1
    ensures var r := Search(clients, order, 0, fuel);
      r.Some? ==> (r.value >= 1 && r.value in clients && !clients[r.value].tcp &&
                   forall j :: 1 <= j < r.value ==> Occupied(clients, j))
  {
    SearchKeepsLowOccupied(clients, order, 0, 0, fuel);
  }

  lemma {:induction false} PassNeverFindsInFullTable(clients: Slots, order: seq<byte>, minID: nat)
    requires forall i :: 0 <= i < |order| ==> order[i] in clients
    requires forall id :: id in clients ==> clients[id].tcp
    ensures !Pass(clients, order, minID).1
    decreases |order|
  {
    if order != [] {
      PassNeverFindsInFullTable(clients, order[1..], if order[0] > minID + 1 then minID else order[0]);
    }
  }

  /** With every slot taken, no number of passes finds one: the search
      loop never ends, so the caller's check for id 0 is never reached. */
  lemma {:induction false} FullTableNeverFound(clients: Slots, order: seq<byte>, minID: nat, fuel: nat)
    requires forall i :: 0 <= i < |order| ==> order[i] in clients
    requires forall id :: id in clients ==> clients[id].tcp
    ensures Search(clients, order, minID, fuel) == None
    decreases fuel
  {
    if fuel > 0 {
      PassNeverFindsInFullTable(clients, order, minID);
      FullTableNeverFound(clients, order, Pass(clients, order, minID).0, fuel - 1);
    }
  }

  /** Three slots, 1 and 2 taken and 3 free. */
  function CycleTable(): Slots
  {
    map[1 := Client.Connect(Client.DefaultAccount), 2 := Client.Connect(Client.DefaultAccount), 3 := Client.Default()]
  }

  /** With slots 1 and 2 taken and slot 3 free, iterating in the order 2, 1,
      3 makes every pass end at slot 1 without looking at slot 3: the
      search never finds the free slot. */
  lemma {:induction false} SearchCanCycle(minID: nat, fuel: nat)
    requires minID == 0 || minID == 1
    ensures Search(CycleTable(), [2, 1, 3], minID, fuel) == None
    decreases fuel
  {
    var c := CycleTable();
    var order: seq<byte> := [2, 1, 3];
    if fuel > 0 {
      assert order[1..] == [1, 3] && order[2..] == [3];
      assert Pass(c, order, minID) == (1, false);
      SearchCanCycle(1, fuel - 1);
    }
  }

  /** The lowest free slot numbered `from` or more, or 0 when every such
      slot is taken: what the search is evidently meant to answer, 0 being
      the value its caller checks for a full table. */
  function LowestFree(clients: Slots, from: nat): (r: byte)
    requires from >= 1
    ensures r != 0 ==> from <= r && r in clients && !clients[r].tcp
    ensures forall j: byte :: from <= j && (r == 0 || j < r) && j in clients ==> clients[j].tcp
    decreases 256 - from
  {
    if from >= 256 then 0
    else if from in clients && !clients[from].tcp then from
    else LowestFree(clients, from + 1)
  }

  /** Whenever the search as written does end, it ends on the slot the
      corrected search answers. */
  lemma SearchFindsLowestFree(clients: Slots, order: seq<byte>, fuel: nat)
    requires forall i :: 0 <= i < |order| ==> order[i] in clients && order[i] >= 1
    ensures Search(clients, order, 0, fuel).Some? ==> Search(clients, order, 0, fuel).value == LowestFree(clients, 1)
  {
    FoundSlotIsLowestFree(clients, order, fuel);
    var r := Search(clients, order, 0, fuel);
    if r.Some? {
      var m := r.value;
      var w := LowestFree(clients, 1);
      assert w != 0 ==> Occupied(clients, w) || w >= m;
    }
  }

  /** The class a player gets when asking for `wanted` while holding
      `previous`, given how many players already hold `wanted`. */
  function ClassChoice(previous: Text, wanted: Text, holders: nat, extendPlayers: bool): (r: Text)
    ensures previous == wanted ==> r == Utf8("unknown")
    ensures previous != wanted ==> (r == wanted <==> holders == 0 || (holders == 1 && extendPlayers))
    ensures previous != wanted && r != wanted ==> r == previous
  {
    if previous == wanted then Utf8("unknown")
    else if holders == 0 then wanted
    else if holders == 1 then (if extendPlayers then wanted else previous)
    else previous
  }

  function Holders(clients: Slots, cls: Text): set<byte>
  {
    set id | id in clients && clients[id].info.className == cls
  }

  /** Holders counted in iteration order. */
  function CountHolders(clients: Slots, order: seq<byte>, cls: Text): nat
    requires forall i :: 0 <= i < |order| ==> order[i] in clients
  {
    if order == [] then 0
    else
      var last := order[|order| - 1];
      CountHolders(clients, order[..|order| - 1], cls) + (if clients[last].info.className == cls then 1 else 0)
  }

  /** The ids listed in `order`. */
  function Listed(order: seq<byte>): (r: set<byte>)
    ensures forall id :: id in r <==> id in order
  {
    if order == [] then {} else Listed(order[..|order| - 1]) + {order[|order| - 1]}
  }

  /** The count does not depend on the iteration order: it is the number of
      holders among the listed slots. */
  lemma {:induction false} CountHoldersIsCardinality(clients: Slots, order: seq<byte>, cls: Text)
    requires NoDup(order) && forall i :: 0 <= i < |order| ==> order[i] in clients
    ensures CountHolders(clients, order, cls) == |Holders(clients, cls) * Listed(order)|
  {
    if order != [] {
      var pre := order[..|order| - 1];
      var x := order[|order| - 1];
      NoDupDropLast(order);
      CountHoldersIsCardinality(clients, pre, cls);
      assert Listed(order) == Listed(pre) + {x};
      CardinalityStep(Holders(clients, cls), Listed(pre), x);
    }
  }

  /** Adding a new element to `a` adds one to `|h * a|` when it is in `h`. */
  lemma CardinalityStep(h: set<byte>, a: set<byte>, x: byte)
    requires x !in a
    ensures |h * (a + {x})| == |h * a| + (if x in h then 1 else 0)
  {
    if x in h {
      assert h * (a + {x}) == h * a + {x};
    } else {
      assert h * (a + {x}) == h * a;
    }
  }

  /** The slot relay's per-slot datagram, as kept by `IntakeUDP`. */
  datatype Datagram = Datagram(from: Client.Addr, data: seq<byte>)

  const UDP_BUFFER: nat := 128

  /** A datagram is taken only when it fills exactly one state record
      (longer datagrams are cut to the buffer size first). */
  predicate Accepted(d: Datagram)
  {
    |d.data| == Client.STATE_SIZE
  }

  /** The slot a record is for: the low three bits of its first byte. */
  function SlotOf(b: byte): (id: byte)
    ensures id < 8
  {
    b % 8
  }

  predicate SlotsKnown(clients: Slots, dgs: seq<Datagram>)
  {
    forall i :: 0 <= i < |dgs| ==> Accepted(dgs[i]) ==> SlotOf(dgs[i].data[0]) in clients
  }

  /** The slots after taking the datagrams in order: the first accepted
      datagram for a slot binds its address, every one overwrites its state. */
  function Intake(clients: Slots, dgs: seq<Datagram>): (r: Slots)
    requires SlotsKnown(clients, dgs)
    ensures r.Keys == clients.Keys
  {
    if dgs == [] then clients
    else
      var pre := Intake(clients, dgs[..|dgs| - 1]);
      var d := dgs[|dgs| - 1];
      if !Accepted(d) then pre
      else
        var id := SlotOf(d.data[0]);
        var c := pre[id];
        pre[id := c.(udp := if c.udp.None? then Some(d.from) else c.udp, state := d.data)]
  }

  /** The sender of the first accepted datagram for slot `id`. */
  function FirstSender(dgs: seq<Datagram>, id: byte): Option<Client.Addr>
  {
    if dgs == [] then None
    else if Accepted(dgs[0]) && SlotOf(dgs[0].data[0]) == id then Some(dgs[0].from)
    else FirstSender(dgs[1..], id)
  }

  /** The data of the last accepted datagram for slot `id`. */
  function LastRecord(dgs: seq<Datagram>, id: byte): Option<seq<byte>>
  {
    if dgs == [] then None
    else
      var d := dgs[|dgs| - 1];
      if Accepted(d) && SlotOf(d.data[0]) == id then Some(d.data) else LastRecord(dgs[..|dgs| - 1], id)
  }

  lemma {:induction false} FirstSenderAppend(dgs: seq<Datagram>, d: Datagram, id: byte)
    ensures FirstSender(dgs + [d], id) ==
      if FirstSender(dgs, id).Some? then FirstSender(dgs, id)
      else if Accepted(d) && SlotOf(d.data[0]) == id then Some(d.from) else None
  {
    if dgs == [] {
      assert ([] + [d])[1..] == [];
    } else {
      assert (dgs + [d])[1..] == dgs[1..] + [d];
      FirstSenderAppend(dgs[1..], d, id);
    }
  }

  /** What the intake promises per slot: a bound address is never rebound,
      an unbound one is bound to the first sender, the state is the last
      record received, and the stream and account are untouched. */
  lemma {:induction false} IntakePerSlot(clients: Slots, dgs: seq<Datagram>, id: byte)
    requires SlotsKnown(clients, dgs) && id in clients
    ensures var c := clients[id]; var r := Intake(clients, dgs)[id];
      r.tcp == c.tcp && r.info == c.info &&
      r.udp == (if c.udp.Some? then c.udp else FirstSender(dgs, id)) &&
      r.state == (if LastRecord(dgs, id).Some? then LastRecord(dgs, id).value else c.state)
  {
    if dgs != [] {
      var pre := dgs[..|dgs| - 1];
      var d := dgs[|dgs| - 1];
      assert SlotsKnown(clients, pre) by {
        forall i | 0 <= i < |pre| ensures Accepted(pre[i]) ==> SlotOf(pre[i].data[0]) in clients {
          assert pre[i] == dgs[i];
        }
      }
      IntakePerSlot(clients, pre, id);
      assert dgs == pre + [d];
      FirstSenderAppend(pre, d, id);
    }
  }

  /** Slot `id` has an address to send to. */
  predicate Bound(clients: Slots, id: int)
  {
    0 <= id < 256 && id in clients && clients[id].udp.Some?
  }

  /** The slots among 1..`n`, other than `i`, that have an address, in
      increasing order. */
  function Peers(clients: Slots, i: int, n: int): (r: seq<byte>)
    ensures forall k :: 0 <= k < |r| ==> 1 <= r[k] <= n && r[k] != i && Bound(clients, r[k])
    decreases n
  {
    if n <= 0 then []
    else Peers(clients, i, n - 1) + (if n != i && Bound(clients, n) then [n as byte] else [])
  }

  lemma {:induction false} PeersComplete(clients: Slots, i: int, n: int, x: int)
    requires 1 <= x <= n && x != i && Bound(clients, x)
    ensures x in Peers(clients, i, n)
    decreases n
  {
    if x < n {
      PeersComplete(clients, i, n - 1, x);
    }
  }

  lemma {:induction false} PeersIncreasing(clients: Slots, i: int, n: int)
    ensures forall a, b :: 0 <= a < b < |Peers(clients, i, n)| ==> Peers(clients, i, n)[a] < Peers(clients, i, n)[b]
    decreases n
  {
    if n > 0 {
      PeersIncreasing(clients, i, n - 1);
    }
  }

  /** The states of the given slots, concatenated. */
  function StatesOf(clients: Slots, ids: seq<byte>): seq<byte>
    requires forall k :: 0 <= k < |ids| ==> ids[k] in clients
  {
    if ids == [] then [] else StatesOf(clients, ids[..|ids| - 1]) + clients[ids[|ids| - 1]].state
  }

  /** One more slot in the packet loop: its record is appended when it is
      a peer. */
  lemma PeerStatesStep(clients: Slots, i: int, n: int)
    requires 1 <= n < 256 && n in clients
    ensures StatesOf(clients, Peers(clients, i, n)) ==
      StatesOf(clients, Peers(clients, i, n - 1)) + (if n != i && Bound(clients, n) then clients[n as byte].state else [])
  {
    var ps := Peers(clients, i, n - 1);
    if n != i && Bound(clients, n) {
      assert Peers(clients, i, n) == ps + [n as byte];
      assert (ps + [n as byte])[..|ps|] == ps;
    } else {
      assert Peers(clients, i, n) == ps;
    }
  }

  predicate RecordsSized(clients: Slots)
  {
    forall id :: id in clients ==> |clients[id].state| == Client.STATE_SIZE
  }

  lemma {:induction false} StatesOfLength(clients: Slots, ids: seq<byte>)
    requires RecordsSized(clients) && forall k :: 0 <= k < |ids| ==> ids[k] in clients
    ensures |StatesOf(clients, ids)| == Client.STATE_SIZE * |ids|
  {
    if ids != [] {
      StatesOfLength(clients, ids[..|ids| - 1]);
    }
  }

  /** The state packets of one tick, for slots 1..`n` in order: each bound
      slot gets the states of its peers, unless it has none. */
  function StateSends(clients: Slots, n: int, count: int): seq<(Client.Addr, seq<byte>)>
    decreases n
  {
    if n <= 0 then [] else StateSends(clients, n - 1, count) + SendOf(clients, n, count)
  }

  lemma StateSendsStep(clients: Slots, n: int, count: int)
    requires n >= 1
    ensures StateSends(clients, n, count) == StateSends(clients, n - 1, count) + SendOf(clients, n, count)
  {
  }

  /** The packet for slot `n`, if it gets one. */
  function SendOf(clients: Slots, n: int, count: int): seq<(Client.Addr, seq<byte>)>
  {
    if Bound(clients, n) && StatesOf(clients, Peers(clients, n, count)) != []
    then [(clients[n as byte].udp.value, StatesOf(clients, Peers(clients, n, count)))] else []
  }

  /** Every packet goes to a slot with an address, holds exactly the state
      records of the other slots with an address, never its own, and is
      sent exactly when there is at least one such peer. */
  lemma StatePacketContents(clients: Slots, i: int, count: int)
    requires RecordsSized(clients)
    ensures var p := StatesOf(clients, Peers(clients, i, count));
      |p| == Client.STATE_SIZE * |Peers(clients, i, count)| &&
      (p != [] <==> exists x :: 1 <= x <= count && x != i && Bound(clients, x)) &&
      i !in Peers(clients, i, count)
  {
    StatesOfLength(clients, Peers(clients, i, count));
    if exists x :: 1 <= x <= count && x != i && Bound(clients, x) {
      var x :| 1 <= x <= count && x != i && Bound(clients, x);
      PeersComplete(clients, i, count, x);
    }
  }

  /** One announcement sent to the players: its bytes and the slots it was
      written to. */
  datatype Delivery = Delivery(bytes: seq<byte>, to: set<byte>)

  function Recipients(clients: Slots): set<byte>
  {
    set id | id in clients && clients[id].tcp
  }

  /** The slots and deliveries after sending `msgs` in order; a departure
      frees its slot after it has been sent. */
  function BroadcastFold(clients: Slots, msgs: seq<ClientMessage>): (Slots, seq<Delivery>)
  {
    if msgs == [] then (clients, [])
    else
      var (c, sent) := BroadcastFold(clients, msgs[..|msgs| - 1]);
      var m := msgs[|msgs| - 1];
      var d := Delivery(ToRaw(m), Recipients(c));
      (if m.Disconnected? then c[m.id := Client.Default()] else c, sent + [d])
  }

  /** The ids whose departure is among `msgs`. */
  function Departed(msgs: seq<ClientMessage>): set<byte>
  {
    set k | 0 <= k < |msgs| && msgs[k].Disconnected? :: msgs[k].id
  }

  lemma DepartedAppend(msgs: seq<ClientMessage>, m: ClientMessage)
    ensures Departed(msgs + [m]) == Departed(msgs) + (if m.Disconnected? then {m.id} else {})
  {
    var all := msgs + [m];
    forall k | 0 <= k < |msgs| ensures all[k] == msgs[k] { }
    assert all[|msgs|] == m;
  }

  /** The same, read from the end of a non-empty queue. */
  lemma DepartedLast(msgs: seq<ClientMessage>)
    requires msgs != []
    ensures var m := msgs[|msgs| - 1];
      Departed(msgs) == Departed(msgs[..|msgs| - 1]) + (if m.Disconnected? then {m.id} else {})
  {
    assert msgs == msgs[..|msgs| - 1] + [msgs[|msgs| - 1]];
    DepartedAppend(msgs[..|msgs| - 1], msgs[|msgs| - 1]);
  }

  /** Every departed slot ends free; all other slots are untouched. */
  lemma {:induction false} BroadcastFoldSlots(clients: Slots, msgs: seq<ClientMessage>)
    ensures var c := BroadcastFold(clients, msgs).0;
      c.Keys == clients.Keys + Departed(msgs) &&
      (forall id :: id in Departed(msgs) ==> c[id] == Client.Default()) &&
      (forall id :: id in clients && id !in Departed(msgs) ==> c[id] == clients[id])
  {
    if msgs != [] {
      var pre := msgs[..|msgs| - 1];
      var m := msgs[|msgs| - 1];
      BroadcastFoldSlots(clients, pre);
      DepartedLast(msgs);
      var c0 := BroadcastFold(clients, pre).0;
      var c := BroadcastFold(clients, msgs).0;
      assert c == if m.Disconnected? then c0[m.id := Client.Default()] else c0;
      forall id | id in Departed(msgs) ensures c[id] == Client.Default() {
        if !(m.Disconnected? && id == m.id) { assert id in Departed(pre); }
      }
    }
  }

  /** The players still on the stream after `msgs` are the initial ones
      less those whose departure was sent. */
  lemma RecipientsAfter(clients: Slots, msgs: seq<ClientMessage>)
    ensures Recipients(BroadcastFold(clients, msgs).0) == Recipients(clients) - Departed(msgs)
  {
    BroadcastFoldSlots(clients, msgs);
    assert !Client.Default().tcp;
  }

  lemma DeliveriesLast(clients: Slots, msgs: seq<ClientMessage>)
    requires msgs != []
    ensures var (c, sent) := BroadcastFold(clients, msgs[..|msgs| - 1]);
      BroadcastFold(clients, msgs).1 == sent + [Delivery(ToRaw(msgs[|msgs| - 1]), Recipients(c))]
  {
  }

  /** One write per message. */
  lemma {:induction false} FoldLength(clients: Slots, msgs: seq<ClientMessage>)
    ensures |BroadcastFold(clients, msgs).1| == |msgs|
    decreases |msgs|
  {
    if msgs != [] {
      DeliveriesLast(clients, msgs);
      FoldLength(clients, msgs[..|msgs| - 1]);
    }
  }

  /** The last write carries the last message to the players left after
      the departures sent before it. */
  lemma LastDelivery(clients: Slots, msgs: seq<ClientMessage>)
    requires msgs != []
    ensures |BroadcastFold(clients, msgs).1| == |msgs|
    ensures var k := |msgs| - 1;
      BroadcastFold(clients, msgs).1[k] == Delivery(ToRaw(msgs[k]), Recipients(clients) - Departed(msgs[..k]))
  {
    var pre := msgs[..|msgs| - 1];
    DeliveriesLast(clients, msgs);
    FoldLength(clients, pre);
    RecipientsAfter(clients, pre);
  }

  /** Sending one more message leaves the earlier writes as they were. */
  lemma EarlierDelivery(clients: Slots, msgs: seq<ClientMessage>, k: nat)
    requires k < |msgs| - 1 && |BroadcastFold(clients, msgs[..|msgs| - 1]).1| == |msgs| - 1
    ensures |BroadcastFold(clients, msgs).1| == |msgs|
    ensures BroadcastFold(clients, msgs).1[k] == BroadcastFold(clients, msgs[..|msgs| - 1]).1[k]
  {
    DeliveriesLast(clients, msgs);
  }

  /** The `k`-th write carries the `k`-th message to the initial players
      less those whose departure was sent before it. */
  lemma {:induction false} DeliveryAt(clients: Slots, msgs: seq<ClientMessage>, k: nat)
    requires k < |msgs|
    ensures |BroadcastFold(clients, msgs).1| == |msgs|
    ensures BroadcastFold(clients, msgs).1[k] == Delivery(ToRaw(msgs[k]), Recipients(clients) - Departed(msgs[..k]))
    decreases |msgs|
  {
    var pre := msgs[..|msgs| - 1];
    if k == |pre| {
      LastDelivery(clients, msgs);
    } else {
      DeliveryAt(clients, pre, k);
      EarlierDelivery(clients, msgs, k);
      assert msgs[k] == pre[k] && msgs[..k] == pre[..k];
    }
  }

  /** Every message is written, in queue order, to every player still on
      the stream when it is sent: the initial players less those whose
      departure was sent before it. */
  lemma BroadcastFoldDeliveries(clients: Slots, msgs: seq<ClientMessage>)
    ensures var sent := BroadcastFold(clients, msgs).1;
      |sent| == |msgs| &&
      forall k :: 0 <= k < |msgs| ==>
        sent[k].bytes == ToRaw(msgs[k]) && sent[k].to == Recipients(clients) - Departed(msgs[..k])
  {
    if msgs != [] {
      DeliveryAt(clients, msgs, 0);
      forall k | 0 <= k < |msgs|
        ensures BroadcastFold(clients, msgs).1[k] == Delivery(ToRaw(msgs[k]), Recipients(clients) - Departed(msgs[..k]))
      {
        DeliveryAt(clients, msgs, k);
      }
    }
  }

  // ---------------------------------------------------------------------------
  // Reading requests

  predicate OutcomesFit(order: seq<byte>, outcomes: map<byte, Client.ReadOutcome>)
  {
    forall i :: 0 <= i < |order| ==>
      order[i] in outcomes && (outcomes[order[i]].Read? ==> |outcomes[order[i]].data| <= Client.READ_BUFFER)
  }

  /** The slots and the requests after one read from every slot with a
      stream, in iteration order. */
  function Poll(clients: Slots, order: seq<byte>, outcomes: map<byte, Client.ReadOutcome>): (r: (Slots, seq<(byte, ServerMessage)>))
    requires forall i :: 0 <= i < |order| ==> order[i] in clients
    requires OutcomesFit(order, outcomes)
    ensures r.0.Keys == clients.Keys
  {
    if order == [] then (clients, [])
    else
      var (c, reqs) := Poll(clients, order[..|order| - 1], outcomes);
      var id := order[|order| - 1];
      if !c[id].tcp then (c, reqs)
      else
        var (slot, m) := Client.ReceiveTCP(c[id], outcomes[id]);
        (c[id := slot], reqs + if m.Some? then [(id, m.value)] else [])
  }

  /** Each slot is read once: a slot yields at most one request, only when
      it had a stream, and that request is what its read is classified as;
      slots not listed are untouched. */
  lemma {:induction false} PollOneRequestPerSlot(clients: Slots, order: seq<byte>, outcomes: map<byte, Client.ReadOutcome>)
    requires NoDup(order) && forall i :: 0 <= i < |order| ==> order[i] in clients
    requires OutcomesFit(order, outcomes)
    ensures var (c, reqs) := Poll(clients, order, outcomes);
      (forall id :: id in clients && id !in order ==> c[id] == clients[id]) &&
      (forall k :: 0 <= k < |reqs| ==>
         (reqs[k].0 in order && clients[reqs[k].0].tcp &&
          Client.ReceiveTCP(clients[reqs[k].0], outcomes[reqs[k].0]).1 == Some(reqs[k].1))) &&
      (forall j, k :: 0 <= j < k < |reqs| ==> reqs[j].0 != reqs[k].0)
  {
    PollUntouched(clients, order, outcomes);
    PollRequestsFrom(clients, order, outcomes);
    PollNoRepeat(clients, order, outcomes);
  }

  lemma {:induction false} PollUntouched(clients: Slots, order: seq<byte>, outcomes: map<byte, Client.ReadOutcome>)
    requires NoDup(order) && forall i :: 0 <= i < |order| ==> order[i] in clients
    requires OutcomesFit(order, outcomes)
    ensures forall id :: id in clients && id !in order ==> Poll(clients, order, outcomes).0[id] == clients[id]
  {
    if order != [] {
      OrderPrefix(order, outcomes);
      PollUntouched(clients, order[..|order| - 1], outcomes);
    }
  }

  lemma {:induction false} PollRequestsFrom(clients: Slots, order: seq<byte>, outcomes: map<byte, Client.ReadOutcome>)
    requires NoDup(order) && forall i :: 0 <= i < |order| ==> order[i] in clients
    requires OutcomesFit(order, outcomes)
    ensures forall k :: 0 <= k < |Poll(clients, order, outcomes).1| ==>
      var r := Poll(clients, order, outcomes).1[k];
      r.0 in order && clients[r.0].tcp && Client.ReceiveTCP(clients[r.0], outcomes[r.0]).1 == Some(r.1)
  {
    if order != [] {
      var pre := order[..|order| - 1];
      var id := order[|order| - 1];
      OrderPrefix(order, outcomes);
      PollUntouched(clients, pre, outcomes);
      PollRequestsFrom(clients, pre, outcomes);
      var (c, reqs) := Poll(clients, pre, outcomes);
      assert c[id] == clients[id] && id in order;
      var all := Poll(clients, order, outcomes).1;
      assert all == reqs || (clients[id].tcp && all == reqs + [(id, Client.ReceiveTCP(c[id], outcomes[id]).1.value)]);
    }
  }

  lemma {:induction false} PollNoRepeat(clients: Slots, order: seq<byte>, outcomes: map<byte, Client.ReadOutcome>)
    requires NoDup(order) && forall i :: 0 <= i < |order| ==> order[i] in clients
    requires OutcomesFit(order, outcomes)
    ensures forall j, k :: 0 <= j < k < |Poll(clients, order, outcomes).1| ==>
      Poll(clients, order, outcomes).1[j].0 != Poll(clients, order, outcomes).1[k].0
  {
    if order != [] {
      var pre := order[..|order| - 1];
      var id := order[|order| - 1];
      OrderPrefix(order, outcomes);
      PollRequestsFrom(clients, pre, outcomes);
      PollNoRepeat(clients, pre, outcomes);
      var reqs := Poll(clients, pre, outcomes).1;
      var all := Poll(clients, order, outcomes).1;
      if all != reqs {
        assert all == reqs + [(id, all[|all| - 1].1)];
        forall j, k | 0 <= j < k < |all| ensures all[j].0 != all[k].0 {
          assert all[j] == reqs[j];
          if k < |reqs| {
            assert all[k] == reqs[k];
          }
        }
      }
    }
  }

  /** Dropping the last slot of an iteration order keeps it duplicate-free
      and fitting; the dropped slot is not among the rest. */
  lemma OrderPrefix(order: seq<byte>, outcomes: map<byte, Client.ReadOutcome>)
    requires order != [] && NoDup(order) && OutcomesFit(order, outcomes)
    ensures var pre := order[..|order| - 1];
      NoDup(pre) && OutcomesFit(pre, outcomes) && order[|order| - 1] !in pre &&
      forall x :: x in pre ==> x in order
  {
    var pre := order[..|order| - 1];
    var id := order[|order| - 1];
    NoDupDropLast(order);
    assert OutcomesFit(pre, outcomes) by {
      forall i | 0 <= i < |pre| ensures pre[i] == order[i] { }
    }
    forall x | x in pre ensures x in order {
      var i :| 0 <= i < |pre| && pre[i] == x;
      assert order[i] == x;
    }
  }

  // ---------------------------------------------------------------------------
  // Chat commands and announcements

  /** `"Игрок {name}{tail}"`. */
  function PlayerText(name: Text, tail: string): Text
  {
    Utf8("Игрок ") + name + Utf8(tail)
  }

  /** The announcement when a player kicks themself, one of four. */
  function SelfKickText(target: Text, k: nat): Text
  {
    var k := k % 4;
    PlayerText(target,
      if k == 0 then " прострелил себе колено."
      else if k == 1 then " сошёл с корабля."
      else if k == 2 then " поставил себя в угол."
      else " был наказан дефолтом.")
  }

  function KickText(name: Text, target: Text, roll: nat): Text
  {
    if target == name then SelfKickText(target, roll)
    else PlayerText(name, " выгнал из игры ") + target + Utf8(".")
  }

  /** What `kick target` queues, in iteration order over the slots: for each
      slot whose player is called `target`, its departure and an
      announcement; each announcement also goes to the chat log with no
      author. `roll(i)` is the random draw made at position `i`. */
  function Kick(clients: Slots, order: seq<byte>, target: Text, name: Text, roll: nat -> nat): (r: (seq<ClientMessage>, seq<(Text, Text)>))
    requires forall i :: 0 <= i < |order| ==> order[i] in clients
    ensures forall k :: 0 <= k < |r.1| ==> r.1[k].0 == []
  {
    if order == [] then ([], [])
    else
      var (msgs, log) := Kick(clients, order[..|order| - 1], target, name, roll);
      var id := order[|order| - 1];
      if clients[id].info.name != target then (msgs, log)
      else
        var text := KickText(name, target, roll(|order| - 1));
        (msgs + [ClientMessage.Disconnected(id), ClientMessage.Chat(text)], log + [([], text)])
  }

  /** One more slot in the kick loop: the sent-off player's two messages and
      one log line are appended when the name matches, nothing otherwise. */
  lemma KickStep(clients: Slots, order: seq<byte>, i: nat, target: Text, name: Text, roll: nat -> nat)
    requires forall k :: 0 <= k < |order| ==> order[k] in clients
    requires i < |order|
    ensures var (msgs, log) := Kick(clients, order[..i], target, name, roll);
      var id := order[i];
      Kick(clients, order[..i + 1], target, name, roll) ==
        if clients[id].info.name != target then (msgs, log)
        else (msgs + [ClientMessage.Disconnected(id), ClientMessage.Chat(KickText(name, target, roll(i)))],
              log + [([], KickText(name, target, roll(i)))])
  {
    assert order[..i + 1][..i] == order[..i];
  }

  lemma DepartedKicked(msgs: seq<ClientMessage>, id: byte, text: Text)
    ensures Departed(msgs + [ClientMessage.Disconnected(id), ClientMessage.Chat(text)]) == Departed(msgs) + {id}
  {
    DepartedAppend(msgs, ClientMessage.Disconnected(id));
    DepartedAppend(msgs + [ClientMessage.Disconnected(id)], ClientMessage.Chat(text));
    assert msgs + [ClientMessage.Disconnected(id), ClientMessage.Chat(text)] ==
      msgs + [ClientMessage.Disconnected(id)] + [ClientMessage.Chat(text)];
  }

  /** `kick` sends off exactly the listed slots whose player has that name. */
  lemma {:induction false} KickDepartsNamed(clients: Slots, order: seq<byte>, target: Text, name: Text, roll: nat -> nat)
    requires forall i :: 0 <= i < |order| ==> order[i] in clients
    ensures Departed(Kick(clients, order, target, name, roll).0) ==
      set id | id in Listed(order) && clients[id].info.name == target
  {
    if order != [] {
      var pre := order[..|order| - 1];
      var id := order[|order| - 1];
      KickDepartsNamed(clients, pre, target, name, roll);
      var msgs := Kick(clients, pre, target, name, roll).0;
      if clients[id].info.name == target {
        DepartedKicked(msgs, id, KickText(name, target, roll(|order| - 1)));
      }
    }
  }

  /** `"o1" "o2" ...`, each option quoted and followed by a space. */
  function QuotedList(opts: seq<Text>): Text
  {
    if opts == [] then [] else Quoted(opts[0]) + ([SPACE] + QuotedList(opts[1..]))
  }

  /** The chat line that tells the players a poll started. */
  function VotingAnnouncement(topic: Text, opts: seq<Text>): (r: Text)
    ensures r != [] && r[0] == SLASH
  {
    [SLASH] + (Utf8("voting") + ([SPACE] + (Quoted(topic) + ([SPACE] + QuotedList(opts)))))
  }

  /** The chat line that tells the players a poll's outcome. */
  function VotingResultAnnouncement(topic: Text, option: Text): (r: Text)
    ensures r != [] && r[0] == SLASH
  {
    [SLASH] + (Utf8("votingResult") + ([SPACE] + (Quoted(topic) + ([SPACE] + Quoted(option)))))
  }

  predicate Phrase(t: Text)
  {
    t != [] && QUOTE !in t
  }

  /** A bare word: no spaces, no quotes. */
  predicate Word(t: Text)
  {
    t != [] && SPACE !in t && QUOTE !in t
  }

  lemma {:induction false} QuotedListTokens(opts: seq<Text>)
    requires forall k :: 0 <= k < |opts| ==> Phrase(opts[k])
    ensures Tokens(QuotedList(opts)) == opts
  {
    if opts != [] {
      var rest := QuotedList(opts[1..]);
      QuotedListTokens(opts[1..]);
      TokensQuoted(opts[0], [SPACE] + rest);
      TokensSpace([], rest);
      assert [] + ([SPACE] + rest) == [SPACE] + rest;
      assert Tokens([]) == [];
    }
  }

  lemma WordTokens(w: Text)
    requires Word(w)
    ensures Tokens(w) == [w]
  {
    SplitFromWord(w, []);
    assert [] + w == w;
  }

  /** The poll's command words are bare words. */
  lemma VotingWords()
    ensures Word(Utf8("voting")) && Word(Utf8("votingResult"))
  {
    Utf8AsciiFree("voting", ' ');
    Utf8AsciiFree("voting", '"');
    Utf8AsciiFree("votingResult", ' ');
    Utf8AsciiFree("votingResult", '"');
  }

  /** A command word, a space, a quoted topic, a space and the rest read
      back as the word, the topic and the tokens of the rest. */
  lemma CommandTokens(w: Text, topic: Text, rest: Text)
    requires Word(w) && Phrase(topic)
    ensures Tokens(w + ([SPACE] + (Quoted(topic) + ([SPACE] + rest)))) == [w, topic] + Tokens(rest)
  {
    var tail := Quoted(topic) + ([SPACE] + rest);
    WordTokens(w);
    TokensSpace(w, tail);
    TokensQuoted(topic, [SPACE] + rest);
    TokensSpace([], rest);
    assert [] + ([SPACE] + rest) == [SPACE] + rest;
    assert Tokens([]) == [];
  }

  /** The poll announcement, read back by the same tokenizer without its
      leading slash, gives the command word, the topic and the options. */
  lemma VotingAnnouncementTokens(topic: Text, opts: seq<Text>)
    requires Phrase(topic) && forall k :: 0 <= k < |opts| ==> Phrase(opts[k])
    ensures Tokens(VotingAnnouncement(topic, opts)[1..]) == [Utf8("voting"), topic] + opts
  {
    var w := Utf8("voting");
    var list := QuotedList(opts);
    assert VotingAnnouncement(topic, opts)[1..] == w + ([SPACE] + (Quoted(topic) + ([SPACE] + list)));
    VotingWords();
    CommandTokens(w, topic, list);
    QuotedListTokens(opts);
  }

  /** The same for the result announcement. */
  lemma VotingResultTokens(topic: Text, option: Text)
    requires Phrase(topic) && Phrase(option)
    ensures Tokens(VotingResultAnnouncement(topic, option)[1..]) == [Utf8("votingResult"), topic, option]
  {
    var w := Utf8("votingResult");
    var last := Quoted(option);
    assert VotingResultAnnouncement(topic, option)[1..] == w + ([SPACE] + (Quoted(topic) + ([SPACE] + last)));
    VotingWords();
    CommandTokens(w, topic, last);
    TokensQuoted(option, []);
    assert last + [] == last;
    assert Tokens([]) == [];
  }

  function ResultText(option: Text, count: byte): Text
  {
    Utf8("Результат голосования: ") + option + Utf8(" (") + Decimal(count) + Utf8(" голосов)")
  }

  /** The poll timeout of a `voting` command with enough arguments parses as
      a number (the server stops otherwise). */
  predicate VotingTimeoutParses(txt: Text, parseF32: Text -> Option<real>)
  {
    var args := Tokens(txt);
    |args| >= 4 && args[0] == Utf8("voting") ==> parseF32(args[2]).Some?
  }

  /** A `vote` command does not push a tally past 255 (the server stops
      otherwise). */
  predicate VoteFits(txt: Text, votes: map<byte, byte>)
  {
    var args := Tokens(txt);
    |args| >= 2 && args[0] == Utf8("vote") && ParseU8(args[1]).Some? ==>
      GetOr(votes, ParseU8(args[1]).value, 0) < 255
  }

  /** The selection a `/vote n` chat line votes for, if it is one. */
  function VotedFor(msg: ServerMessage): Option<byte>
  {
    if msg.Chat? && msg.text != [] && msg.text[0] == SLASH then
      var args := Tokens(msg.text[1..]);
      if |args| >= 2 && args[0] == Utf8("vote") then ParseU8(args[1]) else None
    else None
  }

  /** How many of the queued requests are `/vote` lines for `sel`: the
      most that handling them can add to that tally. */
  function VoteLines(reqs: seq<(byte, ServerMessage)>, sel: byte): (n: nat)
    ensures n <= |reqs|
    ensures (forall k :: 0 <= k < |reqs| ==> VotedFor(reqs[k].1) != Some(sel)) ==> n == 0
  {
    if reqs == [] then 0
    else (if VotedFor(reqs[0].1) == Some(sel) then 1 else 0) + VoteLines(reqs[1..], sel)
  }

    /** Room in every tally for the queued vote lines leaves room for the
      first request's own vote. */
  lemma FirstVoteFits(votes: map<byte, byte>, reqs: seq<(byte, ServerMessage)>)
    requires reqs != [] && reqs[0].1.Chat? && reqs[0].1.text != [] && reqs[0].1.text[0] == SLASH
    requires forall sel :: GetOr(votes, sel, 0) + VoteLines(reqs, sel) <= 255
    ensures VoteFits(reqs[0].1.text[1..], votes)
  {
    var args := Tokens(reqs[0].1.text[1..]);
    if |args| >= 2 && args[0] == Utf8("vote") && ParseU8(args[1]).Some? {
      var sel := ParseU8(args[1]).value;
      assert VotedFor(reqs[0].1) == Some(sel);
      assert GetOr(votes, sel, 0) + VoteLines(reqs, sel) <= 255;
    }
  }

  /** Handling the first request adds to a tally at most that request's
      own vote line, so room remains for the rest of the queue. */
  lemma RestFits(before: map<byte, byte>, after: map<byte, byte>, reqs: seq<(byte, ServerMessage)>)
    requires reqs != []
    requires forall sel :: GetOr(before, sel, 0) + VoteLines(reqs, sel) <= 255
    requires forall sel :: GetOr(after, sel, 0) <= GetOr(before, sel, 0) as int + VoteLines([reqs[0]], sel)
    ensures forall sel :: GetOr(after, sel, 0) + VoteLines(reqs[1..], sel) <= 255
  {
    forall sel
      ensures GetOr(after, sel, 0) + VoteLines(reqs[1..], sel) <= 255
    {
      var first := [reqs[0]];
      assert |first[1..]| == 0;
      assert VoteLines(reqs, sel) == VoteLines(first, sel) + VoteLines(reqs[1..], sel);
    }
  }

/** A request the dispatcher can handle without stopping: registration and
      chat come from a slot that exists, a chat line is not empty, and a
      poll command's timeout parses. */
  predicate Handleable(r: (byte, ServerMessage), keys: set<byte>, parseF32: Text -> Option<real>)
  {
    ((r.1.Register? || r.1.Chat?) ==> r.0 in keys) &&
    (r.1.Chat? ==> r.1.text != [] && (r.1.text[0] == SLASH ==> VotingTimeoutParses(r.1.text[1..], parseF32)))
  }

  /** What a command does to the poll. */
  datatype PollChange = Untouched | Restarted(topic: Text, options: seq<Text>, timeout: real) | Counted(selection: byte)

  /** What a command does: the announcements it queues, the entries it adds
      to the chat log, and its change to the poll. */
  datatype Effect = Effect(msgs: seq<ClientMessage>, log: seq<(Text, Text)>, poll: PollChange)

  const NoEffect := Effect([], [], Untouched)

  /** The effect of the command whose words are `args`, issued by the
      player called `name`: `kick [target]` sends off every player called
      `target` (the issuer by default); `voting topic timeout options...`
      starts a poll; `vote n` counts a vote for option `n`; anything else,
      including a command with too few words or an unparsable selection,
      does nothing. */
  function CommandEffect(args: seq<Text>, name: Text, clients: Slots, order: seq<byte>, roll: nat -> nat,
                         parseF32: Text -> Option<real>): (e: Effect)
    requires forall i :: 0 <= i < |order| ==> order[i] in clients
    requires |args| >= 4 && args[0] == Utf8("voting") ==> parseF32(args[2]).Some?
    ensures e.poll.Restarted? ==> e.log == [] && |e.msgs| == 2
    ensures e.poll.Counted? ==> e.log == [] && |e.msgs| == 1
    ensures forall k :: 0 <= k < |e.log| ==> e.log[k].0 == []
    ensures e.poll.Counted? <==> |args| >= 2 && args[0] == Utf8("vote") && ParseU8(args[1]).Some?
    ensures e.poll.Counted? ==> e.poll.selection == ParseU8(args[1]).value
  {
    if args == [] then NoEffect
    else if args[0] == Utf8("kick") then
      assert args[0][0] != Utf8("vote")[0];
      var (msgs, log) := Kick(clients, order, if |args| > 1 then args[1] else name, name, roll);
      Effect(msgs, log, Untouched)
    else PollEffect(args, name, parseF32)
  }

  /** The effect of a command other than `kick`. */
  function PollEffect(args: seq<Text>, name: Text, parseF32: Text -> Option<real>): (e: Effect)
    requires args != []
    requires |args| >= 4 && args[0] == Utf8("voting") ==> parseF32(args[2]).Some?
    ensures e.log == []
    ensures e.poll.Untouched? ==> e.msgs == []
    ensures e.poll.Restarted? ==> |e.msgs| == 2
    ensures e.poll.Counted? ==> |e.msgs| == 1
    ensures e.poll.Counted? <==> |args| >= 2 && args[0] == Utf8("vote") && ParseU8(args[1]).Some?
    ensures e.poll.Counted? ==> e.poll.selection == ParseU8(args[1]).value
  {
    if args[0] == Utf8("voting") then
      Utf8AsciiLength("voting");
      Utf8AsciiLength("vote");
      if |args| < 4 then NoEffect else StartEffect(name, args[1], parseF32(args[2]).value, args[3..])
    else if args[0] == Utf8("vote") && |args| >= 2 && ParseU8(args[1]).Some? then
      VoteEffect(name, ParseU8(args[1]).value)
    else NoEffect
  }

  /** `voting`: the start is announced in words and as a command line the
      clients read back, and the poll is replaced. */
  function StartEffect(name: Text, topic: Text, timeout: real, opts: seq<Text>): Effect
  {
    Effect([ClientMessage.Chat(PlayerText(name, " начал голосование.")),
            ClientMessage.Chat(VotingAnnouncement(topic, opts))],
           [], Restarted(topic, opts, timeout))
  }

  /** `vote`: the vote is announced and counted. */
  function VoteEffect(name: Text, x: byte): Effect
  {
    Effect([ClientMessage.Chat(PlayerText(name, " проголосовал."))], [], Counted(x))
  }

  // ---------------------------------------------------------------------------
  // The server

  class Server {
    var clients: Slots
    var requests: seq<(byte, ServerMessage)>
    var broadcast: seq<ClientMessage>
    var voting: Voting.Voting
    var started: bool
    const state: State.State
    /** The number of slots and the role rule, both from the settings. */
    const playersCount: byte
    const extendPlayers: bool

    /** A server with every slot 1..`playersCount` free. */
    constructor (state: State.State, playersCount: byte, extendPlayers: bool, now: real)
      ensures clients == FreeSlots(playersCount)
      ensures requests == [] && broadcast == [] && !started && fresh(voting) && !voting.Active()
      ensures this.state == state && this.playersCount == playersCount && this.extendPlayers == extendPlayers
    {
      this.state := state;
      this.playersCount := playersCount;
      this.extendPlayers := extendPlayers;
      clients := FreeSlots(playersCount);
      requests := [];
      broadcast := [];
      started := false;
      voting := new Voting.Voting(now);
    }

    /** The search for a free slot, repeated until it finds one; `fuel`
        bounds the number of passes it takes. */
    method GetAvailablePlayerID(order: seq<byte>, ghost fuel: nat) returns (id: byte)
      requires forall i :: 0 <= i < |order| ==> order[i] in clients
      requires Search(clients, order, 0, fuel).Some?
      ensures Search(clients, order, 0, fuel) == Some(id as nat)
    {
      var minID: nat := 0;
      var found := false;
      ghost var left := fuel;
      while !found
        invariant found ==> Search(clients, order, 0, fuel) == Some(minID)
        invariant !found ==> Search(clients, order, minID, left) == Search(clients, order, 0, fuel)
        decreases left, if found then 0 else 1
      {
        ghost var m0 := minID;
        var i := 0;
        while i < |order|
          invariant 0 <= i <= |order|
          invariant Pass(clients, order, m0) == if found then (minID, true) else Pass(clients, order[i..], minID)
        {
          assert order[i..][1..] == order[i + 1..];
          var x := order[i];
          if x > minID + 1 {
            i := i + 1;
            continue;
          }
          minID := x;
          if !clients[x].tcp {
            found := true;
            break;
          }
          i := i + 1;
        }
        if !found {
          left := left - 1;
        }
      }
      id := minID as byte;
    }

    /** The free-slot search as it is evidently meant to work: the slots in
        increasing order, stopping at the first free one, and 0 when all
        are taken. */
    method FirstFreeSlot() returns (id: byte)
      ensures id == LowestFree(clients, 1)
    {
      var j: nat := 1;
      while j < 256
        invariant 1 <= j <= 256
        invariant LowestFree(clients, j) == LowestFree(clients, 1)
      {
        if j in clients && !clients[j].tcp {
          return j;
        }
        j := j + 1;
      }
      return 0;
    }

    /** The class a player asking for `wanted` while holding `previous` ends
        up with; the count of holders does not depend on iteration order. */
    method UpdateClass(previous: Text, wanted: Text, order: seq<byte>) returns (r: Text)
      requires Enumerates(order, clients.Keys)
      ensures r == ClassChoice(previous, wanted, |Holders(clients, wanted)|, extendPlayers)
    {
      if previous == wanted {
        return Utf8("unknown");
      }
      var count := 0;
      for i := 0 to |order|
        invariant count == CountHolders(clients, order[..i], wanted)
      {
        assert order[..i + 1][..i] == order[..i];
        if clients[order[i]].info.className == wanted {
          count := count + 1;
        }
      }
      assert order[..|order|] == order;
      CountHoldersIsCardinality(clients, order, wanted);
      assert Holders(clients, wanted) * Listed(order) == Holders(clients, wanted);
      if count == 0 {
        r := wanted;
      } else if count == 1 {
        r := if extendPlayers then wanted else previous;
      } else {
        r := previous;
      }
    }

    /** A new connection from `ip`: the lowest free slot gets the player's
        remembered name, a class by the role rule, and the stream; the
        arrival is announced. */
    method Listen(ip: State.Ip, order: seq<byte>) returns (id: byte)
      requires Enumerates(order, clients.Keys)
      modifies this`clients, this`broadcast
      ensures id == LowestFree(old(clients), 1)
      ensures id == 0 ==> clients == old(clients) && broadcast == old(broadcast)
      ensures id != 0 ==>
        var (name, cls) := state.GetPlayerInfo(ip);
        var given := ClassChoice(Utf8("unknown"), cls, |Holders(old(clients), cls)|, extendPlayers);
        clients == old(clients)[id := Client.Connect(Client.Account(name, given))] &&
        broadcast == old(broadcast) + [ClientMessage.Login(id, name)]
    {
      id := FirstFreeSlot();
      if id != 0 {
        var (name, cls) := state.GetPlayerInfo(ip);
        var given := UpdateClass(Utf8("unknown"), cls, order);
        clients := clients[id := Client.Connect(Client.Account(name, given))];
        broadcast := broadcast + [ClientMessage.Login(id, name)];
      }
    }

    /** Drains the state datagrams waiting on the socket. */
    method IntakeUDP(dgs: seq<Datagram>)
      requires SlotsKnown(clients, dgs)
      modifies this`clients
      ensures clients == Intake(old(clients), dgs)
    {
      for i := 0 to |dgs|
        invariant SlotsKnown(old(clients), dgs[..i])
        invariant clients == Intake(old(clients), dgs[..i])
      {
        assert dgs[..i + 1][..i] == dgs[..i];
        var d := dgs[i];
        var size := if |d.data| < UDP_BUFFER then |d.data| else UDP_BUFFER;
        if size != Client.STATE_SIZE {
          continue;
        }
        var id := SlotOf(d.data[0]);
        var c := clients[id];
        if c.udp.None? {
          c := c.(udp := Some(d.from));
        }
        assert Accepted(d) && d.data[..Client.STATE_SIZE] == d.data;
        c := c.(state := d.data[..Client.STATE_SIZE]);
        clients := clients[id := c];
      }
      assert dgs[..|dgs|] == dgs;
    }

    /** The state records of every other slot with an address, in id order. */
    method PacketFor(i: int) returns (buffer: seq<byte>)
      requires forall id :: 1 <= id <= playersCount ==> id in clients
      ensures buffer == StatesOf(clients, Peers(clients, i, playersCount as int))
    {
      buffer := [];
      for id := 1 to playersCount as int + 1
        invariant buffer == StatesOf(clients, Peers(clients, i, id - 1))
      {
        PeerStatesStep(clients, i, id);
        if clients[id as byte].udp.None? || id == i {
          continue;
        }
        buffer := buffer + clients[id as byte].state;
      }
    }

    /** The state packets of one tick. */
    method BroadcastState() returns (sends: seq<(Client.Addr, seq<byte>)>)
      requires forall id :: 1 <= id <= playersCount ==> id in clients
      ensures sends == StateSends(clients, playersCount as int, playersCount as int)
    {
      sends := [];
      for i := 1 to playersCount as int + 1
        invariant sends == StateSends(clients, i - 1, playersCount as int)
      {
        var addr := clients[i as byte].udp;
        var buffer: seq<byte> := [];
        if addr.Some? {
          buffer := PacketFor(i);
        }
        ghost var prev := sends;
        StateSendsStep(clients, i, playersCount as int);
        if addr.Some? && |buffer| != 0 {
          sends := sends + [(addr.value, buffer)];
          assert SendOf(clients, i, playersCount as int) == [(addr.value, buffer)];
        } else {
          assert SendOf(clients, i, playersCount as int) == [];
        }
        assert sends == prev + SendOf(clients, i, playersCount as int);
      }
    }

    /** Writes every queued announcement to every player with a stream,
        frees the slot of every departure after announcing it, and empties
        the queue. */
    method BroadcastTCP() returns (sent: seq<Delivery>)
      modifies this`clients, this`broadcast
      ensures (clients, sent) == BroadcastFold(old(clients), old(broadcast))
      ensures broadcast == []
    {
      sent := [];
      for k := 0 to |broadcast|
        invariant broadcast == old(broadcast)
        invariant (clients, sent) == BroadcastFold(old(clients), broadcast[..k])
      {
        assert broadcast[..k + 1][..k] == broadcast[..k];
        var msg := broadcast[k];
        sent := sent + [Delivery(ToRaw(msg), Recipients(clients))];
        if msg.Disconnected? {
          clients := clients[msg.id := Client.Default()];
        }
      }
      assert broadcast[..|broadcast|] == broadcast;
      broadcast := [];
    }

    /** One read from every slot with a stream, queueing what was read. */
    method PollTCP(order: seq<byte>, outcomes: map<byte, Client.ReadOutcome>)
      requires Enumerates(order, clients.Keys)
      requires OutcomesFit(order, outcomes)
      modifies this`clients, this`requests
      ensures clients == Poll(old(clients), order, outcomes).0
      ensures requests == old(requests) + Poll(old(clients), order, outcomes).1
    {
      for i := 0 to |order|
        invariant OutcomesFit(order[..i], outcomes)
        invariant clients == Poll(old(clients), order[..i], outcomes).0
        invariant requests == old(requests) + Poll(old(clients), order[..i], outcomes).1
      {
        assert order[..i + 1][..i] == order[..i];
        assert OutcomesFit(order[..i + 1], outcomes);
        var id := order[i];
        if !clients[id].tcp {
          continue;
        }
        var (slot, req) := Client.ReceiveTCP(clients[id], outcomes[id]);
        clients := clients[id := slot];
        if req.Some? {
          requests := requests + [(id, req.value)];
        }
      }
      assert order[..|order|] == order;
    }

    /** The server's queue, chat log and poll have changed by `e`; `now`
        is when a restarted poll starts. */
    twostate predicate Applied(e: Effect, now: real)
      reads this, state, voting
    {
      broadcast == old(broadcast) + e.msgs && state.chatHistory == old(state.chatHistory) + e.log &&
      voting == old(voting) &&
      match e.poll
      case Untouched => unchanged(voting)
      case Restarted(topic, options, timeout) =>
        voting.topic == topic && voting.options == options && voting.timeout == timeout &&
        voting.votes == map[] && voting.started == now
      case Counted(x) =>
        x in voting.votes && voting.votes[x] as int == GetOr(old(voting.votes), x, 0) as int + 1 &&
        voting.votes == old(voting.votes)[x := voting.votes[x]] &&
        voting.topic == old(voting.topic) && voting.options == old(voting.options) &&
        voting.timeout == old(voting.timeout) && voting.started == old(voting.started)
    }

    /** A chat command, `txt` being the line without its slash. */
    method Cmd(executor: byte, txt: Text, order: seq<byte>, roll: nat -> nat,
               parseF32: Text -> Option<real>, now: real)
      requires Tokens(txt) != [] ==> executor in clients
      requires Enumerates(order, clients.Keys)
      requires VotingTimeoutParses(txt, parseF32) && VoteFits(txt, voting.votes)
      modifies this`broadcast, state`chatHistory, voting
      ensures Applied(CommandEffect(Tokens(txt), NameOf(executor), clients, order, roll, parseF32), now)
    {
      var args := Split(txt);
      if |args| == 0 {
        return;
      }
      var name := clients[executor].info.name;
      if args[0] == Utf8("kick") {
        var target := if |args| > 1 then args[1] else name;
        KickPlayers(target, name, order, roll);
      } else {
        PollCommand(args, name, parseF32, now);
      }
    }

    /** The `voting` and `vote` commands. */
    method PollCommand(args: seq<Text>, name: Text, parseF32: Text -> Option<real>, now: real)
      requires args != [] && args[0] != Utf8("kick")
      requires |args| >= 4 && args[0] == Utf8("voting") ==> parseF32(args[2]).Some?
      requires |args| >= 2 && args[0] == Utf8("vote") && ParseU8(args[1]).Some? ==>
        GetOr(voting.votes, ParseU8(args[1]).value, 0) < 255
      modifies this`broadcast, voting
      ensures Applied(PollEffect(args, name, parseF32), now)
    {
      var command := args[0];
      if command == Utf8("voting") {
        if |args| < 4 {
          return;
        }
        StartVoting(name, args[1], parseF32(args[2]).value, args[3..], now);
      } else if command == Utf8("vote") {
        if |args| == 1 {
          return;
        }
        var x := ParseU8(args[1]);
        if x.Some? {
          CastVote(name, x.value);
        }
      }
    }

    /** The name of the player in slot `id`; empty for a slot that does not
        exist. */
    function NameOf(id: byte): Text
      reads this
    {
      if id in clients then clients[id].info.name else []
    }

    /** `kick`: every slot whose player is called `target` is sent off. */
    method KickPlayers(target: Text, name: Text, order: seq<byte>, roll: nat -> nat)
      requires forall i :: 0 <= i < |order| ==> order[i] in clients
      modifies this`broadcast, state`chatHistory
      ensures var (msgs, log) := Kick(clients, order, target, name, roll);
        broadcast == old(broadcast) + msgs && state.chatHistory == old(state.chatHistory) + log
    {
      var msgs: seq<ClientMessage>, log: seq<(Text, Text)> := [], [];
      for i := 0 to |order|
        invariant (msgs, log) == Kick(clients, order[..i], target, name, roll)
        invariant broadcast == old(broadcast) && state.chatHistory == old(state.chatHistory)
      {
        KickStep(clients, order, i, target, name, roll);
        var id := order[i];
        if clients[id].info.name == target {
          var text := KickText(name, target, roll(i));
          msgs := msgs + [ClientMessage.Disconnected(id), ClientMessage.Chat(text)];
          log := log + [([], text)];
        }
      }
      assert order[..|order|] == order;
      Announce(msgs, log);
    }

    /** Queues announcements and appends their log lines. */
    method Announce(msgs: seq<ClientMessage>, log: seq<(Text, Text)>)
      modifies this`broadcast, state`chatHistory
      ensures broadcast == old(broadcast) + msgs
      ensures state.chatHistory == old(state.chatHistory) + log
    {
      broadcast := broadcast + msgs;
      state.chatHistory := state.chatHistory + log;
    }

    /** `voting`: announces and starts a poll. */
    method StartVoting(name: Text, topic: Text, timeout: real, opt: seq<Text>, now: real)
      modifies this`broadcast, voting
      ensures Applied(StartEffect(name, topic, timeout, opt), now)
    {
      voting.Start(topic, opt, timeout, now);
      broadcast := broadcast + [ClientMessage.Chat(PlayerText(name, " начал голосование.")),
                                ClientMessage.Chat(VotingAnnouncement(topic, opt))];
    }

    /** `vote`: counts one vote and announces it. */
    method CastVote(name: Text, x: byte)
      requires GetOr(voting.votes, x, 0) < 255
      modifies this`broadcast, voting`votes
      ensures Applied(VoteEffect(name, x), 0.0)
    {
      voting.Vote(x);
      broadcast := broadcast + [ClientMessage.Chat(PlayerText(name, " проголосовал."))];
    }

    /** One request. A chat line starting with a slash is a command: it is
        neither relayed nor logged as the player's chat, and the only log
        entries it may add have no author. */
    method HandleRequest(id: byte, msg: ServerMessage, order: seq<byte>, roll: nat -> nat,
                         parseF32: Text -> Option<real>, now: real)
      requires Handleable((id, msg), clients.Keys, parseF32)
      requires msg.Chat? && msg.text[0] == SLASH ==> VoteFits(msg.text[1..], voting.votes)
      requires Enumerates(order, clients.Keys)
      modifies this`clients, this`broadcast, state`chatHistory, voting
      ensures clients.Keys == old(clients.Keys)
      ensures |state.chatHistory| >= |old(state.chatHistory)| && state.chatHistory[..|old(state.chatHistory)|] == old(state.chatHistory)
      ensures |broadcast| >= |old(broadcast)| && broadcast[..|old(broadcast)|] == old(broadcast)
      ensures forall sel :: GetOr(voting.votes, sel, 0) <= GetOr(old(voting.votes), sel, 0) as int + VoteLines([(id, msg)], sel)
      ensures msg.Invalid? ==>
        clients == old(clients) && broadcast == old(broadcast) && state.chatHistory == old(state.chatHistory) && unchanged(voting)
      ensures msg.Register? ==>
        clients == old(clients)[id := old(clients)[id].(info := old(clients)[id].info.(name := msg.name))] &&
        broadcast == old(broadcast) + [ClientMessage.Login(id, msg.name)] &&
        state.chatHistory == old(state.chatHistory) && unchanged(voting)
      ensures msg.Disconnected? ==>
        clients == old(clients) && broadcast == old(broadcast) + [ClientMessage.Disconnected(id)] &&
        state.chatHistory == old(state.chatHistory) && unchanged(voting)
      ensures msg.Chat? && msg.text[0] != SLASH ==>
        clients == old(clients) && broadcast == old(broadcast) + [ClientMessage.Chat(msg.text)] &&
        state.chatHistory == old(state.chatHistory) + [(old(clients)[id].info.name, msg.text)] && unchanged(voting)
      ensures msg.Chat? && msg.text[0] == SLASH ==>
        var e := CommandEffect(Tokens(msg.text[1..]), old(NameOf(id)), old(clients), order, roll, parseF32);
        clients == old(clients) && Applied(e, now)
    {
      match msg {
        case Invalid =>
        case Register(name) =>
          Rename(id, name);
        case Disconnected =>
          broadcast := broadcast + [ClientMessage.Disconnected(id)];
        case Chat(text) =>
          if text[0] == SLASH {
            Cmd(id, text[1..], order, roll, parseF32, now);
          } else {
            Say(id, text);
          }
      }
    }

    /** A registration names the slot and announces the player. */
    method Rename(id: byte, name: Text)
      requires id in clients
      modifies this`clients, this`broadcast
      ensures clients == old(clients)[id := old(clients)[id].(info := old(clients)[id].info.(name := name))]
      ensures broadcast == old(broadcast) + [ClientMessage.Login(id, name)]
    {
      var c := clients[id];
      clients := clients[id := c.(info := c.info.(name := name))];
      broadcast := broadcast + [ClientMessage.Login(id, name)];
    }

    /** A chat line that is not a command is relayed and logged under the
        sender's name. */
    method Say(id: byte, text: Text)
      requires id in clients
      modifies this`broadcast, state`chatHistory
      ensures broadcast == old(broadcast) + [ClientMessage.Chat(text)]
      ensures state.chatHistory == old(state.chatHistory) + [(clients[id].info.name, text)]
    {
      broadcast := broadcast + [ClientMessage.Chat(text)];
      state.chatHistory := state.chatHistory + [(clients[id].info.name, text)];
    }

    /** Handles every queued request in order and empties the queue. Each
        request may add at most one vote to a tally, so tallies with room
        for one vote per request cannot overflow. */
    method HandleRequests(order: seq<byte>, roll: nat -> nat, parseF32: Text -> Option<real>, now: real)
      requires Enumerates(order, clients.Keys)
      requires forall k :: 0 <= k < |requests| ==> Handleable(requests[k], clients.Keys, parseF32)
      requires forall sel :: GetOr(voting.votes, sel, 0) + VoteLines(requests, sel) <= 255
      modifies this`clients, this`broadcast, this`requests, state`chatHistory, voting
      ensures requests == [] && clients.Keys == old(clients.Keys)
      ensures |state.chatHistory| >= |old(state.chatHistory)| && state.chatHistory[..|old(state.chatHistory)|] == old(state.chatHistory)
      ensures |broadcast| >= |old(broadcast)| && broadcast[..|old(broadcast)|] == old(broadcast)
    {
      var queue := requests;
      for i := 0 to |queue|
        invariant clients.Keys == old(clients.Keys)
        invariant forall sel :: GetOr(voting.votes, sel, 0) + VoteLines(queue[i..], sel) <= 255
        invariant |state.chatHistory| >= |old(state.chatHistory)| && state.chatHistory[..|old(state.chatHistory)|] == old(state.chatHistory)
        invariant |broadcast| >= |old(broadcast)| && broadcast[..|old(broadcast)|] == old(broadcast)
      {
        var (id, msg) := queue[i];
        assert Handleable(queue[i], clients.Keys, parseF32);
        ghost var before := voting.votes;
        assert queue[i..][0] == queue[i] && queue[i..][1..] == queue[i + 1..];
        if msg.Chat? && msg.text[0] == SLASH {
          FirstVoteFits(voting.votes, queue[i..]);
        }
        HandleRequest(id, msg, order, roll, parseF32, now);
        RestFits(before, voting.votes, queue[i..]);
      }
      requests := [];
    }

    /** A poll past its deadline is closed: its outcome is announced twice
        (as text and as a command line) and a fresh, inactive poll replaces
        it. */
    method ResolveVoting(order: seq<byte>, now: real)
      requires Enumerates(order, voting.votes.Keys)
      requires voting.Active() && voting.Finished(now) ==> Voting.Leader(voting.votes, order).0 < |voting.options|
      modifies this`voting, this`broadcast
      ensures old(voting.Active() && voting.Finished(now)) ==>
        var w := Voting.Leader(old(voting.votes), order);
        var option := old(voting.options)[w.0];
        broadcast == old(broadcast) + [ClientMessage.Chat(ResultText(option, w.1)),
                                      ClientMessage.Chat(VotingResultAnnouncement(old(voting.topic), option))]
      ensures old(voting.Active() && voting.Finished(now)) ==>
        fresh(voting) && !voting.Active() && voting.votes == map[] && voting.options == [] &&
        voting.timeout == 0.0 && voting.started == now
      ensures !old(voting.Active() && voting.Finished(now)) ==>
        broadcast == old(broadcast) && voting == old(voting)
    {
      if voting.Active() && voting.Finished(now) {
        AnnounceResult(order);
        voting := new Voting.Voting(now);
      }
    }

    /** The two announcements of a closed poll: the outcome in words and
        the `/votingResult` line. The poll itself is left as it is. */
    method AnnounceResult(order: seq<byte>)
      requires Enumerates(order, voting.votes.Keys)
      requires Voting.Leader(voting.votes, order).0 < |voting.options|
      modifies this`broadcast
      ensures var w := Voting.Leader(voting.votes, order);
        var option := voting.options[w.0];
        broadcast == old(broadcast) + [ClientMessage.Chat(ResultText(option, w.1)),
                                      ClientMessage.Chat(VotingResultAnnouncement(voting.topic, option))]
    {
      var result := voting.GetResult(order);
      var (option, count) := result.value;
      broadcast := broadcast + [ClientMessage.Chat(ResultText(option, count)),
                                ClientMessage.Chat(VotingResultAnnouncement(voting.topic, option))];
    }
  }
}
