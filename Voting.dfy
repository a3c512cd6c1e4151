/** A server-side poll: a topic, the options offered, a tally per selected
    option number, and a deadline measured from when the poll started.
    Time is a parameter: `now` is the current reading of a monotonic clock
    in seconds. */
module Voting {
  import opened Common

  class Voting {
    var topic: Text
    var options: seq<Text>
    /** Selection number to number of votes (both bytes). */
    var votes: map<byte, byte>
    var timeout: real
    /** The clock reading when the poll was created or started. */
    var started: real

    /** A poll that is not running: no topic, no options, no votes. */
    constructor (now: real)
      ensures topic == [] && options == [] && votes == map[] && timeout == 0.0 && started == now
      ensures !Active()
    {
      topic := [];
      options := [];
      votes := map[];
      timeout := 0.0;
      started := now;
    }

    predicate Active()
      reads this
    {
      topic != []
    }

    predicate Finished(now: real)
      reads this
    {
      now - started >= timeout
    }

    /** Starts a new poll, replacing any previous one and clearing every tally. */
    method Start(topic: Text, options: seq<Text>, timeout: real, now: real)
      modifies this
      ensures this.topic == topic && this.options == options && this.timeout == timeout
      ensures votes == map[] && started == now
      ensures Active() <==> topic != []
      ensures forall later :: Finished(later) <==> later - now >= timeout
    {
      this.topic := topic;
      this.options := options;
      this.timeout := timeout;
      votes := map[];
      started := now;
    }

    /** Counts one vote for `selection`. The tally is a byte and the
        increment is checked, so a 256th vote for one option is not
        allowed. */
    method Vote(selection: byte)
      requires GetOr(votes, selection, 0) < 255
      modifies this`votes
      ensures votes == old(votes)[selection := GetOr(old(votes), selection, 0) + 1]
    {
      var x := GetOr(votes, selection, 0);
      votes := votes[selection := x + 1];
    }

    /** The winning option's text and tally, going through `order` (the
        map's iteration order, which visits every selection once) and keeping the first selection whose tally
        is strictly above the best so far; `None` when the winning
        selection has no option (an out-of-bounds index). */
    method GetResult(order: seq<byte>) returns (r: Option<(Text, byte)>)
      requires Enumerates(order, votes.Keys)
      ensures var w := Leader(votes, order);
        r == if w.0 < |options| then Some((options[w.0], w.1)) else None
    {
      var cur: (byte, byte) := (0, 0);
      for i := 0 to |order|
        invariant cur == Leader(votes, order[..i])
      {
        var x := order[i];
        assert order[..i + 1][..i] == order[..i];
        if votes[x] > cur.1 {
          cur := (x, votes[x]);
        }
      }
      assert order[..|order|] == order;
      if cur.0 >= |options| {
        return None;
      }
      return Some((options[cur.0], cur.1));
    }
  }

  /** The running maximum over the tallies in iteration order, starting
      from selection 0 with no votes and replaced only on a strictly
      greater tally. */
  function Leader(votes: map<byte, byte>, order: seq<byte>): (byte, byte)
    requires forall i :: 0 <= i < |order| ==> order[i] in votes
  {
    if order == [] then (0, 0)
    else
      var cur := Leader(votes, order[..|order| - 1]);
      var x := order[|order| - 1];
      if votes[x] > cur.1 then (x, votes[x]) else cur
  }

  /** The leader's tally is the highest tally; the leader is the first
      selection in iteration order that has it; with no votes (or only
      zero tallies) the result is selection 0 with 0 votes. */
  lemma {:induction false} LeaderIsFirstMaximum(votes: map<byte, byte>, order: seq<byte>)
    requires forall i :: 0 <= i < |order| ==> order[i] in votes
    ensures var w := Leader(votes, order);
      (forall i :: 0 <= i < |order| ==> votes[order[i]] <= w.1) &&
      (w.1 == 0 ==> w.0 == 0) &&
      (w.1 > 0 ==> exists j :: 0 <= j < |order| && order[j] == w.0 && votes[w.0] == w.1 &&
                     forall i :: 0 <= i < j ==> votes[order[i]] < w.1)
  {
    if order != [] {
      var pre := order[..|order| - 1];
      LeaderIsFirstMaximum(votes, pre);
      var cur := Leader(votes, pre);
      var x := order[|order| - 1];
      if votes[x] > cur.1 {
        var j := |order| - 1;
        assert order[j] == x;
        forall i | 0 <= i < j ensures votes[order[i]] < votes[x] {
          assert order[i] == pre[i];
        }
      } else if cur.1 > 0 {
        var j :| 0 <= j < |pre| && pre[j] == cur.0 && votes[cur.0] == cur.1 &&
                 forall i :: 0 <= i < j ==> votes[pre[i]] < cur.1;
        assert order[j] == pre[j];
        forall i | 0 <= i < j ensures votes[order[i]] < cur.1 {
          assert order[i] == pre[i];
        }
      }
      forall i | 0 <= i < |order| ensures votes[order[i]] <= Leader(votes, order).1 {
        if i < |pre| { assert order[i] == pre[i]; }
      }
    }
  }

  /** Over the map's full iteration order, the leader's tally is the
      highest tally of the poll, and a leader with votes is a selection
      that has them. */
  lemma LeaderIsMaximum(votes: map<byte, byte>, order: seq<byte>)
    requires Enumerates(order, votes.Keys)
    ensures forall s :: s in votes ==> votes[s] <= Leader(votes, order).1
    ensures Leader(votes, order).1 > 0 ==> Leader(votes, order).0 in votes && votes[Leader(votes, order).0] == Leader(votes, order).1
  {
    LeaderIsFirstMaximum(votes, order);
    forall s | s in votes
      ensures votes[s] <= Leader(votes, order).1
    {
      var i :| 0 <= i < |order| && order[i] == s;
    }
  }
}
