/** The message log of chat/server.js as pure functions over the `messages`
    array: the history filter of the `join` handler and the two-room
    fan-out of the `chat message` handler. */
module MessageLog {
  import opened ChatTypes

  /** `m.fromId === userId || m.toId === userId`. */
  predicate Involves(m: Message, userId: string) {
    m.fromId == userId || m.toId == userId
  }

  /** `messages.filter(m => m.fromId === userId || m.toId === userId)`. */
  function History(log: seq<Message>, userId: string): (r: seq<Message>)
    ensures |r| <= |log|
    ensures forall m :: m in r ==> m in log && Involves(m, userId)
    ensures forall i :: 0 <= i < |log| && Involves(log[i], userId) ==> log[i] in r
    decreases |log|
  {
    if |log| == 0 then []
    else
      var last := log[|log| - 1];
      History(log[..|log| - 1], userId) + (if Involves(last, userId) then [last] else [])
  }

  /** The positions in `log`, in increasing order, of the messages that
      involve `userId`. */
  function Indices(log: seq<Message>, userId: string): (r: seq<nat>)
    ensures forall k :: 0 <= k < |r| ==> r[k] < |log| && Involves(log[r[k]], userId)
    ensures forall k, l :: 0 <= k < l < |r| ==> r[k] < r[l]
    ensures forall i :: 0 <= i < |log| && Involves(log[i], userId) ==> i in r
    decreases |log|
  {
    if |log| == 0 then []
    else
      var n := |log| - 1;
      Indices(log[..n], userId) + (if Involves(log[n], userId) then [n] else [])
  }

  /** The history is exactly the messages at `Indices`, in that order: the
      in-order subsequence of the log made of the messages that involve the
      user, each taken once. */
  lemma {:induction false} HistoryIsSubsequence(log: seq<Message>, userId: string)
    ensures |History(log, userId)| == |Indices(log, userId)|
    ensures forall k :: 0 <= k < |Indices(log, userId)| ==>
              History(log, userId)[k] == log[Indices(log, userId)[k]]
    decreases |log|
  {
    if |log| > 0 {
      var n := |log| - 1;
      var pre := log[..n];
      HistoryIsSubsequence(pre, userId);
      var hp, ixp := History(pre, userId), Indices(pre, userId);
      var tail := if Involves(log[n], userId) then [log[n]] else [];
      var tailIx := if Involves(log[n], userId) then [n] else [];
      assert History(log, userId) == hp + tail;
      assert Indices(log, userId) == ixp + tailIx;
      forall k | 0 <= k < |ixp| ensures (hp + tail)[k] == log[(ixp + tailIx)[k]] {
        assert pre[ixp[k]] == log[ixp[k]];
      }
    }
  }

  /** Appending a message to the log extends the history of each of its
      two participants by that message and leaves every other history as
      it was. */
  lemma HistoryAppend(log: seq<Message>, m: Message, userId: string)
    ensures History(log + [m], userId) ==
            History(log, userId) + (if Involves(m, userId) then [m] else [])
  {
    assert (log + [m])[..|log|] == log;
  }

  /** The room ids `chat message` emits to, in order: the receiver's room,
      then the sender's. */
  function RelayTargets(msg: Message): seq<string> {
    [msg.toId, msg.fromId]
  }

  /** How many copies a connection that has joined the rooms `rooms`
      receives when the message is emitted to each room of `targets` in
      turn: one per emit to a room it is in. */
  function Deliveries(rooms: set<string>, targets: seq<string>): (n: nat)
    ensures n <= |targets|
    ensures n == 0 <==> forall k :: 0 <= k < |targets| ==> targets[k] !in rooms
    ensures n == |targets| <==> forall k :: 0 <= k < |targets| ==> targets[k] in rooms
    decreases |targets|
  {
    if |targets| == 0 then 0
    else (if targets[0] in rooms then 1 else 0) + Deliveries(rooms, targets[1..])
  }

  /** A single emit reaches the connection once if it is in that room,
      otherwise not at all. */
  lemma DeliveriesSingle(rooms: set<string>, t: string)
    ensures Deliveries(rooms, [t]) == if t in rooms then 1 else 0
  {
    assert [t][1..] == [];
  }

  /** The copies received from two successive runs of emits add up. */
  lemma {:induction false} DeliveriesConcat(rooms: set<string>, a: seq<string>, b: seq<string>)
    ensures Deliveries(rooms, a + b) == Deliveries(rooms, a) + Deliveries(rooms, b)
    decreases |a|
  {
    if |a| > 0 {
      assert (a + b)[0] == a[0];
      assert (a + b)[1..] == a[1..] + b;
      DeliveriesConcat(rooms, a[1..], b);
    } else {
      assert a + b == b;
    }
  }

  /** A relayed message reaches a connection once for each of the
      receiver's and the sender's rooms it has joined: never when it joined
      neither, twice when it joined both (also when the sender writes to
      itself). */
  lemma {:induction false} RelayDeliveries(rooms: set<string>, msg: Message)
    ensures Deliveries(rooms, RelayTargets(msg)) ==
            (if msg.toId in rooms then 1 else 0) + (if msg.fromId in rooms then 1 else 0)
  {
    assert RelayTargets(msg) == [msg.toId] + [msg.fromId];
    DeliveriesConcat(rooms, [msg.toId], [msg.fromId]);
    DeliveriesSingle(rooms, msg.toId);
    DeliveriesSingle(rooms, msg.fromId);
  }
}
