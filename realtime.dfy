/** The realtime state of the server process (index.js): the count of
    connected clients, the count of clients in the chat namespace, and the
    buffer of the last 20 chat messages that a new chat client is sent. */
module Realtime {
  /** A chat message; an empty `timestamp` is an absent one. The other
      fields the client sends are carried along unread in `body`. */
  datatype Message = Message(body: string, timestamp: string)

  /** How many messages the buffer keeps. */
  const BufferSize := 20

  /** `msg.timestamp = msg.timestamp || now`. */
  function Stamped(msg: Message, now: string): (m: Message)
    ensures m.body == msg.body
    ensures msg.timestamp != "" ==> m == msg
    ensures msg.timestamp == "" ==> m.timestamp == now
  {
    if msg.timestamp != "" then msg else msg.(timestamp := now)
  }

  /** The most recent `BufferSize` messages of a history, oldest first. */
  function Recent(history: seq<Message>): (r: seq<Message>)
    ensures |r| == if |history| < BufferSize then |history| else BufferSize
    ensures r == history[|history| - |r|..]
  {
    if |history| <= BufferSize then history else history[|history| - BufferSize..]
  }

  /** The `push` then `shift`-when-over-full step keeps the buffer equal to
      the most recent messages. */
  lemma RecentSnoc(history: seq<Message>, m: Message)
    ensures var pushed := Recent(history) + [m];
      Recent(history + [m]) == if |pushed| > BufferSize then pushed[1..] else pushed
  {
    var h := history + [m];
    var pushed := Recent(history) + [m];
    if |pushed| > BufferSize {
      assert h[|h| - BufferSize..] == pushed[1..];
    } else {
      assert h[|h| - |h|..] == h;
    }
  }

  /** `Math.max(count - 1, 0)`. */
  function Decremented(count: int): (r: int)
    ensures count >= 1 ==> r == count - 1
    ensures count < 1 ==> r == 0
  {
    if count - 1 > 0 then count - 1 else 0
  }

  /** The counter after a run of connects (`true`) and disconnects
      (`false`) from 0. */
  function Count(events: seq<bool>): (c: int)
    ensures c >= 0
  {
    if events == [] then 0
    else
      var c := Count(events[..|events| - 1]);
      if events[|events| - 1] then c + 1 else Decremented(c)
  }

  function Connects(events: seq<bool>): nat {
    if events == [] then 0 else Connects(events[..|events| - 1]) + (if events[|events| - 1] then 1 else 0)
  }

  function Disconnects(events: seq<bool>): nat {
    if events == [] then 0 else Disconnects(events[..|events| - 1]) + (if events[|events| - 1] then 0 else 1)
  }

  /** When every disconnect follows a connect of its own, the clamp never
      fires and the counter is the number of connected clients. */
  lemma {:induction false} CountIsBalance(events: seq<bool>)
    requires forall n :: 0 <= n <= |events| ==> Disconnects(events[..n]) <= Connects(events[..n])
    ensures Count(events) == Connects(events) - Disconnects(events)
  {
    if events != [] {
      var init := events[..|events| - 1];
      forall n | 0 <= n <= |init|
        ensures Disconnects(init[..n]) <= Connects(init[..n])
      {
        assert init[..n] == events[..n];
      }
      CountIsBalance(init);
      assert events[..|events|] == events;
    }
  }

  class Server {
    var activeUsers: int
    var activeChatUsers: int
    var lastMessages: seq<Message>
    /** Every chat message received, stamped, in arrival order. */
    ghost var history: seq<Message>

    ghost predicate Valid()
      reads this
    {
      && activeUsers >= 0
      && activeChatUsers >= 0
      && lastMessages == Recent(history)
    }

    constructor ()
      ensures Valid()
      ensures activeUsers == 0 && activeChatUsers == 0 && lastMessages == [] && history == []
    {
      activeUsers := 0;
      activeChatUsers := 0;
      lastMessages := [];
      history := [];
    }

    /** A client connects; the new count is broadcast. */
    method Connect() returns (broadcast: int)
      requires Valid()
      modifies this
      ensures Valid()
      ensures activeUsers == old(activeUsers) + 1 && broadcast == activeUsers
      ensures activeChatUsers == old(activeChatUsers) && lastMessages == old(lastMessages) && history == old(history)
    {
      activeUsers := activeUsers + 1;
      broadcast := activeUsers;
    }

    /** A client disconnects; the count drops by one but not below 0. */
    method Disconnect() returns (broadcast: int)
      requires Valid()
      modifies this
      ensures Valid()
      ensures activeUsers == Decremented(old(activeUsers)) && broadcast == activeUsers
      ensures activeChatUsers == old(activeChatUsers) && lastMessages == old(lastMessages) && history == old(history)
    {
      activeUsers := if activeUsers - 1 > 0 then activeUsers - 1 else 0;
      broadcast := activeUsers;
    }

    /** A client joins the chat namespace: the chat count is broadcast and
        the client is sent the buffer as it stands. */
    method ChatConnect() returns (broadcast: int, initialMessages: seq<Message>)
      requires Valid()
      modifies this
      ensures Valid()
      ensures activeChatUsers == old(activeChatUsers) + 1 && broadcast == activeChatUsers
      ensures initialMessages == lastMessages == old(lastMessages)
      ensures activeUsers == old(activeUsers) && history == old(history)
    {
      activeChatUsers := activeChatUsers + 1;
      broadcast := activeChatUsers;
      initialMessages := lastMessages;
    }

    /** A chat client leaves the namespace. */
    method ChatDisconnect() returns (broadcast: int)
      requires Valid()
      modifies this
      ensures Valid()
      ensures activeChatUsers == Decremented(old(activeChatUsers)) && broadcast == activeChatUsers
      ensures activeUsers == old(activeUsers) && lastMessages == old(lastMessages) && history == old(history)
    {
      activeChatUsers := if activeChatUsers - 1 > 0 then activeChatUsers - 1 else 0;
      broadcast := activeChatUsers;
    }

    /** A chat message arrives at `now`: it is stamped if it has no
        timestamp, buffered, and broadcast. */
    method ChatMessage(msg: Message, now: string) returns (broadcast: Message)
      requires Valid()
      modifies this
      ensures Valid()
      ensures broadcast == Stamped(msg, now)
      ensures history == old(history) + [broadcast]
      ensures |lastMessages| <= BufferSize && lastMessages[|lastMessages| - 1] == broadcast
      ensures activeUsers == old(activeUsers) && activeChatUsers == old(activeChatUsers)
    {
      var m := Stamped(msg, now);
      RecentSnoc(history, m);
      lastMessages := lastMessages + [m];
      if |lastMessages| > BufferSize {
        lastMessages := lastMessages[1..];
      }
      history := history + [m];
      broadcast := m;
    }
  }
}
