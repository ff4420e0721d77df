// The socket chat server's table as it runs: slots updated in place.
// Source: lab10/zad1/server.c
module PingServer {
  import opened PingTable

  class Server {
    const clients: array<Slot>
    var mutex: nat
    // The number of the connection to be accepted next, in place of its descriptor.
    var next: nat

    ghost function View(): State
      reads this, clients
    {
      State(clients[..], mutex, next)
    }

    constructor (maxConn: nat)
      ensures Init(maxConn, View()) && fresh(clients)
    {
      clients := new Slot[maxConn](i => Slot(Empty, false, 0));
      mutex, next := 1, 0;
    }

    // new_client: the index given out, or -1 with the mutex left locked.
    method NewClient() returns (i: int)
      requires Enabled(View(), Accept)
      modifies this, clients
      ensures View() == Next(old(View()), Accept)
      ensures i == if FirstEmpty(old(clients[..])) < clients.Length then FirstEmpty(old(clients[..])) else -1
    {
      mutex := mutex - 1;
      i := 0;
      while i < clients.Length
        invariant 0 <= i <= clients.Length && clients[..] == old(clients[..]) && mutex == old(mutex) - 1 && next == old(next)
        invariant forall j :: 0 <= j < i ==> clients[j].phase != Empty
      {
        if clients[i].phase == Empty {
          clients[i] := Slot(Starting, true, next);
          next := next + 1;
          mutex := mutex + 1;
          assert i == FirstEmpty(old(clients[..]));
          return;
        }
        i := i + 1;
      }
      assert i == FirstEmpty(old(clients[..]));
      i := -1;
    }

    method DeleteClient(i: nat)
      requires i < clients.Length
      modifies clients
      ensures clients[..] == old(clients[..])[i := Delete(old(clients[i]))]
    {
      clients[i] := clients[i].(phase := Empty);
    }

    // on_client_message in state init; taken says that another slot has the nickname.
    method OnNickname(i: nat, taken: bool)
      requires Enabled(View(), Nickname(i, taken))
      modifies clients
      ensures View() == Next(old(View()), Nickname(i, taken))
    {
      if taken {
        DeleteClient(i);
      } else {
        clients[i] := clients[i].(phase := Ready);
      }
    }

    // on_client_message with msg_ping in state ready.
    method OnPing(i: nat)
      requires Enabled(View(), Ping(i))
      modifies clients
      ensures View() == Next(old(View()), Ping(i))
    {
      clients[i] := clients[i].(responding := true);
    }

    method OnQuit(i: nat)
      requires Enabled(View(), Quit(i))
      modifies clients
      ensures View() == Next(old(View()), Quit(i))
    {
      DeleteClient(i);
    }

    // One turn of the ping thread's loop.
    method PingRound()
      requires Enabled(View(), Round)
      modifies this`mutex, clients
      ensures View() == Next(old(View()), Round)
    {
      mutex := mutex - 1;
      for i := 0 to clients.Length
        invariant forall j :: 0 <= j < i ==> clients[j] == Probe(old(clients[j]))
        invariant forall j :: i <= j < clients.Length ==> clients[j] == old(clients[j])
        invariant mutex == old(mutex) - 1
      {
        if clients[i].phase != Empty {
          if clients[i].responding {
            clients[i] := clients[i].(responding := false);
          } else {
            DeleteClient(i);
          }
        }
      }
      mutex := mutex + 1;
      assert clients[..] == Probed(old(clients[..]));
    }

    // Any sequence of messages, connections and rounds; msg_tall, msg_list and msg_tone
    // leave the table alone.
    method Run(ls: seq<Label>)
      requires Schedule(View(), ls)
      modifies this, clients
      ensures View() == After(old(View()), ls)
      decreases |ls|
    {
      if ls != [] {
        match ls[0] {
          case Accept => var i := NewClient();
          case Nickname(i, taken) => OnNickname(i, taken);
          case Ping(i) => OnPing(i);
          case Quit(i) => OnQuit(i);
          case Chat(i) =>
          case Round => PingRound();
        }
        Run(ls[1..]);
      }
    }
  }
}
