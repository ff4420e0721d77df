// The whole chat as it runs: the server, its clients and the queues between them.
// Source: lab6/zad1/server.c, lab6/zad1/client.c
module Chat {
  import opened Registry
  import opened MessageQueues
  import opened ChatServer
  import opened ChatClient

  // A private message that is under way names a slot of the table.
  ghost predicate Addressed(q: seq<Request>, slots: nat) {
    forall i :: 0 <= i < |q| && q[i].ToOne? ==> q[i].other < slots
  }

  lemma EmptyQueues(maxClients: nat, s: State, mail: map<int, seq<Message>>)
    requires Init(maxClients, s) && mail.Keys == s.clients.Keys && forall k :: k in mail ==> mail[k] == []
    ensures mail == s.inbox
    ensures {} == set k | k in s.clients && (s.clients[k].Stopped? || s.clients[k].Refused?)
  {
    forall k | k in mail
      ensures k in s.clients && s.clients[k] == Fresh && mail[k] == s.inbox[k]
    {
      assert k in s.clients.Keys;
    }
    assert mail == s.inbox;
  }

  // A client's step touches neither the table nor the other clients.
  lemma ClientKeeps(s: State, l: Label)
    requires Enabled(s, l) && l != Serve && Addressed(s.requests, |s.slots|)
    ensures var t := Next(s, l);
            && t.slots == s.slots && t.connected == s.connected && t.crashed == s.crashed
            && t.clients.Keys == s.clients.Keys && (forall k :: k in s.clients && k != l.k ==> t.clients[k] == s.clients[k])
            && Addressed(t.requests, |t.slots|)
  {
  }

  class Program {
    const kernel: Kernel
    const server: Server
    const sessions: map<int, Session>

    ghost predicate Valid() {
      server.kernel == kernel && forall k :: k in sessions ==> sessions[k].key == k && sessions[k].kernel == kernel
    }

    ghost predicate Agrees(s: State)
      reads kernel, server, server.queues, sessions.Values
    {
      && Valid() && kernel.Agrees(s) && server.Agrees(s)
      && s.clients.Keys == sessions.Keys && (forall k :: k in sessions ==> sessions[k].Agrees(s))
      && Addressed(s.requests, |s.slots|)
    }

    constructor (maxClients: nat, keys: seq<int>, ghost s: State)
      requires Init(maxClients, s) && s.clients.Keys == set k | k in keys
      ensures Agrees(s)
      ensures fresh(kernel) && fresh(server) && fresh(server.queues) && forall k :: k in sessions ==> fresh(sessions[k])
    {
      var queues := new Kernel(set k | k in keys);
      var running := new Server(maxClients, queues);
      EmptyQueues(maxClients, s, queues.mail);
      assert queues.Agrees(s) && running.Agrees(s);
      var started: map<int, Session> := map[];
      for i := 0 to |keys|
        invariant started.Keys == set k | k in keys[..i]
        invariant forall k :: k in started ==> started[k].key == k && started[k].kernel == queues
        invariant forall k :: k in started ==> fresh(started[k]) && started[k].Agrees(s)
        invariant queues.Agrees(s) && running.Agrees(s)
      {
        var client := new Session(keys[i], queues);
        started := started[keys[i] := client];
        assert keys[..i + 1] == keys[..i] + [keys[i]];
      }
      assert keys[..|keys|] == keys;
      kernel, server, sessions := queues, running, started;
    }

    // One step of one process.
    method Step(l: Label, ghost s: State)
      requires Agrees(s) && Enabled(s, l)
      modifies kernel, server, server.queues, sessions.Values
      ensures Agrees(Next(s, l))
    {
      if l == Label.Serve {
        this.Serve(s);
      } else {
        ClientStep(l, s);
      }
    }

    method ClientStep(l: Label, ghost s: State)
      requires Agrees(s) && Enabled(s, l) && l != Label.Serve
      modifies kernel, sessions.Values
      ensures Agrees(Next(s, l))
    {
      ClientKeeps(s, l);
      sessions[l.k].Act(l, s);
    }

    method Serve(ghost s: State)
      requires Agrees(s) && Enabled(s, Label.Serve)
      modifies kernel, server, server.queues
      ensures Agrees(Next(s, Label.Serve))
    {
      HandleKeeps(s.(requests := s.requests[1..]), s.requests[0]);
      server.Dispatch(s);
    }

    // Any interleaving of the server and its clients.
    method Run(ls: seq<Label>, ghost s: State)
      requires Agrees(s) && Schedule(s, ls)
      modifies kernel, server, server.queues, sessions.Values
      ensures Agrees(After(s, ls))
      decreases |ls|
    {
      if ls != [] {
        Step(ls[0], s);
        Run(ls[1..], Next(s, ls[0]));
      }
    }
  }
}
