// The chat server as it runs: its table and counter updated in place.
// Source: lab6/zad1/server.c
module ChatServer {
  import opened Registry
  import opened MessageQueues

  class Server {
    const kernel: Kernel
    const queues: array<int>
    var connected: int
    var exited: bool

    ghost predicate Agrees(s: State)
      reads this, queues
    {
      queues[..] == s.slots && connected == s.connected && exited == s.crashed
    }

    constructor (maxClients: nat, kernel: Kernel)
      ensures this.kernel == kernel && fresh(queues)
      ensures connected == 0 && !exited && queues[..] == seq(maxClients, i => FREE)
    {
      this.kernel := kernel;
      queues := new int[maxClients](i => FREE);
      connected, exited := 0, false;
      new;
      assert queues[..] == seq(maxClients, i => FREE);
    }

    method HandleNewConnection(key: int, ghost s: State)
      requires Agrees(s) && kernel.Agrees(s)
      modifies this`connected, kernel`mail, queues
      ensures Agrees(HandleInnit(s, key)) && kernel.Agrees(HandleInnit(s, key))
    {
      if connected == queues.Length {
        var sent := kernel.MsgSnd(key, Failure, s);
        return;
      }
      connected := connected + 1;
      var id := 0;
      var i := 0;
      while i < queues.Length
        invariant i <= queues.Length && queues[..] == s.slots && id == 0
        invariant forall j :: 0 <= j < i ==> queues[j] != FREE
        invariant connected == s.connected + 1 && exited == s.crashed && kernel.Agrees(s)
      {
        if queues[i] == FREE {
          queues[i] := key;
          id := i;
          break;
        }
        i := i + 1;
      }
      assert i == FirstFree(s.slots);
      var sent := kernel.MsgSnd(key, Succes(id), s.(connected := s.connected + 1, slots := Enter(s.slots, key)));
    }

    method HandleSendToAll(id: int, text: string, ghost s: State)
      requires Agrees(s) && kernel.Agrees(s) && !exited
      modifies kernel`mail, this`exited
      ensures Agrees(HandleToAll(s, id, text, 0)) && kernel.Agrees(HandleToAll(s, id, text, 0))
    {
      ghost var t := s;
      var i := 0;
      while i < queues.Length
        invariant i <= queues.Length && Agrees(t) && kernel.Agrees(t) && !exited && queues[..] == s.slots
        invariant HandleToAll(t, id, text, i) == HandleToAll(s, id, text, 0)
      {
        if queues[i] != FREE && i != id {
          var ok := kernel.MsgSnd(queues[i], NewMessage(id, Text(text)), t);
          if !ok {
            exited := true;
            return;
          }
          t := Send(t, queues[i], NewMessage(id, Text(text)));
        }
        i := i + 1;
      }
    }

    method HandleSendToOne(id: int, other: nat, text: string, ghost s: State)
      requires Agrees(s) && kernel.Agrees(s) && other < queues.Length
      modifies kernel`mail
      ensures Agrees(HandleToOne(s, id, other, text)) && kernel.Agrees(HandleToOne(s, id, other, text))
    {
      if queues[other] == FREE {
        return;
      }
      var ok := kernel.MsgSnd(queues[other], NewMessage(id, Text(text)), s);
    }

    method HandleListCommand(key: int, id: int, ghost s: State)
      requires Agrees(s) && kernel.Agrees(s)
      modifies kernel`mail, this`exited
      ensures Agrees(HandleList(s, key, id)) && kernel.Agrees(HandleList(s, key, id))
    {
      var entries: seq<(int, int)> := [];
      for i := 0 to queues.Length
        invariant Agrees(s) && kernel.Agrees(s)
        invariant entries + Entries(s.slots, i) == Entries(s.slots, 0)
      {
        if queues[i] != FREE {
          entries := entries + [(i, queues[i])];
        }
      }
      assert entries == Entries(s.slots, 0);
      var ok := kernel.MsgSnd(key, NewMessage(id, Index(entries)), s);
      if !ok {
        exited := true;
      }
    }

    method HandleStopRequest(key: int, ghost s: State)
      requires Agrees(s) && kernel.Agrees(s)
      modifies this`connected, queues
      ensures Agrees(HandleStop(s, key)) && kernel.Agrees(HandleStop(s, key))
    {
      connected := connected - 1;
      for i := 0 to queues.Length
        invariant connected == s.connected - 1 && exited == s.crashed
        invariant forall j :: 0 <= j < i ==> queues[j] == Erase(s.slots, key)[j]
        invariant forall j :: i <= j < queues.Length ==> queues[j] == s.slots[j]
      {
        if queues[i] == key {
          queues[i] := FREE;
        }
      }
      assert queues[..] == Erase(s.slots, key);
    }

    // One turn of the dispatch loop.
    method Dispatch(ghost s: State)
      requires Agrees(s) && kernel.Agrees(s) && Enabled(s, Serve)
      requires s.requests[0].ToOne? ==> s.requests[0].other < queues.Length
      modifies this, kernel, queues
      ensures Agrees(Next(s, Serve)) && kernel.Agrees(Next(s, Serve))
    {
      var r := kernel.Take();
      ghost var t := s.(requests := s.requests[1..]);
      match r {
        case Innit(key) => HandleNewConnection(key, t);
        case List(key, id) => HandleListCommand(key, id, t);
        case ToAll(_, id, text) => HandleSendToAll(id, text, t);
        case ToOne(_, id, other, text) => HandleSendToOne(id, other, text, t);
        case Stop(key) => HandleStopRequest(key, t);
      }
    }
  }
}
