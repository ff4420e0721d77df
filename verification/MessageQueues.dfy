// The System V message queues that the chat's processes share.
// Source: lab6/zad1/server.c, lab6/zad1/client.c
module MessageQueues {
  import opened Registry

  class Kernel {
    // The server's queue, the clients' queues, and those that their owners have removed.
    var requests: seq<Request>
    var mail: map<int, seq<Message>>
    var removed: set<int>

    ghost predicate Agrees(s: State)
      reads this
    {
      && requests == s.requests && mail == s.inbox && s.inbox.Keys == s.clients.Keys
      && removed == set k | k in s.clients && (s.clients[k].Stopped? || s.clients[k].Refused?)
    }

    constructor (keys: set<int>)
      ensures requests == [] && removed == {} && mail.Keys == keys && forall k :: k in keys ==> mail[k] == []
    {
      requests, removed, mail := [], {}, map k | k in keys :: [];
    }

    // msgsnd to the server.
    method Post(r: Request)
      modifies this`requests
      ensures requests == old(requests) + [r]
    {
      requests := requests + [r];
    }

    // The server's msgrcv.
    method Take() returns (r: Request)
      requires requests != []
      modifies this`requests
      ensures [r] + requests == old(requests)
    {
      r := requests[0];
      requests := requests[1..];
    }

    // msgsnd to a client, which fails when the queue has been removed.
    method MsgSnd(k: int, m: Message, ghost s: State) returns (ok: bool)
      requires Agrees(s)
      modifies this`mail
      ensures ok == HasQueue(s, k) && Agrees(Send(s, k, m))
    {
      ok := k in mail && k !in removed;
      if ok {
        mail := mail[k := mail[k] + [m]];
      }
    }

    // A client's msgrcv, of the first message or of the first of type NEW_MESSAGE.
    method MsgRcv(k: int, chatOnly: bool) returns (m: Message)
      requires k in mail && (if chatOnly then FirstChat(mail[k]) else 0) < |mail[k]|
      modifies this`mail
      ensures var box := old(mail[k]); var i := if chatOnly then FirstChat(box) else 0;
              m == box[i] && mail == old(mail)[k := box[..i] + box[i + 1..]]
    {
      var box := mail[k];
      var i := 0;
      if chatOnly {
        i := FirstChat(box);
      }
      m := box[i];
      mail := mail[k := box[..i] + box[i + 1..]];
    }

    // msgctl with IPC_RMID.
    method Remove(k: int)
      modifies this`removed
      ensures removed == old(removed) + {k}
    {
      removed := removed + {k};
    }
  }
}
