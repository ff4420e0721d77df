// A chat client as it runs: its outgoing message and its state updated in place.
// Source: lab6/zad1/client.c
module ChatClient {
  import opened Registry
  import opened MessageQueues

  datatype MessageType = INNIT | LIST | ALL | ONE | STOP

  // my_message: modify_message fills in the type, the receiver and the text; key and id stay.
  datatype Packet = Packet(kind: MessageType, key: int, id: int, other: nat, text: string)

  function AsRequest(m: Packet): Request {
    match m.kind
    case INNIT => Innit(m.key)
    case LIST => List(m.key, m.id)
    case ALL => ToAll(m.key, m.id, m.text)
    case ONE => ToOne(m.key, m.id, m.other, m.text)
    case STOP => Stop(m.key)
  }

  datatype Phase = Unsent | Awaiting | Running | AwaitingIndex | Exited | Rejected

  class Session {
    const kernel: Kernel
    const key: int
    var myMessage: Packet
    var phase: Phase

    ghost function View(): Client
      reads this
    {
      match phase
      case Unsent => Fresh
      case Awaiting => Asking
      case Running => Joined(myMessage.id)
      case AwaitingIndex => Listing(myMessage.id)
      case Exited => Stopped(myMessage.id)
      case Rejected => Refused
    }

    ghost predicate Agrees(s: State)
      reads this
    {
      key in s.clients && s.clients[key] == View() && myMessage.key == key
    }

    constructor (key: int, kernel: Kernel)
      ensures this.key == key && this.kernel == kernel && myMessage.key == key && View() == Fresh
    {
      this.key, this.kernel := key, kernel;
      myMessage, phase := Packet(INNIT, key, 0, 0, ""), Unsent;
    }

    method ModifyMessage(kind: MessageType, text: string, other: nat)
      modifies this`myMessage
      ensures myMessage == old(myMessage).(kind := kind, text := text, other := other)
    {
      myMessage := myMessage.(kind := kind, text := text, other := other);
    }

    // The INNIT handshake up to the wait for its reply.
    method Connect(ghost s: State)
      requires Agrees(s) && kernel.Agrees(s) && Enabled(s, Join(key))
      modifies this, kernel
      ensures Agrees(Next(s, Join(key))) && kernel.Agrees(Next(s, Join(key)))
    {
      ModifyMessage(INNIT, "Innit command", 0);
      kernel.Post(AsRequest(myMessage));
      phase := Awaiting;
    }

    // msgrcv and handle_message; the reply to INNIT also brings the client's number.
    method Receive(ghost s: State)
      requires Agrees(s) && kernel.Agrees(s) && Enabled(s, Read(key))
      modifies this, kernel
      ensures Agrees(Next(s, Read(key))) && kernel.Agrees(Next(s, Read(key)))
    {
      var m := kernel.MsgRcv(key, phase == AwaitingIndex);
      if m.Failure? {
        kernel.Remove(key);
        phase := Rejected;
      } else {
        if phase == Awaiting {
          myMessage := myMessage.(id := if m.Succes? then m.id else m.from);
        }
        phase := Running;
      }
    }

    method RequestIndex(ghost s: State)
      requires Agrees(s) && kernel.Agrees(s) && Enabled(s, AskIndex(key))
      modifies this, kernel
      ensures Agrees(Next(s, AskIndex(key))) && kernel.Agrees(Next(s, AskIndex(key)))
    {
      ModifyMessage(LIST, "LIST REQUEST", 0);
      kernel.Post(AsRequest(myMessage));
      phase := AwaitingIndex;
    }

    method SendToAll(text: string, ghost s: State)
      requires Agrees(s) && kernel.Agrees(s) && Enabled(s, Say(key, text))
      modifies this, kernel
      ensures Agrees(Next(s, Say(key, text))) && kernel.Agrees(Next(s, Say(key, text)))
    {
      ModifyMessage(ALL, text, 0);
      kernel.Post(AsRequest(myMessage));
    }

    method SendToOne(other: nat, text: string, ghost s: State)
      requires Agrees(s) && kernel.Agrees(s) && Enabled(s, Tell(key, other, text))
      modifies this, kernel
      ensures Agrees(Next(s, Tell(key, other, text))) && kernel.Agrees(Next(s, Tell(key, other, text)))
    {
      ModifyMessage(ONE, text, other);
      kernel.Post(AsRequest(myMessage));
    }

    // handle_stop_command, end_work
    method HandleStopCommand(ghost s: State)
      requires Agrees(s) && kernel.Agrees(s) && Enabled(s, Leave(key))
      modifies this, kernel
      ensures Agrees(Next(s, Leave(key))) && kernel.Agrees(Next(s, Leave(key)))
    {
      ModifyMessage(STOP, "Stop command!", 0);
      kernel.Post(AsRequest(myMessage));
      kernel.Remove(key);
      phase := Exited;
    }

    // Any step of this client.
    method Act(l: Label, ghost s: State)
      requires Agrees(s) && kernel.Agrees(s) && Enabled(s, l) && l != Serve && l.k == key
      modifies this, kernel
      ensures Agrees(Next(s, l)) && kernel.Agrees(Next(s, l))
    {
      match l {
        case Join(_) => Connect(s);
        case Read(_) => Receive(s);
        case AskIndex(_) => RequestIndex(s);
        case Say(_, text) => SendToAll(text, s);
        case Tell(_, other, text) => SendToOne(other, text, s);
        case Leave(_) => HandleStopCommand(s);
      }
    }
  }
}
