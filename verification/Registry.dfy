// The System V chat: clients join, talk and leave through one server queue; the server
// keeps a table of the clients' queue keys.
// Source: lab6/zad1/server.c, lab6/zad1/client.c
module Registry {

  // ---------------------------------------------------------------- the table

  const FREE: int := -1

  // Occupied entries of the table.
  function Occupied(slots: seq<int>): nat {
    if slots == [] then 0 else (if slots[0] == FREE then 0 else 1) + Occupied(slots[1..])
  }

  // The first free slot, or the length of the table.
  function FirstFree(slots: seq<int>): (i: nat)
    ensures i <= |slots| && (i < |slots| ==> slots[i] == FREE) && forall j :: 0 <= j < i ==> slots[j] != FREE
  {
    if slots == [] || slots[0] == FREE then 0 else 1 + FirstFree(slots[1..])
  }

  function Enter(slots: seq<int>, key: int): seq<int> {
    var i := FirstFree(slots);
    if i < |slots| then slots[i := key] else slots
  }

  function Erase(slots: seq<int>, key: int): (s: seq<int>)
    ensures |s| == |slots| && forall i :: 0 <= i < |s| ==> s[i] == if slots[i] == key then FREE else slots[i]
  {
    seq(|slots|, i requires 0 <= i < |slots| => if slots[i] == key then FREE else slots[i])
  }

  lemma {:induction false} OccupiedUpdate(slots: seq<int>, i: nat, x: int)
    requires i < |slots|
    ensures Occupied(slots[i := x]) + (if slots[i] == FREE then 0 else 1) == Occupied(slots) + if x == FREE then 0 else 1
  {
    if i > 0 {
      assert slots[i := x][1..] == slots[1..][i - 1 := x];
      OccupiedUpdate(slots[1..], i - 1, x);
    } else {
      assert slots[i := x][1..] == slots[1..];
    }
  }

  // The table is full exactly when it has no free slot.
  lemma {:induction false} OccupiedBound(slots: seq<int>)
    ensures Occupied(slots) <= |slots|
    ensures Occupied(slots) == |slots| <==> FirstFree(slots) == |slots|
  {
    if slots != [] {
      OccupiedBound(slots[1..]);
    }
  }

  ghost predicate Distinct(slots: seq<int>) {
    forall i, j :: 0 <= i < j < |slots| && slots[i] == slots[j] ==> slots[i] == FREE
  }

  // How often a key is registered.
  function Registered(slots: seq<int>, key: int): nat {
    if slots == [] then 0 else (if slots[0] == key then 1 else 0) + Registered(slots[1..], key)
  }

  lemma {:induction false} EraseCount(slots: seq<int>, key: int)
    requires key != FREE
    ensures Occupied(Erase(slots, key)) + Registered(slots, key) == Occupied(slots)
  {
    if slots != [] {
      assert Erase(slots, key)[1..] == Erase(slots[1..], key);
      EraseCount(slots[1..], key);
    }
  }

  lemma {:induction false} RegisteredOnce(slots: seq<int>, key: int, c: nat)
    requires key != FREE && Distinct(slots) && c < |slots| && slots[c] == key
    ensures Registered(slots, key) == 1
  {
    if c > 0 {
      RegisteredOnce(slots[1..], key, c - 1);
    } else {
      NotRegistered(slots[1..], key);
    }
  }

  lemma {:induction false} NotRegistered(slots: seq<int>, key: int)
    requires key !in slots
    ensures Registered(slots, key) == 0
  {
    if slots != [] {
      NotRegistered(slots[1..], key);
    }
  }

  // handle_stop keeps the counter true exactly when the key it erases is registered once.
  lemma StopKeepsCount(slots: seq<int>, key: int, connected: int)
    requires key != FREE && connected == Occupied(slots)
    ensures connected - 1 == Occupied(Erase(slots, key)) <==> Registered(slots, key) == 1
  {
    EraseCount(slots, key);
  }

  // ---------------------------------------------------------------- the protocol

  datatype Request =
    | Innit(key: int)
    | List(key: int, id: int)
    | ToAll(key: int, id: int, text: string)
    | ToOne(key: int, id: int, other: nat, text: string)
    | Stop(key: int)

  // The text of a chat message, or the slots and keys that a LIST prints.
  datatype Body = Text(text: string) | Index(entries: seq<(int, int)>)

  datatype Message = Succes(id: int) | Failure | NewMessage(from: int, body: Body)

  // Joined(id): SUCCES has been read. Listing(id): LIST has been sent, its answer not read.
  // A client that has stopped or was refused has exited and removed its queue.
  datatype Client = Fresh | Asking | Joined(id: int) | Listing(id: int) | Stopped(id: int) | Refused

  // A client is named by the key of its own queue.
  datatype State = State(
    slots: seq<int>, connected: int, crashed: bool,
    requests: seq<Request>,
    clients: map<int, Client>, inbox: map<int, seq<Message>>)

  datatype Label =
    | Join(k: int)                              // send INNIT
    | Read(k: int)                              // receive a message from the own queue
    | AskIndex(k: int)                          // LIST
    | Say(k: int, text: string)                 // 2ALL
    | Tell(k: int, other: nat, text: string)    // 2ONE
    | Leave(k: int)                             // send STOP and exit, by command or by SIGINT
    | Serve                                     // the server handles the first request

  // maxClients is MAX_CLIENTS; the keys are the identifiers of private queues, not negative.
  ghost predicate Init(maxClients: nat, s: State) {
    && |s.slots| == maxClients && (forall i :: 0 <= i < maxClients ==> s.slots[i] == FREE)
    && s.connected == 0 && !s.crashed && s.requests == []
    && s.inbox.Keys == s.clients.Keys
    && forall k :: k in s.clients ==> k >= 0 && s.clients[k] == Fresh && s.inbox[k] == []
  }

  // A client in its command loop, or waiting for the answer to LIST.
  predicate Inside(c: Client) { c.Joined? || c.Listing? }

  // The first chat message of a queue, or the length of the queue.
  function FirstChat(inbox: seq<Message>): (i: nat)
    ensures i <= |inbox| && (i < |inbox| ==> inbox[i].NewMessage?) && forall j :: 0 <= j < i ==> !inbox[j].NewMessage?
  {
    if inbox == [] || inbox[0].NewMessage? then 0 else 1 + FirstChat(inbox[1..])
  }

  // msgrcv takes the first message, or the first of type NEW_MESSAGE after a LIST.
  function Incoming(c: Client, inbox: seq<Message>): nat {
    if c.Listing? then FirstChat(inbox) else 0
  }

  predicate Enabled(s: State, l: Label) {
    match l
    case Join(k) => k in s.clients && s.clients[k].Fresh?
    case Read(k) =>
      k in s.clients && (s.clients[k].Asking? || Inside(s.clients[k])) && k in s.inbox
      && Incoming(s.clients[k], s.inbox[k]) < |s.inbox[k]|
    case AskIndex(k) => k in s.clients && s.clients[k].Joined?
    case Say(k, _) => k in s.clients && s.clients[k].Joined?
    case Tell(k, other, _) => k in s.clients && s.clients[k].Joined? && other < |s.slots|
    case Leave(k) => k in s.clients && Inside(s.clients[k])
    case Serve => !s.crashed && s.requests != []
  }

  // msgsnd to the queue of a client that has exited fails.
  predicate HasQueue(s: State, k: int) {
    k in s.clients && k in s.inbox && !s.clients[k].Stopped? && !s.clients[k].Refused?
  }

  function Send(s: State, k: int, m: Message): State {
    if HasQueue(s, k) then s.(inbox := s.inbox[k := s.inbox[k] + [m]]) else s
  }

  // What a client does with a message: the first one after INNIT decides, and a FAILURE
  // ends it at any time.
  function OnMessage(c: Client, m: Message): Client {
    match c
    case Asking => (
      match m
      case Succes(id) => Joined(id)
      case Failure => Refused
      case NewMessage(from, _) => Joined(from))
    case Joined(_) => if m.Failure? then Refused else c
    case Listing(id) => Joined(id)
    case _ => c
  }

  // handle_new_connection; with no free slot the reply would carry the request's own id.
  function HandleInnit(s: State, key: int): State {
    if s.connected == |s.slots| then Send(s, key, Failure)
    else
      var i := FirstFree(s.slots);
      var id := if i < |s.slots| then i else 0;
      Send(s.(connected := s.connected + 1, slots := Enter(s.slots, key)), key, Succes(id))
  }

  // handle_send_to_all from slot i on; a failing msgsnd ends the server.
  function HandleToAll(s: State, id: int, text: string, i: nat): State
    decreases |s.slots| - i
  {
    if i >= |s.slots| then s
    else if s.slots[i] != FREE && i != id then
      if HasQueue(s, s.slots[i]) then HandleToAll(Send(s, s.slots[i], NewMessage(id, Text(text))), id, text, i + 1)
      else s.(crashed := true)
    else HandleToAll(s, id, text, i + 1)
  }

  function HandleToOne(s: State, id: int, other: nat, text: string): State {
    if other < |s.slots| && s.slots[other] != FREE then Send(s, s.slots[other], NewMessage(id, Text(text))) else s
  }

  // The occupied slots from i on, each with its key.
  function Entries(slots: seq<int>, i: nat): seq<(int, int)>
    decreases |slots| - i
  {
    if i >= |slots| then []
    else (if slots[i] == FREE then [] else [(i, slots[i])]) + Entries(slots, i + 1)
  }

  // handle_list_command; a failing msgsnd ends the server.
  function HandleList(s: State, key: int, id: int): State {
    if HasQueue(s, key) then Send(s, key, NewMessage(id, Index(Entries(s.slots, 0)))) else s.(crashed := true)
  }

  function HandleStop(s: State, key: int): State {
    s.(connected := s.connected - 1, slots := Erase(s.slots, key))
  }

  function Handle(s: State, r: Request): State {
    match r
    case Innit(key) => HandleInnit(s, key)
    case List(key, id) => HandleList(s, key, id)
    case ToAll(_, id, text) => HandleToAll(s, id, text, 0)
    case ToOne(_, id, other, text) => HandleToOne(s, id, other, text)
    case Stop(key) => HandleStop(s, key)
  }

  function Ask(s: State, r: Request): State { s.(requests := s.requests + [r]) }

  function Next(s: State, l: Label): State
    requires Enabled(s, l)
  {
    match l
    case Join(k) => Ask(s.(clients := s.clients[k := Asking]), Innit(k))
    case Read(k) =>
      var c, box := s.clients[k], s.inbox[k];
      var i := Incoming(c, box);
      s.(clients := s.clients[k := OnMessage(c, box[i])], inbox := s.inbox[k := box[..i] + box[i + 1..]])
    case AskIndex(k) => Ask(s.(clients := s.clients[k := Listing(s.clients[k].id)]), List(k, s.clients[k].id))
    case Say(k, text) => Ask(s, ToAll(k, s.clients[k].id, text))
    case Tell(k, other, text) => Ask(s, ToOne(k, s.clients[k].id, other, text))
    case Leave(k) => Ask(s.(clients := s.clients[k := Stopped(s.clients[k].id)]), Stop(k))
    case Serve => Handle(s.(requests := s.requests[1..]), s.requests[0])
  }

  ghost predicate Schedule(s: State, ls: seq<Label>)
    decreases |ls|
  {
    ls == [] || (Enabled(s, ls[0]) && Schedule(Next(s, ls[0]), ls[1..]))
  }

  ghost function After(s: State, ls: seq<Label>): State
    requires Schedule(s, ls)
    decreases |ls|
  {
    if ls == [] then s else After(Next(s, ls[0]), ls[1..])
  }

  // ---------------------------------------------------------------- invariants

  function Innits(q: seq<Request>, k: int): nat {
    if q == [] then 0 else (if q[0] == Innit(k) then 1 else 0) + Innits(q[1..], k)
  }

  function Stops(q: seq<Request>, k: int): nat {
    if q == [] then 0 else (if q[0] == Stop(k) then 1 else 0) + Stops(q[1..], k)
  }

  lemma {:induction false} CountAppend(q: seq<Request>, r: Request, k: int)
    ensures Innits(q + [r], k) == Innits(q, k) + if r == Innit(k) then 1 else 0
    ensures Stops(q + [r], k) == Stops(q, k) + if r == Stop(k) then 1 else 0
  {
    if q == [] {
      assert q + [r] == [r];
    } else {
      assert (q + [r])[1..] == q[1..] + [r];
      CountAppend(q[1..], r, k);
    }
  }

  ghost predicate Holds(slots: seq<int>, id: int, k: int) {
    0 <= id < |slots| && slots[id] == k
  }

  // The first message after the INNIT has been handled is the server's answer to it.
  ghost predicate ReplyOk(slots: seq<int>, k: int, inbox: seq<Message>) {
    inbox != [] && (
      match inbox[0]
      case Succes(id) => Holds(slots, id, k)
      case Failure => k !in slots
      case NewMessage(_, _) => false)
    && Chatter(inbox[1..])
  }

  ghost predicate Chatter(inbox: seq<Message>) {
    forall i :: 0 <= i < |inbox| ==> inbox[i].NewMessage?
  }

  // A client against the table, its own queue and the requests under way.
  ghost predicate ClientOk(slots: seq<int>, c: Client, k: int, innits: nat, stops: nat, inbox: seq<Message>) {
    match c
    case Fresh => innits == 0 && stops == 0 && k !in slots && inbox == []
    case Asking =>
      stops == 0 && (if innits > 0 then innits == 1 && k !in slots && inbox == [] else ReplyOk(slots, k, inbox))
    case Joined(id) => innits == 0 && stops == 0 && Holds(slots, id, k) && Chatter(inbox)
    case Listing(id) => innits == 0 && stops == 0 && Holds(slots, id, k) && Chatter(inbox)
    case Stopped(id) => innits == 0 && (if stops > 0 then stops == 1 && Holds(slots, id, k) else k !in slots)
    case Refused => innits == 0 && stops == 0 && k !in slots
  }

  predicate Talk(r: Request) { r.ToAll? || r.ToOne? || r.List? }

  // A request speaks for the client that sent it, with the identifier it holds; a client's
  // STOP is behind everything else it has said.
  ghost predicate RequestsOk(q: seq<Request>, clients: map<int, Client>)
    decreases |q|
  {
    q == [] || (
      && q[0].key in clients
      && (Talk(q[0]) ==>
            match clients[q[0].key]
            case Joined(id) => id == q[0].id
            case Listing(id) => id == q[0].id
            case Stopped(id) => id == q[0].id && Stops(q, q[0].key) > 0
            case _ => false)
      && RequestsOk(q[1..], clients))
  }

  ghost predicate TableOk(s: State) {
    && s.connected == Occupied(s.slots)
    && Distinct(s.slots)
    && s.inbox.Keys == s.clients.Keys
    && (forall k :: k in s.clients ==> k >= 0)
    && (forall i :: 0 <= i < |s.slots| ==> s.slots[i] == FREE || s.slots[i] in s.clients)
  }

  ghost predicate Inv(s: State) {
    && TableOk(s)
    && RequestsOk(s.requests, s.clients)
    && forall k :: k in s.clients ==> ClientOk(s.slots, s.clients[k], k, Innits(s.requests, k), Stops(s.requests, k), s.inbox[k])
  }

  lemma InitInv(maxClients: nat, s: State)
    requires Init(maxClients, s)
    ensures Inv(s)
  {
    AllFree(s.slots);
  }

  lemma {:induction false} AllFree(slots: seq<int>)
    requires forall i :: 0 <= i < |slots| ==> slots[i] == FREE
    ensures Occupied(slots) == 0
  {
    if slots != [] {
      AllFree(slots[1..]);
    }
  }

  // ---- requests

  // Nothing under way speaks for a client that has not joined yet; one that has joined may
  // start or end a LIST.
  lemma {:induction false} ClientChange(q: seq<Request>, clients: map<int, Client>, k: int, c: Client)
    requires RequestsOk(q, clients) && k in clients && !clients[k].Stopped?
    requires Inside(clients[k]) ==> Inside(c) && c.id == clients[k].id
    ensures RequestsOk(q, clients[k := c])
    decreases |q|
  {
    if q != [] {
      ClientChange(q[1..], clients, k, c);
    }
  }

  lemma {:induction false} RequestsAppend(q: seq<Request>, r: Request, clients: map<int, Client>)
    requires RequestsOk(q, clients) && RequestsOk([r], clients)
    ensures RequestsOk(q + [r], clients)
    decreases |q|
  {
    if q == [] {
      assert q + [r] == [r];
    } else {
      assert (q + [r])[1..] == q[1..] + [r];
      CountAppend(q, r, q[0].key);
      RequestsAppend(q[1..], r, clients);
    }
  }

  lemma {:induction false} RequestsLeave(q: seq<Request>, clients: map<int, Client>, k: int)
    requires RequestsOk(q, clients) && k in clients && Inside(clients[k])
    ensures RequestsOk(q + [Stop(k)], clients[k := Stopped(clients[k].id)])
    decreases |q|
  {
    if q == [] {
      assert q + [Stop(k)] == [Stop(k)];
    } else {
      assert (q + [Stop(k)])[1..] == q[1..] + [Stop(k)];
      CountAppend(q, Stop(k), k);
      CountAppend(q, Stop(k), q[0].key);
      RequestsLeave(q[1..], clients, k);
    }
  }

  // ---- the clients' steps

  lemma CountsAfter(s: State, r: Request)
    ensures forall k :: Innits(Ask(s, r).requests, k) == Innits(s.requests, k) + if r == Innit(k) then 1 else 0
    ensures forall k :: Stops(Ask(s, r).requests, k) == Stops(s.requests, k) + if r == Stop(k) then 1 else 0
  {
    forall k
      ensures Innits(s.requests + [r], k) == Innits(s.requests, k) + if r == Innit(k) then 1 else 0
      ensures Stops(s.requests + [r], k) == Stops(s.requests, k) + if r == Stop(k) then 1 else 0
    {
      CountAppend(s.requests, r, k);
    }
  }

  lemma JoinInv(s: State, k: int)
    requires Inv(s) && Enabled(s, Join(k))
    ensures Inv(Next(s, Join(k)))
  {
    ClientChange(s.requests, s.clients, k, Asking);
    RequestsAppend(s.requests, Innit(k), s.clients[k := Asking]);
    CountsAfter(s, Innit(k));
  }

  lemma ReadInv(s: State, k: int)
    requires Inv(s) && Enabled(s, Read(k))
    ensures Inv(Next(s, Read(k)))
  {
    var t := Next(s, Read(k));
    assert ClientOk(s.slots, s.clients[k], k, Innits(s.requests, k), Stops(s.requests, k), s.inbox[k]);
    ReadOwn(s.slots, s.clients[k], k, Innits(s.requests, k), Stops(s.requests, k), s.inbox[k]);
    ClientChange(s.requests, s.clients, k, t.clients[k]);
    forall x | x in t.clients
      ensures ClientOk(t.slots, t.clients[x], x, Innits(t.requests, x), Stops(t.requests, x), t.inbox[x])
    {
      assert ClientOk(s.slots, s.clients[x], x, Innits(s.requests, x), Stops(s.requests, x), s.inbox[x]);
    }
  }

  // What reading does to the reader's own state.
  lemma ReadOwn(slots: seq<int>, c: Client, k: int, innits: nat, stops: nat, inbox: seq<Message>)
    requires ClientOk(slots, c, k, innits, stops, inbox) && (c.Asking? || Inside(c)) && Incoming(c, inbox) < |inbox|
    ensures var i := Incoming(c, inbox); var d := OnMessage(c, inbox[i]);
            && i == 0 && inbox[..i] + inbox[i + 1..] == inbox[1..]
            && ClientOk(slots, d, k, innits, stops, inbox[1..])
            && (Inside(c) ==> Inside(d) && d.id == c.id)
  {
  }

  lemma TalkInv(s: State, r: Request)
    requires Inv(s) && Talk(r)
    requires r.key in s.clients && Inside(s.clients[r.key]) && s.clients[r.key].id == r.id
    ensures Inv(Ask(s, r))
  {
    RequestsAppend(s.requests, r, s.clients);
    CountsAfter(s, r);
  }

  // A client that has joined starts to wait for the answer to LIST.
  lemma AskIndexInv(s: State, k: int)
    requires Inv(s) && Enabled(s, AskIndex(k))
    ensures Inv(Next(s, AskIndex(k)))
  {
    var t := s.(clients := s.clients[k := Listing(s.clients[k].id)]);
    ClientChange(s.requests, s.clients, k, t.clients[k]);
    forall x | x in t.clients
      ensures ClientOk(t.slots, t.clients[x], x, Innits(t.requests, x), Stops(t.requests, x), t.inbox[x])
    {
      assert ClientOk(s.slots, s.clients[x], x, Innits(s.requests, x), Stops(s.requests, x), s.inbox[x]);
    }
    TalkInv(t, List(k, t.clients[k].id));
  }

  lemma LeaveInv(s: State, k: int)
    requires Inv(s) && Enabled(s, Leave(k))
    ensures Inv(Next(s, Leave(k)))
  {
    var t := Next(s, Leave(k));
    RequestsLeave(s.requests, s.clients, k);
    CountsAfter(s, Stop(k));
    forall x | x in t.clients
      ensures ClientOk(t.slots, t.clients[x], x, Innits(t.requests, x), Stops(t.requests, x), t.inbox[x])
    {
      assert ClientOk(s.slots, s.clients[x], x, Innits(s.requests, x), Stops(s.requests, x), s.inbox[x]);
    }
  }

  // ---- the server's steps

  lemma RefuseInv(s: State, k: int)
    requires Inv(s) && Enabled(s, Serve) && s.requests[0] == Innit(k) && s.connected == |s.slots|
    ensures Inv(Next(s, Serve))
  {
    assert k in s.clients;
    assert ClientOk(s.slots, s.clients[k], k, Innits(s.requests, k), Stops(s.requests, k), s.inbox[k]);
  }

  lemma EnterTable(slots: seq<int>, k: int)
    requires Distinct(slots) && k >= 0 && k !in slots && Occupied(slots) < |slots|
    ensures var i, t := FirstFree(slots), Enter(slots, k);
            && i < |slots| && t == slots[i := k] && Distinct(t) && Occupied(t) == Occupied(slots) + 1
            && forall x :: x != FREE && x != k ==> (x in t <==> x in slots)
  {
    OccupiedBound(slots);
    var i, t := FirstFree(slots), Enter(slots, k);
    OccupiedUpdate(slots, i, k);
    forall x | x != FREE && x != k
      ensures x in t <==> x in slots
    {
      if x in slots {
        var j :| 0 <= j < |slots| && slots[j] == x;
        assert t[j] == x;
      }
      if x in t {
        var j :| 0 <= j < |t| && t[j] == x;
        assert slots[j] == x;
      }
    }
  }

  lemma AcceptInv(s: State, k: int)
    requires Inv(s) && Enabled(s, Serve) && s.requests[0] == Innit(k) && s.connected != |s.slots|
    ensures Inv(Next(s, Serve))
  {
    assert k in s.clients;
    assert ClientOk(s.slots, s.clients[k], k, Innits(s.requests, k), Stops(s.requests, k), s.inbox[k]);
    OccupiedBound(s.slots);
    EnterTable(s.slots, k);
    var t := Next(s, Serve);
    forall x | x in t.clients
      ensures ClientOk(t.slots, t.clients[x], x, Innits(t.requests, x), Stops(t.requests, x), t.inbox[x])
    {
      assert ClientOk(s.slots, s.clients[x], x, Innits(s.requests, x), Stops(s.requests, x), s.inbox[x]);
    }
  }

  lemma ServeInnit(s: State, k: int)
    requires Inv(s) && Enabled(s, Serve) && s.requests[0] == Innit(k)
    ensures Inv(Next(s, Serve))
  {
    if s.connected == |s.slots| {
      RefuseInv(s, k);
    } else {
      AcceptInv(s, k);
    }
  }

  lemma ServeStop(s: State, k: int)
    requires Inv(s) && Enabled(s, Serve) && s.requests[0] == Stop(k)
    ensures Inv(Next(s, Serve))
  {
    assert k in s.clients;
    assert ClientOk(s.slots, s.clients[k], k, Innits(s.requests, k), Stops(s.requests, k), s.inbox[k]);
    RegisteredOnce(s.slots, k, s.clients[k].id);
    EraseCount(s.slots, k);
  }

  ghost predicate Grows(before: seq<Message>, after: seq<Message>) {
    before <= after && Chatter(after[|before|..])
  }

  // Delivering chat messages to registered clients.
  ghost predicate Delivered(s: State, t: State) {
    && t.slots == s.slots && t.connected == s.connected && t.requests == s.requests && t.clients == s.clients
    && t.inbox.Keys == s.inbox.Keys
    && forall k :: k in s.inbox ==> Grows(s.inbox[k], t.inbox[k]) && (k !in s.slots ==> t.inbox[k] == s.inbox[k])
  }

  lemma {:induction false} ToAllDelivers(s: State, id: int, text: string, i: nat)
    ensures Delivered(s, HandleToAll(s, id, text, i))
    decreases |s.slots| - i
  {
    if i < |s.slots| {
      if s.slots[i] != FREE && i != id {
        if HasQueue(s, s.slots[i]) {
          ToAllDelivers(Send(s, s.slots[i], NewMessage(id, Text(text))), id, text, i + 1);
        }
      } else {
        ToAllDelivers(s, id, text, i + 1);
      }
    }
  }

  // The server's handlers touch neither the clients nor the requests still to come.
  lemma HandleKeeps(s: State, r: Request)
    ensures var t := Handle(s, r); t.clients == s.clients && t.requests == s.requests && |t.slots| == |s.slots|
  {
    if r.ToAll? {
      ToAllDelivers(s, r.id, r.text, 0);
    }
  }

  lemma DeliveredInv(s: State, t: State)
    requires Inv(s) && Delivered(s, t)
    ensures Inv(t)
  {
    forall k | k in t.clients
      ensures ClientOk(t.slots, t.clients[k], k, Innits(t.requests, k), Stops(t.requests, k), t.inbox[k])
    {
      assert ClientOk(s.slots, s.clients[k], k, Innits(s.requests, k), Stops(s.requests, k), s.inbox[k]);
    }
  }

  // Taking a chat message out of the server's queue.
  lemma TakeTalk(s: State)
    requires Inv(s) && Enabled(s, Serve) && Talk(s.requests[0])
    ensures Inv(s.(requests := s.requests[1..]))
  {
    var t := s.(requests := s.requests[1..]);
    forall k | k in t.clients
      ensures ClientOk(t.slots, t.clients[k], k, Innits(t.requests, k), Stops(t.requests, k), t.inbox[k])
    {
      assert ClientOk(s.slots, s.clients[k], k, Innits(s.requests, k), Stops(s.requests, k), s.inbox[k]);
    }
  }

  lemma ServeTalk(s: State)
    requires Inv(s) && Enabled(s, Serve) && Talk(s.requests[0])
    ensures Inv(Next(s, Serve))
  {
    var t := s.(requests := s.requests[1..]);
    var r := s.requests[0];
    TakeTalk(s);
    match r {
      case ToAll(_, id, text) => ToAllDelivers(t, id, text, 0);
      case ToOne(_, id, other, text) => ToOneDelivers(t, id, other, text);
      case List(key, id) =>
        SenderSlot(s);
        ListDelivers(t, key, id);
    }
    DeliveredInv(t, Next(s, Serve));
  }

  lemma ToOneDelivers(s: State, id: int, other: nat, text: string)
    ensures Delivered(s, HandleToOne(s, id, other, text))
  {
  }

  lemma ListDelivers(s: State, key: int, id: int)
    requires Holds(s.slots, id, key)
    ensures Delivered(s, HandleList(s, key, id))
  {
  }

  lemma StepInv(s: State, l: Label)
    requires Inv(s) && Enabled(s, l)
    ensures Inv(Next(s, l))
  {
    match l {
      case Join(k) => JoinInv(s, k);
      case Read(k) => ReadInv(s, k);
      case AskIndex(k) => AskIndexInv(s, k);
      case Say(k, text) => TalkInv(s, ToAll(k, s.clients[k].id, text));
      case Tell(k, other, text) => TalkInv(s, ToOne(k, s.clients[k].id, other, text));
      case Leave(k) => LeaveInv(s, k);
      case Serve =>
        match s.requests[0] {
          case Innit(k) => ServeInnit(s, k);
          case Stop(k) => ServeStop(s, k);
          case _ => ServeTalk(s);
        }
    }
  }

  lemma {:induction false} RunInv(s: State, ls: seq<Label>)
    requires Inv(s) && Schedule(s, ls)
    ensures Inv(After(s, ls))
    decreases |ls|
  {
    if ls != [] {
      StepInv(s, ls[0]);
      RunInv(Next(s, ls[0]), ls[1..]);
    }
  }

  // ---------------------------------------------------------------- what holds over whole runs

  // The counter is the number of occupied slots, so an accepted INNIT always finds one.
  lemma CounterIsTrue(maxClients: nat, s: State, ls: seq<Label>)
    requires Init(maxClients, s) && Schedule(s, ls)
    ensures var t := After(s, ls);
            && t.connected == Occupied(t.slots)
            && (t.connected == |t.slots| <==> forall i :: 0 <= i < |t.slots| ==> t.slots[i] != FREE)
            && (forall i, j :: 0 <= i < j < |t.slots| && t.slots[i] == t.slots[j] ==> t.slots[i] == FREE)
  {
    InitInv(maxClients, s);
    RunInv(s, ls);
    OccupiedBound(After(s, ls).slots);
  }

  // A client that has joined, or whose STOP is still under way.
  ghost predicate Live(t: State, k: int) {
    k in t.clients && (Inside(t.clients[k]) || (t.clients[k].Stopped? && Stop(k) in t.requests))
  }

  // A live client owns the slot whose number it was given, so no two live clients share a
  // number; any other client that has left is out of the table.
  lemma LiveIdentifiers(maxClients: nat, s: State, ls: seq<Label>, k: int, other: int)
    requires Init(maxClients, s) && Schedule(s, ls) && k in After(s, ls).clients
    ensures var t := After(s, ls);
            && (Live(t, k) ==> Holds(t.slots, t.clients[k].id, k))
            && (Live(t, k) && Live(t, other) && k != other ==> t.clients[k].id != t.clients[other].id)
            && (t.clients[k].Stopped? && !Live(t, k) ==> k !in t.slots)
            && (t.clients[k].Asking? && k in t.inbox && t.inbox[k] != [] ==> !t.inbox[k][0].NewMessage?)
  {
    InitInv(maxClients, s);
    RunInv(s, ls);
    var t := After(s, ls);
    assert ClientOk(t.slots, t.clients[k], k, Innits(t.requests, k), Stops(t.requests, k), t.inbox[k]);
    StopsIn(t.requests, k);
    if other in t.clients {
      assert ClientOk(t.slots, t.clients[other], other, Innits(t.requests, other), Stops(t.requests, other), t.inbox[other]);
      StopsIn(t.requests, other);
    }
  }

  lemma {:induction false} StopsIn(q: seq<Request>, k: int)
    ensures Stops(q, k) > 0 <==> Stop(k) in q
  {
    if q != [] {
      StopsIn(q[1..], k);
    }
  }

  // Key k sits in a slot from i on that is not slot id.
  ghost predicate Target(slots: seq<int>, id: int, i: nat, k: int) {
    exists j :: i <= j < |slots| && j != id && slots[j] == k
  }

  lemma TargetNext(slots: seq<int>, id: int, i: nat, k: int)
    requires i < |slots|
    ensures Target(slots, id, i, k) <==> (i != id && slots[i] == k) || Target(slots, id, i + 1, k)
  {
    if i != id && slots[i] == k {
      assert Target(slots, id, i, k);
    }
  }

  // What the clients find in their queues after a broadcast that started at slot i.
  ghost predicate Reached(s: State, t: State, id: int, text: string, i: nat) {
    && t.inbox.Keys == s.inbox.Keys
    && forall k :: k in s.inbox ==>
         t.inbox[k] == if Target(s.slots, id, i, k) then s.inbox[k] + [NewMessage(id, Text(text))] else s.inbox[k]
  }

  // Some registered client other than the sender has already removed its queue.
  ghost predicate DeadQueue(s: State, id: int, i: nat) {
    exists j :: i <= j < |s.slots| && j != id && s.slots[j] != FREE && !HasQueue(s, s.slots[j])
  }

  // The message sent to slot i completes what the slots behind it receive.
  lemma ReachedNext(s: State, t: State, id: int, text: string, i: nat)
    requires i < |s.slots| && i != id && s.slots[i] != FREE && HasQueue(s, s.slots[i])
    requires Distinct(s.slots) && Reached(Send(s, s.slots[i], NewMessage(id, Text(text))), t, id, text, i + 1)
    ensures Reached(s, t, id, text, i)
  {
    assert !Target(s.slots, id, i + 1, s.slots[i]);
    forall k | k in s.inbox
      ensures t.inbox[k] == if Target(s.slots, id, i, k) then s.inbox[k] + [NewMessage(id, Text(text))] else s.inbox[k]
    {
      TargetNext(s.slots, id, i, k);
    }
  }

  lemma {:induction false} ToAllReaches(s: State, id: int, text: string, i: nat)
    requires Distinct(s.slots) && FREE !in s.inbox && !s.crashed
    ensures var t := HandleToAll(s, id, text, i); !t.crashed ==> Reached(s, t, id, text, i)
    decreases |s.slots| - i
  {
    if i < |s.slots| {
      if s.slots[i] != FREE && i != id {
        if HasQueue(s, s.slots[i]) {
          var s' := Send(s, s.slots[i], NewMessage(id, Text(text)));
          ToAllReaches(s', id, text, i + 1);
          if !HandleToAll(s', id, text, i + 1).crashed {
            ReachedNext(s, HandleToAll(s', id, text, i + 1), id, text, i);
          }
        }
      } else {
        ToAllReaches(s, id, text, i + 1);
        ReachedSkip(s, HandleToAll(s, id, text, i + 1), id, text, i);
      }
    }
  }

  // A slot that is skipped changes nothing.
  lemma ReachedSkip(s: State, t: State, id: int, text: string, i: nat)
    requires i < |s.slots| && (i == id || s.slots[i] == FREE) && FREE !in s.inbox
    requires !t.crashed ==> Reached(s, t, id, text, i + 1)
    ensures !t.crashed ==> Reached(s, t, id, text, i)
  {
    forall k | k in s.inbox
      ensures Target(s.slots, id, i, k) <==> Target(s.slots, id, i + 1, k)
    {
      TargetNext(s.slots, id, i, k);
    }
  }

  // The broadcast ends the server exactly at a queue that is gone.
  lemma {:induction false} ToAllCrashes(s: State, id: int, text: string, i: nat)
    requires !s.crashed
    ensures HandleToAll(s, id, text, i).crashed <==> DeadQueue(s, id, i)
    decreases |s.slots| - i
  {
    if i < |s.slots| {
      if s.slots[i] != FREE && i != id {
        if HasQueue(s, s.slots[i]) {
          var s' := Send(s, s.slots[i], NewMessage(id, Text(text)));
          ToAllCrashes(s', id, text, i + 1);
          SameQueues(s, s', id, i + 1);
        }
      } else {
        ToAllCrashes(s, id, text, i + 1);
      }
    }
  }

  lemma SameQueues(s: State, t: State, id: int, i: nat)
    requires t.slots == s.slots && t.clients == s.clients && t.inbox.Keys == s.inbox.Keys
    ensures DeadQueue(t, id, i) <==> DeadQueue(s, id, i)
  {
    assert forall k :: HasQueue(t, k) <==> HasQueue(s, k);
  }

  // A broadcast reaches every registered client but its sender exactly once, and nobody
  // else; it ends the server exactly when one of them has already exited.
  lemma BroadcastExactly(maxClients: nat, s: State, ls: seq<Label>)
    requires Init(maxClients, s) && Schedule(s, ls)
    requires var t := After(s, ls); Enabled(t, Serve) && t.requests[0].ToAll?
    ensures var t := After(s, ls); var r, t' := t.requests[0], Next(t, Serve);
            && Holds(t.slots, r.id, r.key)
            && (t'.crashed <==> exists k :: k in t.slots && k in t.clients && k != r.key && t.clients[k].Stopped?)
            && (!t'.crashed ==> t'.inbox.Keys == t.inbox.Keys && forall k :: k in t.inbox ==>
                  t'.inbox[k] == if k in t.slots && k != r.key then t.inbox[k] + [NewMessage(r.id, Text(r.text))] else t.inbox[k])
  {
    InitInv(maxClients, s);
    RunInv(s, ls);
    var t := After(s, ls);
    var t0 := t.(requests := t.requests[1..]);
    var r := t.requests[0];
    ToAllReaches(t0, r.id, r.text, 0);
    ToAllCrashes(t0, r.id, r.text, 0);
    SenderSlot(t);
    OthersQueues(t, r.id, r.key);
  }

  lemma {:induction false} EntriesExact(slots: seq<int>, i: nat, j: int, k: int)
    ensures (j, k) in Entries(slots, i) <==> i <= j < |slots| && slots[j] == k && k != FREE
    decreases |slots| - i
  {
    if i < |slots| {
      EntriesExact(slots, i + 1, j, k);
    }
  }

  lemma {:induction false} EntriesAscend(slots: seq<int>, i: nat)
    ensures Ascending(Entries(slots, i)) && forall e :: e in Entries(slots, i) ==> i <= e.0
    decreases |slots| - i
  {
    if i < |slots| {
      EntriesAscend(slots, i + 1);
      var rest := Entries(slots, i + 1);
      assert forall a :: 0 <= a < |rest| ==> rest[a] in rest;
    }
  }

  ghost predicate Ascending(entries: seq<(int, int)>) {
    forall a, b :: 0 <= a < b < |entries| ==> entries[a].0 < entries[b].0
  }

  // A LIST is answered to its sender alone, with exactly the clients of the table and their
  // numbers, each once and in ascending order; it ends the server exactly when the sender has already exited.
  lemma ListExactly(maxClients: nat, s: State, ls: seq<Label>)
    requires Init(maxClients, s) && Schedule(s, ls)
    requires var t := After(s, ls); Enabled(t, Serve) && t.requests[0].List?
    ensures var t := After(s, ls); var r, t' := t.requests[0], Next(t, Serve);
            && Holds(t.slots, r.id, r.key) && r.key in t.clients
            && (t'.crashed <==> t.clients[r.key].Stopped?)
            && (!t'.crashed ==> r.key in t.inbox && exists entries ::
                  && t'.inbox == t.inbox[r.key := t.inbox[r.key] + [NewMessage(r.id, Index(entries))]]
                  && Ascending(entries)
                  && forall i, k :: (i, k) in entries <==> Holds(t.slots, i, k) && k != FREE)
  {
    InitInv(maxClients, s);
    RunInv(s, ls);
    var t := After(s, ls);
    var r := t.requests[0];
    SenderSlot(t);
    assert ClientOk(t.slots, t.clients[r.key], r.key, Innits(t.requests, r.key), Stops(t.requests, r.key), t.inbox[r.key]);
    var entries := Entries(t.slots, 0);
    EntriesAscend(t.slots, 0);
    forall i, k
      ensures (i, k) in entries <==> Holds(t.slots, i, k) && k != FREE
    {
      EntriesExact(t.slots, 0, i, k);
    }
    if !t.clients[r.key].Stopped? {
      assert Next(t, Serve).inbox == t.inbox[r.key := t.inbox[r.key] + [NewMessage(r.id, Index(entries))]];
    }
  }

  // A private message reaches the client that holds the number it names, if that client has
  // not exited, under the sender's own number; nobody else notices.
  lemma TellExactly(maxClients: nat, s: State, ls: seq<Label>)
    requires Init(maxClients, s) && Schedule(s, ls)
    requires var t := After(s, ls); Enabled(t, Serve) && t.requests[0].ToOne?
    ensures var t := After(s, ls); var r, t' := t.requests[0], Next(t, Serve);
            && Holds(t.slots, r.id, r.key) && !t'.crashed && t'.inbox.Keys == t.inbox.Keys == t.clients.Keys
            && forall k :: k in t.clients ==>
                 t'.inbox[k] == if Holds(t.slots, r.other, k) && !t.clients[k].Stopped? then t.inbox[k] + [NewMessage(r.id, Text(r.text))]
                                else t.inbox[k]
  {
    InitInv(maxClients, s);
    RunInv(s, ls);
    var t := After(s, ls);
    SenderSlot(t);
    forall k | k in t.clients && Holds(t.slots, t.requests[0].other, k)
      ensures !t.clients[k].Refused?
    {
      assert ClientOk(t.slots, t.clients[k], k, Innits(t.requests, k), Stops(t.requests, k), t.inbox[k]);
    }
  }

  lemma SenderSlot(t: State)
    requires Inv(t) && t.requests != [] && Talk(t.requests[0])
    ensures Holds(t.slots, t.requests[0].id, t.requests[0].key)
  {
    var k := t.requests[0].key;
    assert ClientOk(t.slots, t.clients[k], k, Innits(t.requests, k), Stops(t.requests, k), t.inbox[k]);
  }

  // With the sender in slot id, the slots other than id are the keys other than its own.
  lemma OthersQueues(t: State, id: int, key: int)
    requires Inv(t) && Holds(t.slots, id, key) && key in t.clients
    ensures forall k :: k in t.clients ==> (Target(t.slots, id, 0, k) <==> k in t.slots && k != key)
    ensures DeadQueue(t, id, 0) <==> exists k :: k in t.slots && k in t.clients && k != key && t.clients[k].Stopped?
  {
  }

  // ---------------------------------------------------------------- when the server ends

  lemma Prepend(s: State, l: Label, rest: seq<Label>) returns (ls: seq<Label>)
    requires Enabled(s, l) && Schedule(Next(s, l), rest)
    ensures Schedule(s, ls) && After(s, ls) == After(Next(s, l), rest)
    ensures ls == [l] + rest
  {
    ls := [l] + rest;
    assert ls[1..] == rest;
  }

  // Only a broadcast or the answer to a LIST ends the server, and its sender is registered.
  lemma CrashNeedsOne(s: State, l: Label)
    requires Inv(s) && Enabled(s, l) && !s.crashed && Next(s, l).crashed
    ensures l == Serve && (s.requests[0].ToAll? || s.requests[0].List?)
    ensures Holds(s.slots, s.requests[0].id, s.requests[0].key) && s.requests[0].key in s.clients
  {
    SenderSlot(s);
  }

  lemma CrashPair(s: State)
    requires Inv(s) && Enabled(s, Serve) && !s.crashed && Next(s, Serve).crashed && s.requests[0].ToAll?
    ensures |s.slots| >= 2 && |s.clients.Keys| >= 2
  {
    var r := s.requests[0];
    ToAllCrashes(s.(requests := s.requests[1..]), r.id, r.text, 0);
    SenderSlot(s);
    assert DeadQueue(s, r.id, 0);
    DeadQueuePair(s, r.id, r.key);
  }

  lemma DeadQueuePair(s: State, id: int, key: int)
    requires TableOk(s) && Holds(s.slots, id, key) && key in s.clients && DeadQueue(s, id, 0)
    ensures |s.slots| >= 2 && |s.clients.Keys| >= 2
  {
    var j :| 0 <= j < |s.slots| && j != id && s.slots[j] != FREE && !HasQueue(s, s.slots[j]);
    assert {s.slots[j], key} <= s.clients.Keys;
    Subset({s.slots[j], key}, s.clients.Keys);
  }

  lemma {:induction false} Subset<T>(a: set<T>, b: set<T>)
    requires a <= b
    ensures |a| <= |b|
    decreases a
  {
    if a != {} {
      var x :| x in a;
      Subset(a - {x}, b - {x});
    }
  }

  lemma StepKeys(s: State, l: Label)
    requires Inv(s) && Enabled(s, l)
    ensures |Next(s, l).slots| == |s.slots| && Next(s, l).clients.Keys == s.clients.Keys
  {
    if l == Serve && s.requests[0].ToAll? {
      ToAllDelivers(s.(requests := s.requests[1..]), s.requests[0].id, s.requests[0].text, 0);
    }
  }

  lemma {:induction false} RunKeys(s: State, ls: seq<Label>)
    requires Inv(s) && Schedule(s, ls)
    ensures |After(s, ls).slots| == |s.slots| && After(s, ls).clients.Keys == s.clients.Keys
    decreases |ls|
  {
    if ls != [] {
      StepInv(s, ls[0]);
      StepKeys(s, ls[0]);
      RunKeys(Next(s, ls[0]), ls[1..]);
    }
  }

  lemma {:induction false} CrashRun(s: State, ls: seq<Label>)
    requires Inv(s) && !s.crashed && Schedule(s, ls) && After(s, ls).crashed
    ensures |s.slots| >= 1 && |s.clients.Keys| >= 1
    decreases |ls|
  {
    var t := Next(s, ls[0]);
    if t.crashed {
      CrashNeedsOne(s, ls[0]);
      Subset({s.requests[0].key}, s.clients.Keys);
    } else {
      StepInv(s, ls[0]);
      StepKeys(s, ls[0]);
      CrashRun(t, ls[1..]);
    }
  }

  // a and b have joined and hold slots 0 and 1.
  ghost predicate BothIn(s: State, a: int, b: int) {
    && a != b && a >= 0 && b >= 0 && a in s.clients && b in s.clients && s.inbox.Keys == s.clients.Keys
    && |s.slots| >= 2 && s.slots[0] == a && s.slots[1] == b
    && s.clients[a] == Joined(0) && s.clients[b] == Joined(1) && s.requests == [] && !s.crashed
  }

  lemma CrashFrom(s: State, a: int, b: int) returns (ls: seq<Label>)
    requires BothIn(s, a, b)
    ensures ReachesBroadcastCrash(s, ls)
  {
    var s1 := Next(s, Say(a, ""));
    var s2 := Next(s1, Leave(b));
    assert s2.requests == [ToAll(a, 0, ""), Stop(b)];
    var s3 := s2.(requests := [Stop(b)]);
    assert s2.requests[1..] == [Stop(b)];
    assert HandleToAll(s3, 0, "", 1).crashed;
    assert Next(s2, Serve) == HandleToAll(s3, 0, "", 0);
    ls := Prepend(s1, Leave(b), []);
    ls := Prepend(s, Say(a, ""), ls);
  }

  lemma JoinAlone(s: State, k: int) returns (t: State)
    requires Enabled(s, Join(k)) && s.requests == [] && !s.crashed && s.connected < |s.slots| && s.inbox.Keys == s.clients.Keys
    requires s.inbox[k] == []
    ensures t == s.(clients := s.clients[k := Joined(if FirstFree(s.slots) < |s.slots| then FirstFree(s.slots) else 0)],
                    connected := s.connected + 1, slots := Enter(s.slots, k))
    ensures forall rest :: Schedule(t, rest) ==>
              Schedule(s, [Join(k), Serve, Read(k)] + rest) && After(s, [Join(k), Serve, Read(k)] + rest) == After(t, rest)
  {
    var s1 := Next(s, Join(k));
    var s2 := Next(s1, Serve);
    t := Next(s2, Read(k));
    assert t.clients == s.clients[k := t.clients[k]];
    assert s2.inbox[k] == [s2.inbox[k][0]];
    assert t.inbox[k] == [];
    assert t.inbox == s.inbox;
    forall rest | Schedule(t, rest)
      ensures Schedule(s, [Join(k), Serve, Read(k)] + rest) && After(s, [Join(k), Serve, Read(k)] + rest) == After(t, rest)
    {
      var ls := Prepend(s2, Read(k), rest);
      ls := Prepend(s1, Serve, ls);
      ls := Prepend(s, Join(k), ls);
      assert ls == [Join(k), Serve, Read(k)] + rest;
    }
  }

  lemma ReachBroadcastCrash(maxClients: nat, s: State, a: int, b: int) returns (ls: seq<Label>)
    requires Init(maxClients, s) && maxClients >= 2 && a != b && a in s.clients && b in s.clients
    ensures ReachesBroadcastCrash(s, ls)
  {
    assert FirstFree(s.slots) == 0;
    var s1 := JoinAlone(s, a);
    assert FirstFree(s1.slots) == 1;
    var s2 := JoinAlone(s1, b);
    ls := CrashFrom(s2, a, b);
    ls := [Join(b), Serve, Read(b)] + ls;
    ls := [Join(a), Serve, Read(a)] + ls;
  }

  lemma Pick<T>(s: set<T>) returns (x: T)
    requires |s| > 0
    ensures x in s
  {
    x :| x in s;
  }

  // After ls the server handles a broadcast and ends.
  ghost predicate ReachesBroadcastCrash(s: State, ls: seq<Label>) {
    && Schedule(s, ls) && !After(s, ls).crashed && After(s, ls).requests != []
    && After(s, ls).requests[0].ToAll? && Next(After(s, ls), Serve).crashed
  }

  // A broadcast can end the server exactly when two clients can be registered at once.
  lemma BroadcastCrashExactly(maxClients: nat, s: State)
    requires Init(maxClients, s)
    ensures (exists ls :: ReachesBroadcastCrash(s, ls)) <==> maxClients >= 2 && |s.clients.Keys| >= 2
  {
    InitInv(maxClients, s);
    if maxClients >= 2 && |s.clients.Keys| >= 2 {
      var a := Pick(s.clients.Keys);
      var b := Pick(s.clients.Keys - {a});
      var ls := ReachBroadcastCrash(maxClients, s, a, b);
    } else {
      forall ls
        ensures !ReachesBroadcastCrash(s, ls)
      {
        if ReachesBroadcastCrash(s, ls) {
          RunInv(s, ls);
          RunKeys(s, ls);
          CrashPair(After(s, ls));
        }
      }
    }
  }

  // ---- one client is enough

  // a has joined alone and holds slot 0.
  ghost predicate OneIn(s: State, a: int) {
    && a >= 0 && a in s.clients && s.inbox.Keys == s.clients.Keys && |s.slots| >= 1 && s.slots[0] == a
    && s.clients[a] == Joined(0) && s.inbox[a] == [] && s.requests == [] && !s.crashed
  }

  // A message to itself arrives before the answer to its LIST and is taken for it; so the
  // client can stop while the LIST is still under way.
  lemma ListCrashFrom(s: State, a: int) returns (ls: seq<Label>)
    requires OneIn(s, a)
    ensures Schedule(s, ls) && After(s, ls).crashed
  {
    var s1 := Next(s, Tell(a, 0, ""));
    var s2 := Next(s1, AskIndex(a));
    assert s2.requests == [ToOne(a, 0, 0, ""), List(a, 0)];
    assert s2.requests[1..] == [List(a, 0)];
    var s3 := Next(s2, Serve);
    assert s3.inbox[a] == [NewMessage(0, Text(""))];
    var s4 := Next(s3, Read(a));
    var s5 := Next(s4, Leave(a));
    assert s5.requests == [List(a, 0), Stop(a)];
    ls := Prepend(s5, Serve, []);
    ls := Prepend(s4, Leave(a), ls);
    ls := Prepend(s3, Read(a), ls);
    ls := Prepend(s2, Serve, ls);
    ls := Prepend(s1, AskIndex(a), ls);
    ls := Prepend(s, Tell(a, 0, ""), ls);
  }

  ghost predicate ReachesCrash(s: State, ls: seq<Label>) {
    Schedule(s, ls) && After(s, ls).crashed
  }

  // Some run ends the server exactly when there is a slot and a client.
  lemma CrashExactly(maxClients: nat, s: State)
    requires Init(maxClients, s)
    ensures (exists ls :: ReachesCrash(s, ls)) <==> maxClients >= 1 && |s.clients.Keys| >= 1
  {
    InitInv(maxClients, s);
    if maxClients >= 1 && |s.clients.Keys| >= 1 {
      var a := Pick(s.clients.Keys);
      assert FirstFree(s.slots) == 0;
      var t := JoinAlone(s, a);
      var ls := ListCrashFrom(t, a);
      assert ReachesCrash(s, [Join(a), Serve, Read(a)] + ls);
    } else {
      forall ls | Schedule(s, ls)
        ensures !ReachesCrash(s, ls)
      {
        if After(s, ls).crashed {
          CrashRun(s, ls);
        }
      }
    }
  }
}
