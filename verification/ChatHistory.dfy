// What the chat's clients say and hear over a whole run, told from the steps alone.
// Source: lab6/zad1/server.c, lab6/zad1/client.c
module ChatHistory {
  import opened Registry

  // ---------------------------------------------------------------- what is said

  datatype Utterance = Hello | AsksIndex | ToEverybody(text: string) | ToNumber(other: nat, text: string) | Goodbye

  // What the user of a client does in a step.
  function Uttered(l: Label): seq<(int, Utterance)> {
    match l
    case Join(k) => [(k, Hello)]
    case AskIndex(k) => [(k, AsksIndex)]
    case Say(k, text) => [(k, ToEverybody(text))]
    case Tell(k, other, text) => [(k, ToNumber(other, text))]
    case Leave(k) => [(k, Goodbye)]
    case Read(_) => []
    case Serve => []
  }

  function AllUttered(ls: seq<Label>): seq<(int, Utterance)> {
    if ls == [] then [] else Uttered(ls[0]) + AllUttered(ls[1..])
  }

  // Who says what in a request.
  function Spoken(r: Request): (int, Utterance) {
    match r
    case Innit(key) => (key, Hello)
    case List(key, _) => (key, AsksIndex)
    case ToAll(key, _, text) => (key, ToEverybody(text))
    case ToOne(key, _, other, text) => (key, ToNumber(other, text))
    case Stop(key) => (key, Goodbye)
  }

  function SpokenAll(q: seq<Request>): (r: seq<(int, Utterance)>)
    ensures |r| == |q| && forall i :: 0 <= i < |r| ==> r[i] == Spoken(q[i])
  {
    seq(|q|, i requires 0 <= i < |q| => Spoken(q[i]))
  }

  // The requests that the server has handled.
  ghost function Handled(s: State, ls: seq<Label>): seq<Request>
    requires Schedule(s, ls)
    decreases |ls|
  {
    if ls == [] then []
    else (if ls[0] == Serve then [s.requests[0]] else []) + Handled(Next(s, ls[0]), ls[1..])
  }

  // Requests leave at one end and what is said is queued at the other.
  lemma StepRequests(s: State, l: Label)
    requires Enabled(s, l)
    ensures l == Serve ==> s.requests == [s.requests[0]] + Next(s, l).requests && Uttered(l) == []
    ensures l != Serve ==> SpokenAll(Next(s, l).requests) == SpokenAll(s.requests) + Uttered(l)
  {
    if l == Serve {
      HandleKeeps(s.(requests := s.requests[1..]), s.requests[0]);
    }
  }

  lemma Assoc<T>(a: seq<T>, b: seq<T>, c: seq<T>)
    ensures a + b + c == a + (b + c)
  {
  }

  // Everything that is said is handled or under way, in the order in which it was said.
  lemma {:induction false} SaidInOrder(s: State, ls: seq<Label>)
    requires Schedule(s, ls)
    ensures SpokenAll(Handled(s, ls)) + SpokenAll(After(s, ls).requests) == SpokenAll(s.requests) + AllUttered(ls)
    decreases |ls|
  {
    if ls != [] {
      StepRequests(s, ls[0]);
      SaidInOrder(Next(s, ls[0]), ls[1..]);
      if ls[0] == Serve {
        SaidServe(s, ls);
      } else {
        SaidOther(s, ls);
      }
    }
  }

  lemma SaidServe(s: State, ls: seq<Label>)
    requires Schedule(s, ls) && ls != [] && ls[0] == Serve && s.requests == [s.requests[0]] + Next(s, Serve).requests
    requires SpokenAll(Handled(Next(s, ls[0]), ls[1..])) + SpokenAll(After(s, ls).requests) ==
             SpokenAll(Next(s, ls[0]).requests) + AllUttered(ls[1..])
    ensures SpokenAll(Handled(s, ls)) + SpokenAll(After(s, ls).requests) == SpokenAll(s.requests) + AllUttered(ls)
  {
    var t, rest, r := Next(s, Serve), ls[1..], s.requests[0];
    SpokenCons(r, Handled(t, rest));
    SpokenCons(r, t.requests);
    assert AllUttered(ls) == AllUttered(rest);
    Shift(Spoken(r), SpokenAll(Handled(t, rest)), SpokenAll(After(s, ls).requests), SpokenAll(t.requests), AllUttered(rest));
  }

  lemma SpokenCons(r: Request, q: seq<Request>)
    ensures SpokenAll([r] + q) == [Spoken(r)] + SpokenAll(q)
  {
  }

  lemma Shift<T>(x: T, a: seq<T>, b: seq<T>, c: seq<T>, d: seq<T>)
    requires a + b == c + d
    ensures ([x] + a) + b == ([x] + c) + d
  {
    assert ([x] + a) + b == [x] + (a + b);
    assert ([x] + c) + d == [x] + (c + d);
  }

  lemma SaidOther(s: State, ls: seq<Label>)
    requires Schedule(s, ls) && ls != [] && ls[0] != Serve
    requires SpokenAll(Next(s, ls[0]).requests) == SpokenAll(s.requests) + Uttered(ls[0])
    requires SpokenAll(Handled(Next(s, ls[0]), ls[1..])) + SpokenAll(After(s, ls).requests) ==
             SpokenAll(Next(s, ls[0]).requests) + AllUttered(ls[1..])
    ensures SpokenAll(Handled(s, ls)) + SpokenAll(After(s, ls).requests) == SpokenAll(s.requests) + AllUttered(ls)
  {
    assert Handled(s, ls) == Handled(Next(s, ls[0]), ls[1..]);
    Assoc(SpokenAll(s.requests), Uttered(ls[0]), AllUttered(ls[1..]));
  }

  // The request to be handled next is the next thing that was said.
  lemma NextIsSaid(maxClients: nat, s: State, ls: seq<Label>)
    requires Init(maxClients, s) && Schedule(s, ls)
    ensures var n, t := |Handled(s, ls)|, After(s, ls);
            && |AllUttered(ls)| == n + |t.requests| && SpokenAll(Handled(s, ls)) == AllUttered(ls)[..n]
            && (t.requests != [] ==> Spoken(t.requests[0]) == AllUttered(ls)[n])
  {
    var n, t := |Handled(s, ls)|, After(s, ls);
    SaidInOrder(s, ls);
    assert [] + AllUttered(ls) == AllUttered(ls);
    assert (SpokenAll(Handled(s, ls)) + SpokenAll(t.requests))[..n] == SpokenAll(Handled(s, ls));
    if t.requests != [] {
      assert (SpokenAll(Handled(s, ls)) + SpokenAll(t.requests))[n] == SpokenAll(t.requests)[0];
    }
  }

  // As long as the server runs it goes on with the next thing that was said. What is said to
  // everybody is sent word for word to every other registered client, and what is said to a
  // number to the client that holds it, both under the speaker's own number and to nobody else.
  lemma HeardAsSaid(maxClients: nat, s: State, ls: seq<Label>) returns (number: int)
    requires Init(maxClients, s) && Schedule(s, ls)
    requires !After(s, ls).crashed && |Handled(s, ls)| < |AllUttered(ls)|
    ensures Enabled(After(s, ls), Serve)
    ensures var t, t', said := After(s, ls), Next(After(s, ls), Serve), AllUttered(ls)[|Handled(s, ls)|];
            && t'.inbox.Keys == t.inbox.Keys == t.clients.Keys
            && (said.1.ToEverybody? || said.1.ToNumber? ==> Holds(t.slots, number, said.0))
            && (said.1.ToEverybody? && !t'.crashed ==> forall k :: k in t.clients ==>
                  t'.inbox[k] == if k in t.slots && k != said.0 then t.inbox[k] + [NewMessage(number, Text(said.1.text))] else t.inbox[k])
            && (said.1.ToEverybody? ==>
                  (t'.crashed <==> exists k :: k in t.slots && k in t.clients && k != said.0 && t.clients[k].Stopped?))
            && (said.1.ToNumber? ==> !t'.crashed && forall k :: k in t.clients ==>
                  t'.inbox[k] == if Holds(t.slots, said.1.other, k) && !t.clients[k].Stopped?
                                 then t.inbox[k] + [NewMessage(number, Text(said.1.text))] else t.inbox[k])
  {
    var t := After(s, ls);
    NextIsSaid(maxClients, s, ls);
    InitInv(maxClients, s);
    RunInv(s, ls);
    StepInv(t, Serve);
    StepKeys(t, Serve);
    var r := t.requests[0];
    number := if r.ToAll? || r.ToOne? then r.id else 0;
    if r.ToAll? {
      BroadcastExactly(maxClients, s, ls);
    } else if r.ToOne? {
      TellExactly(maxClients, s, ls);
    }
  }

  // ---------------------------------------------------------------- what is sent

  // No queue that is gone stands in the table between slots i and j, slot id left out.
  ghost predicate Clear(t: State, id: int, i: nat, j: nat) {
    forall n :: i <= n <= j && n < |t.slots| && n != id && t.slots[n] != FREE ==> HasQueue(t, t.slots[n])
  }

  // A broadcast that goes through the table from slot i gets as far as client k.
  ghost predicate Reaches(t: State, id: int, i: nat, k: int) {
    exists j :: i <= j < |t.slots| && j != id && t.slots[j] == k && Clear(t, id, i, j)
  }

  lemma ReachesSkip(t: State, id: int, i: nat, k: int)
    requires i < |t.slots| && (i == id || t.slots[i] == FREE) && k != FREE
    ensures Reaches(t, id, i, k) <==> Reaches(t, id, i + 1, k)
  {
    if Reaches(t, id, i, k) {
      var j :| i <= j < |t.slots| && j != id && t.slots[j] == k && Clear(t, id, i, j);
      assert Clear(t, id, i + 1, j);
    }
    if Reaches(t, id, i + 1, k) {
      var j :| i + 1 <= j < |t.slots| && j != id && t.slots[j] == k && Clear(t, id, i + 1, j);
      assert Clear(t, id, i, j);
    }
  }

  lemma ReachesNext(t: State, t': State, id: int, i: nat, k: int)
    requires i < |t.slots| && i != id && t.slots[i] != FREE && HasQueue(t, t.slots[i]) && Distinct(t.slots)
    requires t'.slots == t.slots && t'.clients == t.clients && t'.inbox.Keys == t.inbox.Keys
    ensures Reaches(t, id, i, k) <==> k == t.slots[i] || Reaches(t', id, i + 1, k)
    ensures !Reaches(t', id, i + 1, t.slots[i])
  {
    assert forall x :: HasQueue(t', x) <==> HasQueue(t, x);
    if k == t.slots[i] {
      assert Clear(t, id, i, i);
    }
    if Reaches(t, id, i, k) && k != t.slots[i] {
      var j :| i <= j < |t.slots| && j != id && t.slots[j] == k && Clear(t, id, i, j);
      assert Clear(t', id, i + 1, j);
    }
    if Reaches(t', id, i + 1, k) {
      var j :| i + 1 <= j < |t.slots| && j != id && t.slots[j] == k && Clear(t', id, i + 1, j);
      assert Clear(t, id, i, j);
    }
  }

  lemma {:induction false} ToAllSends(s: State, id: int, text: string, i: nat, k: int)
    requires Distinct(s.slots) && k in s.inbox && k != FREE
    ensures var t := HandleToAll(s, id, text, i);
            k in t.inbox && t.inbox[k] == s.inbox[k] + if Reaches(s, id, i, k) then [NewMessage(id, Text(text))] else []
    decreases |s.slots| - i
  {
    if i < |s.slots| {
      if s.slots[i] != FREE && i != id {
        if HasQueue(s, s.slots[i]) {
          var s' := Send(s, s.slots[i], NewMessage(id, Text(text)));
          ReachesNext(s, s', id, i, k);
          ToAllSends(s', id, text, i + 1, k);
        } else {
          assert !Reaches(s, id, i, k);
        }
      } else {
        ReachesSkip(s, id, i, k);
        ToAllSends(s, id, text, i + 1, k);
      }
    }
  }

  // What the next turn of the server sends to client k.
  ghost function Dispatched(t: State, k: int): seq<Message>
    requires t.requests != []
  {
    match t.requests[0]
    case Innit(key) => if key != k then [] else if FREE !in t.slots then [Failure] else [Succes(FirstFree(t.slots))]
    case List(key, id) => if key == k && HasQueue(t, k) then [NewMessage(id, Index(Entries(t.slots, 0)))] else []
    case ToAll(_, id, text) => if Reaches(t, id, 0, k) then [NewMessage(id, Text(text))] else []
    case ToOne(_, id, other, text) => if Holds(t.slots, other, k) && HasQueue(t, k) then [NewMessage(id, Text(text))] else []
    case Stop(_) => []
  }

  lemma ServeSends(t: State, k: int)
    requires Inv(t) && Enabled(t, Serve) && k in t.clients
    ensures k in Next(t, Serve).inbox && Next(t, Serve).inbox[k] == t.inbox[k] + Dispatched(t, k)
  {
    var t0 := t.(requests := t.requests[1..]);
    match t.requests[0] {
      case ToAll(_, id, text) =>
        ToAllSends(t0, id, text, 0, k);
        SameReach(t, t0, id, k);
      case Innit(key) => InnitSends(t, key, k);
      case _ =>
    }
  }

  lemma SameReach(t: State, t': State, id: int, k: int)
    requires t' == t.(requests := t'.requests)
    ensures Reaches(t', id, 0, k) <==> Reaches(t, id, 0, k)
  {
    assert forall x :: HasQueue(t', x) <==> HasQueue(t, x);
    if Reaches(t, id, 0, k) {
      var j :| 0 <= j < |t.slots| && j != id && t.slots[j] == k && Clear(t, id, 0, j);
      assert Clear(t', id, 0, j);
    }
    if Reaches(t', id, 0, k) {
      var j :| 0 <= j < |t.slots| && j != id && t.slots[j] == k && Clear(t', id, 0, j);
      assert Clear(t, id, 0, j);
    }
  }

  lemma InnitSends(t: State, key: int, k: int)
    requires Inv(t) && Enabled(t, Serve) && t.requests[0] == Innit(key) && k in t.clients
    ensures k in Next(t, Serve).inbox && Next(t, Serve).inbox[k] == t.inbox[k] + Dispatched(t, k)
  {
    OccupiedBound(t.slots);
    assert FREE !in t.slots <==> FirstFree(t.slots) == |t.slots|;
    assert ClientOk(t.slots, t.clients[key], key, Innits(t.requests, key), Stops(t.requests, key), t.inbox[key]);
  }

  // ---------------------------------------------------------------- what is heard

  // What the server sends to client k, and what client k reads.
  ghost function Sent(s: State, ls: seq<Label>, k: int): seq<Message>
    requires Schedule(s, ls)
    decreases |ls|
  {
    if ls == [] then [] else (if ls[0] == Serve then Dispatched(s, k) else []) + Sent(Next(s, ls[0]), ls[1..], k)
  }

  ghost function ReadIn(s: State, l: Label, k: int): seq<Message>
    requires Enabled(s, l)
  {
    if l == Read(k) then [s.inbox[k][Incoming(s.clients[k], s.inbox[k])]] else []
  }

  ghost function Received(s: State, ls: seq<Label>, k: int): seq<Message>
    requires Schedule(s, ls)
    decreases |ls|
  {
    if ls == [] then [] else ReadIn(s, ls[0], k) + Received(Next(s, ls[0]), ls[1..], k)
  }

  lemma StepMail(s: State, l: Label, k: int)
    requires Inv(s) && Enabled(s, l) && k in s.clients
    ensures var t := Next(s, l);
            k in t.inbox && ReadIn(s, l, k) + t.inbox[k] == s.inbox[k] + if l == Serve then Dispatched(s, k) else []
  {
    if l == Serve {
      ServeSends(s, k);
    } else if l == Read(k) {
      assert ClientOk(s.slots, s.clients[k], k, Innits(s.requests, k), Stops(s.requests, k), s.inbox[k]);
      ReadOwn(s.slots, s.clients[k], k, Innits(s.requests, k), Stops(s.requests, k), s.inbox[k]);
    }
  }

  // What a client has read, followed by what waits in its queue, is what it was sent, in order.
  lemma {:induction false} NothingIsLost(s: State, ls: seq<Label>, k: int)
    requires Inv(s) && Schedule(s, ls) && k in s.clients
    ensures k in After(s, ls).inbox && Received(s, ls, k) + After(s, ls).inbox[k] == s.inbox[k] + Sent(s, ls, k)
    decreases |ls|
  {
    if ls != [] {
      var t, rest := Next(s, ls[0]), ls[1..];
      StepInv(s, ls[0]);
      StepKeys(s, ls[0]);
      StepMail(s, ls[0], k);
      NothingIsLost(t, rest, k);
      Regroup(ReadIn(s, ls[0], k), Received(t, rest, k), After(s, ls).inbox[k], t.inbox[k],
              s.inbox[k], if ls[0] == Serve then Dispatched(s, k) else [], Sent(t, rest, k));
    }
  }

  lemma Regroup<T>(a: seq<T>, b: seq<T>, c: seq<T>, d: seq<T>, e: seq<T>, f: seq<T>, g: seq<T>)
    requires b + c == d + g && a + d == e + f
    ensures (a + b) + c == e + (f + g)
  {
    assert (a + b) + c == a + (b + c);
    assert a + (d + g) == (a + d) + g;
    assert (e + f) + g == e + (f + g);
  }

  lemma MailIsKept(maxClients: nat, s: State, ls: seq<Label>, k: int)
    requires Init(maxClients, s) && Schedule(s, ls) && k in s.clients
    ensures k in After(s, ls).inbox && Received(s, ls, k) + After(s, ls).inbox[k] == Sent(s, ls, k)
  {
    InitInv(maxClients, s);
    NothingIsLost(s, ls, k);
    assert [] + Sent(s, ls, k) == Sent(s, ls, k);
  }

  // ---------------------------------------------------------------- a client's life

  datatype Event = Said(what: Utterance) | Heard(message: Message)

  // What client k says or reads in a step.
  ghost function EventIn(s: State, l: Label, k: int): seq<Event>
    requires Enabled(s, l)
  {
    if Uttered(l) != [] && Uttered(l)[0].0 == k then [Said(Uttered(l)[0].1)]
    else if ReadIn(s, l, k) != [] then [Heard(ReadIn(s, l, k)[0])]
    else []
  }

  ghost function Events(s: State, ls: seq<Label>, k: int): seq<Event>
    requires Schedule(s, ls)
    decreases |ls|
  {
    if ls == [] then [] else EventIn(s, ls[0], k) + Events(Next(s, ls[0]), ls[1..], k)
  }

  // A client's state is what it has said and read.
  ghost predicate Lived(c: Client, h: seq<Event>) {
    match c
    case Fresh => h == []
    case Asking => h == [Said(Hello)]
    case Joined(id) => IsIn(h, id) && h[|h| - 1] != Said(AsksIndex)
    case Listing(id) => IsIn(h, id) && h[|h| - 1] == Said(AsksIndex)
    case Stopped(id) => h != [] && h[|h| - 1] == Said(Goodbye) && IsIn(h[..|h| - 1], id)
    case Refused => h == [Said(Hello), Heard(Failure)]
  }

  // Greeted, accepted under number id, and in conversation since: after asking for the index
  // it reads before it says anything else.
  ghost predicate IsIn(h: seq<Event>, id: int) {
    && |h| >= 2 && h[0] == Said(Hello) && h[1] == Heard(Succes(id))
    && (forall i :: 2 <= i < |h| ==> Chats(h[i]))
    && (forall i :: 2 <= i < |h| && h[i].Said? ==> h[i - 1] != Said(AsksIndex))
  }

  predicate Chats(e: Event) {
    match e
    case Said(what) => what != Hello && what != Goodbye
    case Heard(m) => m.NewMessage?
  }

  lemma LifeStep(s: State, l: Label, k: int, h: seq<Event>)
    requires Inv(s) && Enabled(s, l) && k in s.clients && k in Next(s, l).clients && Lived(s.clients[k], h)
    ensures Lived(Next(s, l).clients[k], h + EventIn(s, l, k))
  {
    assert ClientOk(s.slots, s.clients[k], k, Innits(s.requests, k), Stops(s.requests, k), s.inbox[k]);
    assert h + [] == h;
    if l == Serve {
      HandleKeeps(s.(requests := s.requests[1..]), s.requests[0]);
    } else if l == Read(k) {
      ReadOwn(s.slots, s.clients[k], k, Innits(s.requests, k), Stops(s.requests, k), s.inbox[k]);
      LivedOn(s.clients[k], Next(s, l).clients[k], h, Heard(s.inbox[k][0]));
    } else if l.k == k {
      LivedOn(s.clients[k], Next(s, l).clients[k], h, Said(Uttered(l)[0].1));
    }
  }

  // One more event in a client's life.
  lemma LivedOn(c: Client, d: Client, h: seq<Event>, e: Event)
    requires Lived(c, h)
    requires match e
             case Said(Hello) => c.Fresh? && d == Asking
             case Said(Goodbye) => Inside(c) && d == Stopped(c.id)
             case Said(AsksIndex) => c.Joined? && d == Listing(c.id)
             case Said(_) => c.Joined? && d == c
             case Heard(m) => if c.Asking? then d == OnMessage(c, m) && !m.NewMessage? else Inside(c) && m.NewMessage? && d == Joined(c.id)
    ensures Lived(d, h + [e])
  {
    if d.Stopped? {
      assert (h + [e])[..|h|] == h;
    }
  }

  lemma {:induction false} LifeRun(s: State, ls: seq<Label>, k: int, h: seq<Event>)
    requires Inv(s) && Schedule(s, ls) && k in s.clients && Lived(s.clients[k], h)
    ensures k in After(s, ls).clients && Lived(After(s, ls).clients[k], h + Events(s, ls, k))
    decreases |ls|
  {
    if ls == [] {
      assert h + [] == h;
    } else {
      var l, rest := ls[0], ls[1..];
      StepInv(s, l);
      StepKeys(s, l);
      LifeStep(s, l, k, h);
      LifeRun(Next(s, l), rest, k, h + EventIn(s, l, k));
      Assoc(h, EventIn(s, l, k), Events(Next(s, l), rest, k));
    }
  }

  // A client says hello once, reads SUCCES or FAILURE first, reads the answer to a LIST before
  // it says more, says nothing after a FAILURE or its goodbye, and reads nothing but chat
  // while it is in.
  lemma ClientLife(maxClients: nat, s: State, ls: seq<Label>, k: int)
    requires Init(maxClients, s) && Schedule(s, ls) && k in s.clients
    ensures k in After(s, ls).clients && Lived(After(s, ls).clients[k], Events(s, ls, k))
  {
    InitInv(maxClients, s);
    LifeRun(s, ls, k, []);
    assert [] + Events(s, ls, k) == Events(s, ls, k);
  }

  // ---------------------------------------------------------------- nobody waits for nothing

  // The answer to a client's LIST is under way or there is something to read in its place.
  ghost predicate Answerable(s: State, k: int) {
    k in s.clients && s.clients[k].Listing? && k in s.inbox && s.inbox[k] == [] ==>
      exists n :: 0 <= n < |s.requests| && s.requests[n].List? && s.requests[n].key == k
  }

  lemma AnswerableStep(s: State, l: Label, k: int)
    requires Inv(s) && Enabled(s, l) && k in s.clients && Answerable(s, k)
    ensures Answerable(Next(s, l), k)
  {
    var t := Next(s, l);
    StepMail(s, l, k);
    if l == Serve {
      HandleKeeps(s.(requests := s.requests[1..]), s.requests[0]);
      if s.clients[k].Listing? && t.inbox[k] == [] {
        var n :| 0 <= n < |s.requests| && s.requests[n].List? && s.requests[n].key == k;
        assert n > 0 && t.requests[n - 1] == s.requests[n];
      }
    } else if l == AskIndex(k) {
      assert t.requests[|s.requests|].List? && t.requests[|s.requests|].key == k;
    } else if t.clients[k].Listing? && t.inbox[k] == [] {
      assert s.clients[k].Listing? && s.inbox[k] == [];
      var n :| 0 <= n < |s.requests| && s.requests[n].List? && s.requests[n].key == k;
      assert t.requests[n] == s.requests[n];
    }
  }

  lemma {:induction false} AnswerableRun(s: State, ls: seq<Label>, k: int)
    requires Inv(s) && Schedule(s, ls) && k in s.clients && Answerable(s, k)
    ensures Answerable(After(s, ls), k)
    decreases |ls|
  {
    if ls != [] {
      StepInv(s, ls[0]);
      StepKeys(s, ls[0]);
      AnswerableStep(s, ls[0], k);
      AnswerableRun(Next(s, ls[0]), ls[1..], k);
    }
  }

  // What a client can do next depends on its own state and queue alone, and the server can
  // go on as long as something is left to handle and it has not ended. So a client that waits
  // for an answer finds something to read, or the server something to do.
  lemma NobodyIsStuck(maxClients: nat, s: State, ls: seq<Label>, k: int)
    requires Init(maxClients, s) && Schedule(s, ls) && k in s.clients
    ensures k in After(s, ls).clients
    ensures var t := After(s, ls);
            var c, mail := t.clients[k], Received(s, ls, k) != Sent(s, ls, k);
            && (Enabled(t, Join(k)) <==> c.Fresh?)
            && (Enabled(t, Read(k)) <==> (c.Asking? || Inside(c)) && mail)
            && (Enabled(t, AskIndex(k)) <==> c.Joined?)
            && (forall text :: Enabled(t, Say(k, text)) <==> c.Joined?)
            && (forall other: nat, text :: Enabled(t, Tell(k, other, text)) <==> c.Joined? && other < maxClients)
            && (Enabled(t, Leave(k)) <==> Inside(c))
            && (Enabled(t, Serve) <==> !t.crashed && |Handled(s, ls)| < |AllUttered(ls)|)
            && (c.Asking? || c.Listing? ==> Enabled(t, Read(k)) || t.crashed || Enabled(t, Serve))
  {
    var t := After(s, ls);
    InitInv(maxClients, s);
    RunInv(s, ls);
    RunKeys(s, ls);
    AnswerableRun(s, ls, k);
    MailIsKept(maxClients, s, ls, k);
    NextIsSaid(maxClients, s, ls);
    MailIsLeft(Received(s, ls, k), t.inbox[k], Sent(s, ls, k));
    assert ClientOk(t.slots, t.clients[k], k, Innits(t.requests, k), Stops(t.requests, k), t.inbox[k]);
    if t.clients[k].Listing? && t.inbox[k] != [] {
      assert t.inbox[k][0].NewMessage?;
    }
  }

  lemma MailIsLeft(read: seq<Message>, queue: seq<Message>, sent: seq<Message>)
    requires read + queue == sent
    ensures read != sent <==> queue != []
  {
    assert |read| + |queue| == |sent|;
    if queue == [] {
      assert read + queue == read;
    }
  }
}
