// The socket chat server's client table and the thread that pings it.
// Source: lab10/zad1/server.c
module PingTable {

  datatype Phase = Empty | Starting | Ready     // empty, init, ready

  // who names the connection that occupies the slot; it tells reuses of a slot apart.
  datatype Slot = Slot(phase: Phase, responding: bool, who: nat)

  // mutex is 0 once new_client has returned without unlocking; next counts connections.
  datatype State = State(slots: seq<Slot>, mutex: nat, next: nat)

  datatype Label =
    | Accept                        // a new connection
    | Nickname(i: nat, taken: bool) // the first message of slot i
    | Ping(i: nat)                  // msg_ping
    | Quit(i: nat)                  // msg_disconnect, msg_stop or a hang-up
    | Chat(i: nat)                  // msg_tall, msg_list, msg_tone
    | Round                         // the ping thread wakes up

  ghost predicate Init(maxConn: nat, s: State) {
    && |s.slots| == maxConn && (forall i :: 0 <= i < maxConn ==> s.slots[i].phase == Empty)
    && s.mutex == 1 && s.next == 0
  }

  // The first free slot, or the length of the table.
  function FirstEmpty(slots: seq<Slot>): (i: nat)
    ensures i <= |slots| && (i < |slots| ==> slots[i].phase == Empty) && forall j :: 0 <= j < i ==> slots[j].phase != Empty
  {
    if slots == [] || slots[0].phase == Empty then 0 else 1 + FirstEmpty(slots[1..])
  }

  // Messages arrive from occupied slots only; every handler but Chat takes the mutex.
  predicate Enabled(s: State, l: Label) {
    match l
    case Accept => s.mutex > 0
    case Nickname(i, _) => s.mutex > 0 && i < |s.slots| && s.slots[i].phase == Starting
    case Ping(i) => s.mutex > 0 && i < |s.slots| && s.slots[i].phase == Ready
    case Quit(i) => s.mutex > 0 && i < |s.slots| && s.slots[i].phase != Empty
    case Chat(i) => i < |s.slots| && s.slots[i].phase == Ready
    case Round => s.mutex > 0
  }

  function Delete(x: Slot): Slot { x.(phase := Empty) }

  // One client in a round of the ping thread.
  function Probe(x: Slot): Slot {
    if x.phase == Empty then x
    else if x.responding then x.(responding := false)
    else Delete(x)
  }

  function Probed(slots: seq<Slot>): (r: seq<Slot>)
    ensures |r| == |slots| && forall i :: 0 <= i < |r| ==> r[i] == Probe(slots[i])
  {
    seq(|slots|, i requires 0 <= i < |slots| => Probe(slots[i]))
  }

  function Next(s: State, l: Label): State
    requires Enabled(s, l)
  {
    match l
    case Accept =>
      var i := FirstEmpty(s.slots);
      if i == |s.slots| then s.(mutex := s.mutex - 1)
      else s.(slots := s.slots[i := Slot(Starting, true, s.next)], next := s.next + 1)
    case Nickname(i, taken) => s.(slots := s.slots[i := if taken then Delete(s.slots[i]) else s.slots[i].(phase := Ready)])
    case Ping(i) => s.(slots := s.slots[i := s.slots[i].(responding := true)])
    case Quit(i) => s.(slots := s.slots[i := Delete(s.slots[i])])
    case Chat(_) => s
    case Round => s.(slots := Probed(s.slots))
  }

  ghost predicate Schedule(s: State, ls: seq<Label>)
    decreases |ls|
  {
    ls == [] || (Enabled(s, ls[0]) && Schedule(Next(s, ls[0]), ls[1..]))
  }

  ghost function After(s: State, ls: seq<Label>): State
    requires Schedule(s, ls)
    decreases |ls|
  {
    if ls == [] then s else After(Next(s, ls[0]), ls[1..])
  }

  // ---------------------------------------------------------------- occupants

  // Connection c sits in slot i.
  ghost predicate Sits(s: State, c: nat, i: nat) {
    i < |s.slots| && s.slots[i].phase != Empty && s.slots[i].who == c
  }

  // Slots hold different connections, all of them already counted.
  ghost predicate Inv(s: State) {
    && (forall i :: 0 <= i < |s.slots| && s.slots[i].phase != Empty ==> s.slots[i].who < s.next)
    && (forall i, j :: 0 <= i < j < |s.slots| && s.slots[i].phase != Empty && s.slots[j].phase != Empty ==>
          s.slots[i].who != s.slots[j].who)
  }

  lemma StepInv(s: State, l: Label)
    requires Inv(s) && Enabled(s, l)
    ensures Inv(Next(s, l)) && |Next(s, l).slots| == |s.slots| && Next(s, l).next >= s.next
  {
  }

  // A connection keeps its slot, and once gone never comes back.
  lemma {:induction false} NoReturn(s: State, ls: seq<Label>, c: nat, i: nat)
    requires Inv(s) && Schedule(s, ls) && c < s.next
    requires Sits(After(s, ls), c, i)
    ensures Sits(s, c, i)
    decreases |ls|
  {
    if ls != [] {
      StepInv(s, ls[0]);
      NoReturn(Next(s, ls[0]), ls[1..], c, i);
    }
  }

  lemma {:induction false} RunInv(s: State, ls: seq<Label>)
    requires Inv(s) && Schedule(s, ls)
    ensures Inv(After(s, ls))
    decreases |ls|
  {
    if ls != [] {
      StepInv(s, ls[0]);
      RunInv(Next(s, ls[0]), ls[1..]);
    }
  }

  // ---------------------------------------------------------------- between two rounds

  // A ready-state msg_ping of connection c in slot i is handled during ls.
  ghost predicate Pings(s: State, ls: seq<Label>, c: nat, i: nat)
    requires Schedule(s, ls)
    decreases |ls|
  {
    ls != [] && ((ls[0] == Ping(i) && Sits(s, c, i)) || Pings(Next(s, ls[0]), ls[1..], c, i))
  }

  lemma {:induction false} RespondingExactly(s: State, ls: seq<Label>, c: nat, i: nat)
    requires Inv(s) && c < s.next && Schedule(s, ls) && Round !in ls
    requires Sits(s, c, i) && Sits(After(s, ls), c, i)
    ensures After(s, ls).slots[i].responding <==> s.slots[i].responding || Pings(s, ls, c, i)
    decreases |ls|
  {
    if ls != [] {
      StepInv(s, ls[0]);
      NoReturn(Next(s, ls[0]), ls[1..], c, i);
      RespondingExactly(Next(s, ls[0]), ls[1..], c, i);
    }
  }

  // An occupant that stays until round k + 1 survives it exactly when it has pinged in the
  // ready state since round k.
  lemma SurvivesExactly(s: State, between: seq<Label>, c: nat, i: nat)
    requires Inv(s) && Enabled(s, Round) && c < s.next
    requires Schedule(Next(s, Round), between) && Round !in between
    requires var t := After(Next(s, Round), between); Enabled(t, Round) && Sits(t, c, i)
    requires Sits(Next(s, Round), c, i)
    ensures var t := After(Next(s, Round), between);
            Sits(Next(t, Round), c, i) <==> Pings(Next(s, Round), between, c, i)
  {
    StepInv(s, Round);
    RespondingExactly(Next(s, Round), between, c, i);
  }

  // An occupant that does not ping between two rounds is gone by the end of the second,
  // and stays gone.
  lemma SilentIsGone(s: State, between: seq<Label>, later: seq<Label>, c: nat, i: nat)
    requires Inv(s) && Enabled(s, Round) && c < s.next && Sits(s, c, i)
    requires Schedule(Next(s, Round), between) && Round !in between && !Pings(Next(s, Round), between, c, i)
    requires var t := After(Next(s, Round), between); Enabled(t, Round) && Schedule(Next(t, Round), later)
    ensures var t := After(Next(s, Round), between); !Sits(After(Next(t, Round), later), c, i)
  {
    var s1 := Next(s, Round);
    var t := After(s1, between);
    StepInv(s, Round);
    RunInv(s1, between);
    NextGrows(s1, between);
    StepInv(t, Round);
    if Sits(After(Next(t, Round), later), c, i) {
      NoReturn(Next(t, Round), later, c, i);
      NoReturn(s1, between, c, i);
      SurvivesExactly(s, between, c, i);
    }
  }

  lemma {:induction false} NextGrows(s: State, ls: seq<Label>)
    requires Schedule(s, ls)
    ensures After(s, ls).next >= s.next
    decreases |ls|
  {
    if ls != [] {
      NextGrows(Next(s, ls[0]), ls[1..]);
    }
  }

  // ---------------------------------------------------------------- whole runs

  // Connection c pings in the ready state after every round before the next one; alive says
  // that it has been accepted or has pinged since the last round.
  ghost predicate Faithful(s: State, ls: seq<Label>, c: nat, i: nat, alive: bool)
    requires Schedule(s, ls)
    decreases |ls|
  {
    ls == [] || !Sits(s, c, i) || (
      && (ls[0] == Round ==> alive)
      && Faithful(Next(s, ls[0]), ls[1..], c, i, if ls[0] == Round then false else alive || ls[0] == Ping(i)))
  }

  // Neither its nickname is refused nor does it leave.
  ghost predicate Remains(s: State, ls: seq<Label>, i: nat)
    requires Schedule(s, ls)
    decreases |ls|
  {
    ls == [] || (ls[0] != Nickname(i, true) && ls[0] != Quit(i) && Remains(Next(s, ls[0]), ls[1..], i))
  }

  lemma {:induction false} FaithfulStays(s: State, ls: seq<Label>, c: nat, i: nat, alive: bool)
    requires Inv(s) && Schedule(s, ls) && Sits(s, c, i) && c < s.next
    requires alive ==> s.slots[i].responding
    requires Faithful(s, ls, c, i, alive) && Remains(s, ls, i)
    ensures Sits(After(s, ls), c, i)
    decreases |ls|
  {
    if ls != [] {
      StepInv(s, ls[0]);
      FaithfulStays(Next(s, ls[0]), ls[1..], c, i, if ls[0] == Round then false else alive || ls[0] == Ping(i));
    }
  }

  // A connection that pings between every two rounds is never evicted.
  lemma NeverEvicted(maxConn: nat, s: State, before: seq<Label>, ls: seq<Label>)
    requires Init(maxConn, s) && Schedule(s, before)
    requires var t := After(s, before); Enabled(t, Accept) && FirstEmpty(t.slots) < |t.slots|
    requires var t := After(s, before); var i, joined := FirstEmpty(t.slots), Next(t, Accept);
             Schedule(joined, ls) && Faithful(joined, ls, t.next, i, true) && Remains(joined, ls, i)
    ensures var t := After(s, before); var i, joined := FirstEmpty(t.slots), Next(t, Accept);
            Sits(After(joined, ls), t.next, i)
  {
    var t := After(s, before);
    RunInv(s, before);
    StepInv(t, Accept);
    FaithfulStays(Next(t, Accept), ls, t.next, FirstEmpty(t.slots), true);
  }

  // ---------------------------------------------------------------- a connection's fate

  ghost predicate TableFull(slots: seq<Slot>) {
    forall i :: 0 <= i < |slots| ==> slots[i].phase != Empty
  }

  // Out of the table, or in its slot: ready once its nickname has been accepted, alive if it
  // has pinged since the last round.
  datatype Fate = Out | In(ready: bool, alive: bool)

  // What becomes of the connection in slot i, told from the events alone.
  function FateStep(f: Fate, l: Label, i: nat): Fate {
    match f
    case Out => Out
    case In(ready, alive) =>
      match l
      case Nickname(j, taken) => if j != i then f else if taken then Out else In(true, alive)
      case Ping(j) => if j == i && ready then In(true, true) else f
      case Quit(j) => if j == i then Out else f
      case Round => if alive then In(ready, false) else Out
      case _ => f
  }

  function FateAfter(f: Fate, ls: seq<Label>, i: nat): Fate
    decreases |ls|
  {
    if ls == [] then f else FateAfter(FateStep(f, ls[0], i), ls[1..], i)
  }

  // Connection c, once in slot i, has met fate f.
  ghost predicate Met(s: State, c: nat, i: nat, f: Fate) {
    && (forall j :: Sits(s, c, j) <==> j == i && f.In?)
    && (f.In? ==> Sits(s, c, i) && s.slots[i] == Slot(if f.ready then Ready else Starting, f.alive, c))
  }

  lemma FateOne(s: State, l: Label, c: nat, i: nat, f: Fate)
    requires Inv(s) && Enabled(s, l) && c < s.next && Met(s, c, i, f)
    ensures Met(Next(s, l), c, i, FateStep(f, l, i))
  {
    var t := Next(s, l);
    forall j
      ensures Sits(t, c, j) <==> j == i && FateStep(f, l, i).In?
    {
      assert Sits(s, c, j) <==> j == i && f.In?;
    }
  }

  lemma {:induction false} FateRun(s: State, ls: seq<Label>, c: nat, i: nat, f: Fate)
    requires Inv(s) && Schedule(s, ls) && c < s.next && Met(s, c, i, f)
    ensures Met(After(s, ls), c, i, FateAfter(f, ls, i))
    decreases |ls|
  {
    if ls != [] {
      StepInv(s, ls[0]);
      FateOne(s, ls[0], c, i, f);
      FateRun(Next(s, ls[0]), ls[1..], c, i, FateStep(f, ls[0], i));
    }
  }

  // What a connection with this fate can still do while the mutex is not lost.
  ghost predicate MayAct(s: State, i: nat, f: Fate) {
    && (Enabled(s, Ping(i)) <==> f.In? && f.ready) && (Enabled(s, Chat(i)) <==> f.In? && f.ready)
    && (forall taken :: Enabled(s, Nickname(i, taken)) <==> f.In? && !f.ready)
    && (Enabled(s, Quit(i)) <==> f.In?)
  }

  // A new connection gets the first slot in which nobody sits. Ever after, the events of its
  // slot and the rounds alone decide whether it sits there, is ready and counts as alive: a
  // refused nickname, a quit, or a round without a ping since the round before end it for
  // good, and nothing else does.
  lemma FateExactly(maxConn: nat, s: State, before: seq<Label>, ls: seq<Label>)
    requires Init(maxConn, s) && Schedule(s, before)
    requires var t := After(s, before); Enabled(t, Accept) && !TableFull(t.slots) && Schedule(Next(t, Accept), ls)
    ensures var t := After(s, before);
            var i, f, u := FirstEmpty(t.slots), FateAfter(In(false, true), ls, FirstEmpty(t.slots)), After(Next(t, Accept), ls);
            && (forall j :: 0 <= j < i ==> j < |t.slots| && Sits(t, t.slots[j].who, j)) && (forall c :: !Sits(t, c, i))
            && Met(u, t.next, i, f)
            && (f.In? && u.mutex == 1 ==> MayAct(u, i, f))
  {
    var t := After(s, before);
    var i, joined := FirstEmpty(t.slots), Next(t, Accept);
    RunInv(s, before);
    StepInv(t, Accept);
    assert i < |t.slots|;
    forall j
      ensures Sits(joined, t.next, j) <==> j == i
    {
    }
    FateRun(joined, ls, t.next, i, In(false, true));
  }

  // ---------------------------------------------------------------- a full table

  // new_client leaves the mutex taken exactly when it finds the table full.
  lemma AcceptLocksExactly(s: State)
    requires Enabled(s, Accept)
    ensures Next(s, Accept).mutex < s.mutex <==> TableFull(s.slots)
  {
  }

  // Some connection of ls arrives when the table is full.
  ghost predicate MeetsFull(s: State, ls: seq<Label>)
    requires Schedule(s, ls)
    decreases |ls|
  {
    ls != [] && ((ls[0] == Accept && TableFull(s.slots)) || MeetsFull(Next(s, ls[0]), ls[1..]))
  }

  // Once the mutex is lost nobody is ever accepted, answered, evicted or deleted again.
  lemma {:induction false} FrozenForever(s: State, ls: seq<Label>)
    requires s.mutex == 0 && Schedule(s, ls)
    ensures After(s, ls) == s && forall k :: 0 <= k < |ls| ==> ls[k].Chat?
    decreases |ls|
  {
    if ls != [] {
      FrozenForever(Next(s, ls[0]), ls[1..]);
      forall k | 0 <= k < |ls|
        ensures ls[k].Chat?
      {
        if k > 0 {
          assert ls[k] == ls[1..][k - 1];
        }
      }
    }
  }

  lemma {:induction false} MutexAfter(s: State, ls: seq<Label>)
    requires s.mutex == 1 && Schedule(s, ls)
    ensures After(s, ls).mutex == if MeetsFull(s, ls) then 0 else 1
    decreases |ls|
  {
    if ls != [] {
      var t := Next(s, ls[0]);
      if ls[0] == Accept {
        AcceptLocksExactly(s);
      }
      if t.mutex == 1 {
        MutexAfter(t, ls[1..]);
      } else {
        FrozenForever(t, ls[1..]);
      }
    }
  }

  // Over whole runs new_client leaves the mutex taken exactly when a connection finds the
  // table full, and from then on only chat messages are handled.
  lemma LockedExactly(maxConn: nat, s: State, ls: seq<Label>, later: seq<Label>)
    requires Init(maxConn, s) && Schedule(s, ls) && Schedule(After(s, ls), later)
    ensures After(s, ls).mutex == 0 <==> MeetsFull(s, ls)
    ensures !MeetsFull(s, ls) ==> Enabled(After(s, ls), Accept) && Enabled(After(s, ls), Round)
    ensures MeetsFull(s, ls) ==> After(After(s, ls), later) == After(s, ls) && forall k :: 0 <= k < |later| ==> later[k].Chat?
  {
    MutexAfter(s, ls);
    if MeetsFull(s, ls) {
      FrozenForever(After(s, ls), later);
    }
  }

  lemma {:induction false} FirstEmptyNext(slots: seq<Slot>, x: Slot)
    requires FirstEmpty(slots) < |slots| && x.phase != Empty
    ensures FirstEmpty(slots[FirstEmpty(slots) := x]) > FirstEmpty(slots)
  {
    if slots[0].phase == Empty {
      assert slots[0 := x][1..] == slots[1..];
    } else {
      var i := FirstEmpty(slots[1..]);
      assert slots[i + 1 := x][1..] == slots[1..][i := x];
      FirstEmptyNext(slots[1..], x);
    }
  }

  // Connections that arrive one after the other, until one finds no slot.
  lemma {:induction false} FillUp(s: State) returns (ls: seq<Label>)
    requires s.mutex == 1
    ensures Schedule(s, ls) && After(s, ls).mutex == 0
    decreases |s.slots| - FirstEmpty(s.slots)
  {
    var t := Next(s, Accept);
    if t.mutex == 0 {
      ls := [];
    } else {
      FirstEmptyNext(s.slots, t.slots[FirstEmpty(s.slots)]);
      ls := FillUp(t);
    }
    var rest := ls;
    ls := [Accept] + rest;
    assert ls[1..] == rest;
  }

  // Whatever the size of the table, some run loses the mutex for good.
  lemma LockReachable(maxConn: nat, s: State) returns (ls: seq<Label>)
    requires Init(maxConn, s)
    ensures Schedule(s, ls) && After(s, ls).mutex == 0 && MeetsFull(s, ls)
    ensures forall later :: Schedule(After(s, ls), later) ==> After(After(s, ls), later) == After(s, ls)
  {
    ls := FillUp(s);
    MutexAfter(s, ls);
    forall later | Schedule(After(s, ls), later)
      ensures After(After(s, ls), later) == After(s, ls)
    {
      FrozenForever(After(s, ls), later);
    }
  }
}
