// What happens in the salon over a whole day, told from the steps alone, and which days are
// possible.
// Source: lab7/zad1/v1/{client,barber,simulation}.c
module BarberDays {
  import opened Totals
  import opened StringQueue
  import opened Barber

  // ---------------------------------------------------------------- orders and haircuts

  // The client and the code of a queue_push.
  function OrderOf(s: State, l: Label): seq<(nat, CChar)>
    requires Enabled(s, l)
  {
    if l.Client? && s.clients[l.i] == Ordering then [(l.i, l.code)] else []
  }

  // The barber and the code of a queue_pop.
  function HaircutOf(s: State, l: Label): seq<(nat, CChar)>
    requires Enabled(s, l)
  {
    if l.Barber? && s.barbers[l.j] == Fetching then [(l.j, PopByte(s.buffer))] else []
  }

  ghost function Orders(s: State, ls: seq<Label>): seq<(nat, CChar)>
    requires Schedule(s, ls)
    decreases |ls|
  {
    if ls == [] then [] else OrderOf(s, ls[0]) + Orders(Next(s, ls[0]), ls[1..])
  }

  ghost function Haircuts(s: State, ls: seq<Label>): seq<(nat, CChar)>
    requires Schedule(s, ls)
    decreases |ls|
  {
    if ls == [] then [] else HaircutOf(s, ls[0]) + Haircuts(Next(s, ls[0]), ls[1..])
  }

  function Codes(es: seq<(nat, CChar)>): seq<CChar> {
    if es == [] then [] else [es[0].1] + Codes(es[1..])
  }

  lemma {:induction false} CodesConcat(a: seq<(nat, CChar)>, b: seq<(nat, CChar)>)
    ensures Codes(a + b) == Codes(a) + Codes(b)
  {
    if a == [] {
      assert a + b == b;
    } else {
      assert (a + b)[1..] == a[1..] + b;
      CodesConcat(a[1..], b);
    }
  }

  function CountOf(es: seq<(nat, CChar)>, i: nat): nat {
    if es == [] then 0 else (if es[0].0 == i then 1 else 0) + CountOf(es[1..], i)
  }

  // The history in the state is what has happened.
  lemma {:induction false} HistoryIsTrue(s: State, ls: seq<Label>)
    requires Schedule(s, ls)
    ensures After(s, ls).pushed == s.pushed + Codes(Orders(s, ls))
    ensures After(s, ls).popped == s.popped + Codes(Haircuts(s, ls))
    decreases |ls|
  {
    if ls != [] {
      var t, rest := Next(s, ls[0]), ls[1..];
      HistoryStep(s, ls[0]);
      HistoryIsTrue(t, rest);
      CodesConcat(OrderOf(s, ls[0]), Orders(t, rest));
      Assoc(s.pushed, Codes(OrderOf(s, ls[0])), Codes(Orders(t, rest)));
      CodesConcat(HaircutOf(s, ls[0]), Haircuts(t, rest));
      Assoc(s.popped, Codes(HaircutOf(s, ls[0])), Codes(Haircuts(t, rest)));
    }
  }

  lemma HistoryStep(s: State, l: Label)
    requires Enabled(s, l)
    ensures Next(s, l).pushed == s.pushed + Codes(OrderOf(s, l))
    ensures Next(s, l).popped == s.popped + Codes(HaircutOf(s, l))
  {
  }

  // Every code ordered is one that can be drawn.
  lemma {:induction false} CodesInRange(s: State, ls: seq<Label>)
    requires Schedule(s, ls)
    ensures forall e :: e in Orders(s, ls) ==> 0 <= e.1 < 128
    decreases |ls|
  {
    if ls != [] {
      CodesInRange(Next(s, ls[0]), ls[1..]);
    }
  }

  // A client orders once, and only before it calls a barber.
  lemma {:induction false} OneOrderEach(s: State, ls: seq<Label>, i: nat)
    requires Schedule(s, ls) && i < |s.clients|
    ensures |After(s, ls).clients| == |s.clients|
    ensures CountOf(Orders(s, ls), i) + HasPushed(s.clients[i]) == HasPushed(After(s, ls).clients[i])
    decreases |ls|
  {
    if ls != [] {
      OneOrderEach(Next(s, ls[0]), ls[1..], i);
      assert OrderOf(s, ls[0]) == [] ==> Orders(s, ls) == Orders(Next(s, ls[0]), ls[1..]);
      assert OrderOf(s, ls[0]) != [] ==> Orders(s, ls)[1..] == Orders(Next(s, ls[0]), ls[1..]);
    }
  }

  // Over every run the nonzero codes ordered are cut or queued in their order, and all codes
  // are cut or pending.
  lemma OrdersAreServed(p: Params, s: State, ls: seq<Label>)
    requires Init(p, s) && Roomy(p) && Schedule(s, ls)
    ensures var t, ordered, cut := After(s, ls), Codes(Orders(s, ls)), Codes(Haircuts(s, ls));
            && 0 in t.buffer && NonZero(cut) + Text(t.buffer) == NonZero(ordered)
            && |Text(t.buffer)| <= Pending(t)
            && multiset(cut) + multiset(Text(t.buffer)) + multiset{}[0 := Pending(t) - |Text(t.buffer)|] == multiset(ordered)
            && forall e :: e in Orders(s, ls) ==> 0 <= e.1 < 128
  {
    HistoryFromInit(p, s, ls);
    HaircutsConserved(p, s, ls);
    CodesInRange(s, ls);
  }

  lemma HistoryFromInit(p: Params, s: State, ls: seq<Label>)
    requires Init(p, s) && Schedule(s, ls)
    ensures After(s, ls).pushed == Codes(Orders(s, ls)) && After(s, ls).popped == Codes(Haircuts(s, ls))
  {
    HistoryIsTrue(s, ls);
    assert [] + Codes(Orders(s, ls)) == Codes(Orders(s, ls));
    assert [] + Codes(Haircuts(s, ls)) == Codes(Haircuts(s, ls));
  }

  // Each client orders at most once, and exactly once when the day is over; then as many
  // codes have been cut as ordered, and in a roomy buffer the same ones.
  lemma EverybodyIsServed(p: Params, s: State, ls: seq<Label>)
    requires Init(p, s) && Schedule(s, ls)
    ensures var t := After(s, ls);
            && |t.clients| == p.clients
            && (forall i :: 0 <= i < p.clients ==> CountOf(Orders(s, ls), i) == HasPushed(t.clients[i]))
    ensures (forall l :: !Enabled(After(s, ls), l)) ==>
              var ordered, cut := Codes(Orders(s, ls)), Codes(Haircuts(s, ls));
              && (forall i :: 0 <= i < p.clients ==> CountOf(Orders(s, ls), i) == 1)
              && |cut| == |ordered| == p.clients && (Roomy(p) ==> multiset(cut) == multiset(ordered))
  {
    HistoryFromInit(p, s, ls);
    RunCounts(p, s, ls);
    MaximalRuns(p, s, ls);
  }

  lemma RunCounts(p: Params, s: State, ls: seq<Label>)
    requires Init(p, s) && Schedule(s, ls)
    ensures var t := After(s, ls);
            |t.clients| == p.clients && forall i :: 0 <= i < p.clients ==> CountOf(Orders(s, ls), i) == HasPushed(t.clients[i])
  {
    InitInv(p, s);
    RunSteady(p, s, ls);
    forall i | 0 <= i < p.clients
      ensures CountOf(Orders(s, ls), i) == HasPushed(After(s, ls).clients[i])
    {
      OneOrderEach(s, ls, i);
    }
  }

  // ---------------------------------------------------------------- possible days

  lemma PrependDay(s: State, l: Label, rest: seq<Label>) returns (ls: seq<Label>)
    requires Enabled(s, l) && Schedule(Next(s, l), rest)
    ensures Schedule(s, ls) && After(s, ls) == After(Next(s, l), rest)
    ensures Orders(s, ls) == OrderOf(s, l) + Orders(Next(s, l), rest)
    ensures Haircuts(s, ls) == HaircutOf(s, l) + Haircuts(Next(s, l), rest)
  {
    ls := [l] + rest;
    assert ls[1..] == rest;
  }

  // A step with neither an order nor a haircut.
  lemma PrependQuiet(s: State, l: Label, rest: seq<Label>) returns (ls: seq<Label>)
    requires Enabled(s, l) && Schedule(Next(s, l), rest) && OrderOf(s, l) == [] && HaircutOf(s, l) == []
    ensures Schedule(s, ls) && After(s, ls) == After(Next(s, l), rest)
    ensures Orders(s, ls) == Orders(Next(s, l), rest) && Haircuts(s, ls) == Haircuts(Next(s, l), rest)
  {
    ls := PrependDay(s, l, rest);
  }

  lemma {:induction false} ConcatDays(s: State, a: seq<Label>, b: seq<Label>)
    requires Schedule(s, a) && Schedule(After(s, a), b)
    ensures Schedule(s, a + b) && After(s, a + b) == After(After(s, a), b)
    ensures Orders(s, a + b) == Orders(s, a) + Orders(After(s, a), b)
    ensures Haircuts(s, a + b) == Haircuts(s, a) + Haircuts(After(s, a), b)
    decreases |a|
  {
    if a == [] {
      assert a + b == b;
    } else {
      var t := Next(s, a[0]);
      assert (a + b)[0] == a[0] && (a + b)[1..] == a[1..] + b;
      ConcatDays(t, a[1..], b);
      Assoc(OrderOf(s, a[0]), Orders(t, a[1..]), Orders(After(s, a), b));
      Assoc(HaircutOf(s, a[0]), Haircuts(t, a[1..]), Haircuts(After(s, a), b));
    }
  }

  lemma Assoc<T>(a: seq<T>, b: seq<T>, c: seq<T>)
    ensures a + (b + c) == a + b + c
  {
  }

  // Everybody who is here is at rest and all chairs are free.
  ghost predicate Idle(p: Params, s: State) {
    && p.Valid() && |s.clients| == p.clients && |s.barbers| == p.barbers
    && s.semQueue == p.chairs && s.semChairs == 0 && s.semBarbers == 0 && s.mutex == 1 && 0 in s.buffer
    && (forall j :: 0 <= j < |s.barbers| ==> s.barbers[j] == Asleep)
  }

  // Client i sits down, orders and calls.
  lemma ComesIn(s: State, i: nat, code: CChar) returns (ls: seq<Label>)
    requires i < |s.clients| && s.clients[i] == Arriving && 0 <= code
    requires s.semQueue > 0 && s.mutex == 1 && 0 in s.buffer
    ensures Schedule(s, ls) && Orders(s, ls) == [(i, code)] && Haircuts(s, ls) == []
    ensures After(s, ls) == CameIn(s, i, code)
  {
    var l := Client(i, code);
    var s2 := Next(Next(s, l), l);
    ls := OrdersAndCalls(s2, i, code);
    assert After(s2, ls).clients == s.clients[i := Waiting];
    assert After(s2, ls) == CameIn(s, i, code);
    ls := PrependQuiet(Next(s, l), l, ls);
    ls := PrependQuiet(s, l, ls);
  }

  function CameIn(s: State, i: nat, code: CChar): State
    requires i < |s.clients| && s.semQueue > 0 && 0 in s.buffer
  {
    s.(semQueue := s.semQueue - 1, semBarbers := s.semBarbers + 1, clients := s.clients[i := Waiting],
       buffer := Pushed(s.buffer, code), pushed := s.pushed + [code])
  }

  lemma OrdersAndCalls(s: State, i: nat, code: CChar) returns (ls: seq<Label>)
    requires i < |s.clients| && s.clients[i] == Ordering && 0 <= code && 0 in s.buffer
    ensures Schedule(s, ls) && Orders(s, ls) == [(i, code)] && Haircuts(s, ls) == []
    ensures After(s, ls) == s.(
              mutex := s.mutex + 1, semBarbers := s.semBarbers + 1, clients := s.clients[i := Waiting],
              buffer := Pushed(s.buffer, code), pushed := s.pushed + [code])
  {
    var l := Client(i, code);
    var s1 := Next(s, l);
    var s2 := Next(s1, l);
    assert Next(s2, l).clients == s.clients[i := Waiting];
    ls := PrependQuiet(s2, l, []);
    ls := PrependQuiet(s1, l, ls);
    ls := PrependDay(s, l, ls);
  }

  // Barber j wakes up, cuts and goes back to sleep.
  lemma Cuts(s: State, j: nat) returns (ls: seq<Label>)
    requires j < |s.barbers| && s.barbers[j] == Asleep && s.semBarbers > 0 && 0 in s.buffer
    ensures Schedule(s, ls) && Orders(s, ls) == [] && Haircuts(s, ls) == [(j, PopByte(s.buffer))]
    ensures After(s, ls) == WasCut(s) && 0 in WasCut(s).buffer
  {
    PopText(s.buffer, 0);
    var l := Label.Barber(j, 0);
    var s1 := Next(s, l);
    ls := PopsAndCleans(s1, j);
    assert After(s1, ls).barbers == s.barbers;
    assert After(s1, ls) == WasCut(s);
    ls := PrependQuiet(s, l, ls);
  }

  function WasCut(s: State): State
    requires s.semBarbers > 0 && 0 in s.buffer
  {
    s.(semBarbers := s.semBarbers - 1, semChairs := s.semChairs + 1, semQueue := s.semQueue + 1,
       buffer := Popped(s.buffer, 0), popped := s.popped + [PopByte(s.buffer)])
  }

  lemma PopsAndCleans(s: State, j: nat) returns (ls: seq<Label>)
    requires j < |s.barbers| && s.barbers[j] == Fetching && 0 in s.buffer
    ensures Schedule(s, ls) && Orders(s, ls) == [] && Haircuts(s, ls) == [(j, PopByte(s.buffer))]
    ensures After(s, ls) == s.(
              semChairs := s.semChairs + 1, semQueue := s.semQueue + 1, barbers := s.barbers[j := Asleep],
              buffer := Popped(s.buffer, 0), popped := s.popped + [PopByte(s.buffer)])
  {
    PopText(s.buffer, 0);
    var l := Label.Barber(j, 0);
    var s1 := Next(s, l);
    var rest := CleansUp(s1, j);
    assert After(s1, rest).barbers == s.barbers[j := Asleep];
    ls := PrependDay(s, l, rest);
    assert Haircuts(s, ls) == [(j, PopByte(s.buffer))] + [];
  }

  lemma CleansUp(s: State, j: nat) returns (ls: seq<Label>)
    requires j < |s.barbers| && s.barbers[j] == Cutting && 0 in s.buffer
    ensures Schedule(s, ls) && Orders(s, ls) == [] && Haircuts(s, ls) == []
    ensures After(s, ls) == s.(semChairs := s.semChairs + 1, semQueue := s.semQueue + 1, barbers := s.barbers[j := Asleep])
  {
    var l := Label.Barber(j, 0);
    var s1 := Next(s, l);
    var s2 := Next(s1, l);
    assert Next(s2, l).barbers == s.barbers[j := Asleep];
    ls := PrependQuiet(s2, l, []);
    ls := PrependQuiet(s1, l, ls);
    ls := PrependQuiet(s, l, ls);
  }

  // One client on its own, served by barber j.
  lemma OneVisit(p: Params, s: State, i: nat, j: nat, code: CChar) returns (ls: seq<Label>)
    requires Idle(p, s) && i < p.clients && s.clients[i] == Arriving && j < p.barbers && 0 <= code
    ensures Schedule(s, ls) && Idle(p, After(s, ls)) && After(s, ls).clients == s.clients[i := Done]
    ensures Orders(s, ls) == [(i, code)] && |Haircuts(s, ls)| == 1 && Haircuts(s, ls)[0].0 == j
  {
    PushText(s.buffer, code);
    var come := ComesIn(s, i, code);
    var t := CameIn(s, i, code);
    var rest := IsServed(p, t, i, j, code);
    ConcatDays(s, come, rest);
    ls := come + rest;
    assert t.clients[i := Done] == s.clients[i := Done];
  }

  // The rest of the visit.
  lemma IsServed(p: Params, s: State, i: nat, j: nat, code: CChar) returns (ls: seq<Label>)
    requires p.Valid() && |s.clients| == p.clients && |s.barbers| == p.barbers
    requires s.semQueue + 1 == p.chairs && s.semChairs == 0 && s.semBarbers == 1 && s.mutex == 1 && 0 in s.buffer
    requires forall k :: 0 <= k < |s.barbers| ==> s.barbers[k] == Asleep
    requires i < p.clients && s.clients[i] == Waiting && j < p.barbers
    ensures Schedule(s, ls) && Idle(p, After(s, ls)) && After(s, ls).clients == s.clients[i := Done]
    ensures Orders(s, ls) == [] && Haircuts(s, ls) == [(j, PopByte(s.buffer))]
  {
    var cut := Cuts(s, j);
    var go := Goes(WasCut(s), i, code);
    ConcatDays(s, cut, go);
    ls := cut + go;
    assert Orders(s, ls) == [] + [] && Haircuts(s, ls) == [(j, PopByte(s.buffer))] + [];
  }

  lemma Goes(s: State, i: nat, code: CChar) returns (ls: seq<Label>)
    requires i < |s.clients| && s.clients[i] == Waiting && s.semChairs > 0
    ensures Schedule(s, ls) && Orders(s, ls) == [] && Haircuts(s, ls) == []
    ensures After(s, ls) == s.(semChairs := s.semChairs - 1, clients := s.clients[i := Done])
  {
    ls := PrependQuiet(s, Client(i, code), []);
  }

  ghost predicate Visits(p: Params, who: seq<nat>, hands: seq<nat>, codes: seq<CChar>) {
    && |who| == |hands| == |codes|
    && (forall k :: 0 <= k < |who| ==> who[k] < p.clients && hands[k] < p.barbers && 0 <= codes[k])
    && (forall k, n :: 0 <= k < n < |who| ==> who[k] != who[n])
  }

  lemma {:induction false} DayFrom(p: Params, s: State, who: seq<nat>, hands: seq<nat>, codes: seq<CChar>) returns (ls: seq<Label>)
    requires Idle(p, s) && Visits(p, who, hands, codes) && forall k :: 0 <= k < |who| ==> s.clients[who[k]] == Arriving
    ensures Schedule(s, ls) && |Orders(s, ls)| == |Haircuts(s, ls)| == |who|
    ensures forall k :: 0 <= k < |who| ==> Orders(s, ls)[k] == (who[k], codes[k]) && Haircuts(s, ls)[k].0 == hands[k]
    decreases |who|
  {
    if |who| == 0 {
      ls := [];
    } else {
      var first := OneVisit(p, s, who[0], hands[0], codes[0]);
      var t := After(s, first);
      var rest := DayFrom(p, t, who[1..], hands[1..], codes[1..]);
      ConcatDays(s, first, rest);
      ls := first + rest;
      forall k | 0 <= k < |who|
        ensures Orders(s, ls)[k] == (who[k], codes[k]) && Haircuts(s, ls)[k].0 == hands[k]
      {
        if k > 0 {
          assert Orders(t, rest)[k - 1] == (who[1..][k - 1], codes[1..][k - 1]) && Haircuts(t, rest)[k - 1].0 == hands[1..][k - 1];
        }
      }
    }
  }

  // Clients can come in any order, order any codes, and be served by any barbers.
  lemma AnyDay(p: Params, s: State, who: seq<nat>, hands: seq<nat>, codes: seq<CChar>) returns (ls: seq<Label>)
    requires Init(p, s) && Visits(p, who, hands, codes)
    ensures Schedule(s, ls) && |Orders(s, ls)| == |Haircuts(s, ls)| == |who|
    ensures forall k :: 0 <= k < |who| ==> Orders(s, ls)[k] == (who[k], codes[k]) && Haircuts(s, ls)[k].0 == hands[k]
  {
    assert s.buffer[0] in s.buffer;
    ls := DayFrom(p, s, who, hands, codes);
  }

  // ---------------------------------------------------------------- everybody at work

  // The first m clients wait and nobody else has moved.
  ghost predicate Queued(p: Params, s: State, m: nat) {
    && m <= p.chairs && s.semQueue == p.chairs - m && s.mutex == 1 && s.semBarbers == m && 0 in s.buffer
    && |s.clients| == p.clients && (forall i :: 0 <= i < p.clients ==> s.clients[i] == if i < m then Waiting else Arriving)
    && |s.barbers| == p.barbers && (forall j :: 0 <= j < p.barbers ==> s.barbers[j] == Asleep)
  }

  lemma {:induction false} QueueUp(p: Params, s: State, m: nat, n: nat) returns (ls: seq<Label>)
    requires Queued(p, s, m) && m <= n <= p.Peak()
    ensures Schedule(s, ls) && Queued(p, After(s, ls), n)
    decreases n - m
  {
    if m == n {
      ls := [];
    } else {
      PushText(s.buffer, 0);
      var first := ComesIn(s, m, 0);
      var rest := QueueUp(p, After(s, first), m + 1, n);
      ConcatDays(s, first, rest);
      ls := first + rest;
    }
  }

  // The first j barbers have been woken.
  ghost predicate Woken(s: State, j: nat) {
    j <= |s.barbers| && forall k :: 0 <= k < |s.barbers| ==> s.barbers[k] == if k < j then Fetching else Asleep
  }

  lemma {:induction false} WakeUp(s: State, j: nat, n: nat) returns (ls: seq<Label>)
    requires Woken(s, j) && j <= n <= |s.barbers| && s.semBarbers >= n - j
    ensures Schedule(s, ls) && Woken(After(s, ls), n)
    decreases n - j
  {
    if j == n {
      ls := [];
    } else {
      ls := WakeUp(Next(s, Label.Barber(j, 0)), j + 1, n);
      ls := PrependDay(s, Label.Barber(j, 0), ls);
    }
  }

  lemma {:induction false} AtWork(barbers: seq<BarberPc>, n: nat)
    requires n <= |barbers| && forall k :: 0 <= k < |barbers| ==> barbers[k] == if k < n then Fetching else Asleep
    ensures Total(barbers, OwesSeat) == n
  {
    if n == 0 {
      TotalConstant(barbers, OwesSeat, 0);
    } else {
      AtWork(barbers[1..], n - 1);
    }
  }

  // As many barbers as there are clients, barbers and chairs can be at work at once, which is
  // the most that the semaphores allow.
  lemma BusySalon(p: Params, s: State) returns (ls: seq<Label>)
    requires Init(p, s)
    ensures Schedule(s, ls)
    ensures Total(After(s, ls).barbers, OwesSeat) == if p.barbers < p.Peak() then p.barbers else p.Peak()
  {
    var n := if p.barbers < p.Peak() then p.barbers else p.Peak();
    assert s.buffer[0] in s.buffer;
    var queue := QueueUp(p, s, 0, n);
    var wake := WakeUp(After(s, queue), 0, n);
    ConcatDays(s, queue, wake);
    ls := queue + wake;
    AtWork(After(s, ls).barbers, n);
  }
}
