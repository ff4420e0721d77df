// What Santa, the elves and the reindeer do over a whole run, told from the steps alone, and
// who may come.
// Source: lab9/zad1/main.c
module SantaDeeds {
  import opened Totals
  import opened Santa

  // ---------------------------------------------------------------- what each thread has done

  // Statements, told from the state in which they are made.
  datatype Deed =
    | ElfArrives(i: nat) | ElfCounts(i: nat) | ElfFindsFull(i: nat) | ElfUnlocks(i: nat)
    | DeerArrives(i: nat) | DeerCounts(i: nat) | DeerFindsFull(i: nat) | DeerUnlocks(i: nat)
    | SomeElfCounts | SomeElfParks | SomeDeerCounts | SomeDeerParks
    | SantaSleeps | SantaIsRoused | SantaLooks | SantaHelps

  ghost predicate Does(p: Params, s: State, l: Label, d: Deed)
    requires Enabled(p, s, l)
  {
    match d
    case ElfArrives(i) => l == Elf(i) && s.elves[i] == Away
    case ElfCounts(i) => l == Elf(i) && s.elves[i] == Arrived && s.elfValue < p.required
    case ElfFindsFull(i) => l == Elf(i) && s.elves[i] == Arrived && s.elfValue >= p.required
    case ElfUnlocks(i) => l == Elf(i) && s.elves[i] == Leaving
    case DeerArrives(i) => l == Deer(i) && s.deer[i] == Away
    case DeerCounts(i) => l == Deer(i) && s.deer[i] == Arrived && s.deerValue < p.team
    case DeerFindsFull(i) => l == Deer(i) && s.deer[i] == Arrived && s.deerValue >= p.team
    case DeerUnlocks(i) => l == Deer(i) && s.deer[i] == Leaving
    case SomeElfCounts => l.Elf? && s.elves[l.i] == Arrived && s.elfValue < p.required
    case SomeElfParks => l.Elf? && s.elves[l.i] == Parking
    case SomeDeerCounts => l.Deer? && s.deer[l.i] == Arrived && s.deerValue < p.team
    case SomeDeerParks => l.Deer? && s.deer[l.i] == Parking
    case SantaSleeps => l.Santa? && s.santa == Dozing
    case SantaIsRoused => s.santa == Asleep && ((l.Elf? && s.elves[l.i] == Rousing) || (l.Deer? && s.deer[l.i] == Rousing))
    case SantaLooks => l.Santa? && s.santa == Awake
    case SantaHelps => l.Santa? && s.santa == AtElves && s.elfValue == p.required
  }

  // How often ls does it.
  ghost function Times(p: Params, s: State, ls: seq<Label>, d: Deed): nat
    requires Schedule(p, s, ls)
    decreases |ls|
  {
    if ls == [] then 0 else (if Does(p, s, ls[0], d) then 1 else 0) + Times(p, Next(p, s, ls[0]), ls[1..], d)
  }

  function Testing(pc: HelperPc): nat { if pc.Arrived? then 1 else 0 }
  function AtTheDoor(pc: HelperPc): nat { if pc.Away? || pc.Arrived? then 1 else 0 }

  // Every arrival of an elf counts once or finds the group complete, and an elf that has been
  // inside, woken or not, unlocks the mutex before it tests the counter again.
  lemma {:induction false} ElfLedger(p: Params, s: State, ls: seq<Label>, i: nat)
    requires Schedule(p, s, ls) && i < |s.elves|
    ensures var t, tests := After(p, s, ls), Times(p, s, ls, ElfCounts(i)) + Times(p, s, ls, ElfFindsFull(i));
            && |t.elves| == |s.elves|
            && Times(p, s, ls, ElfArrives(i)) + Testing(s.elves[i]) == tests + Testing(t.elves[i])
            && Times(p, s, ls, ElfUnlocks(i)) + AtTheDoor(s.elves[i]) == tests + AtTheDoor(t.elves[i])
    decreases |ls|
  {
    if ls != [] {
      ElfDeeds(p, s, ls[0], i);
      ElfLedger(p, Next(p, s, ls[0]), ls[1..], i);
    }
  }

  lemma ElfDeeds(p: Params, s: State, l: Label, i: nat)
    requires Enabled(p, s, l) && i < |s.elves|
    ensures var t := Next(p, s, l);
            var tests := (if Does(p, s, l, ElfCounts(i)) then 1 else 0) + if Does(p, s, l, ElfFindsFull(i)) then 1 else 0;
            && |t.elves| == |s.elves|
            && (if Does(p, s, l, ElfArrives(i)) then 1 else 0) + Testing(s.elves[i]) == tests + Testing(t.elves[i])
            && (if Does(p, s, l, ElfUnlocks(i)) then 1 else 0) + AtTheDoor(s.elves[i]) == tests + AtTheDoor(t.elves[i])
  {
  }

  // The same for a reindeer.
  lemma {:induction false} DeerLedger(p: Params, s: State, ls: seq<Label>, i: nat)
    requires Schedule(p, s, ls) && i < |s.deer|
    ensures var t, tests := After(p, s, ls), Times(p, s, ls, DeerCounts(i)) + Times(p, s, ls, DeerFindsFull(i));
            && |t.deer| == |s.deer|
            && Times(p, s, ls, DeerArrives(i)) + Testing(s.deer[i]) == tests + Testing(t.deer[i])
            && Times(p, s, ls, DeerUnlocks(i)) + AtTheDoor(s.deer[i]) == tests + AtTheDoor(t.deer[i])
    decreases |ls|
  {
    if ls != [] {
      DeerDeeds(p, s, ls[0], i);
      DeerLedger(p, Next(p, s, ls[0]), ls[1..], i);
    }
  }

  lemma DeerDeeds(p: Params, s: State, l: Label, i: nat)
    requires Enabled(p, s, l) && i < |s.deer|
    ensures var t := Next(p, s, l);
            var tests := (if Does(p, s, l, DeerCounts(i)) then 1 else 0) + if Does(p, s, l, DeerFindsFull(i)) then 1 else 0;
            && |t.deer| == |s.deer|
            && (if Does(p, s, l, DeerArrives(i)) then 1 else 0) + Testing(s.deer[i]) == tests + Testing(t.deer[i])
            && (if Does(p, s, l, DeerUnlocks(i)) then 1 else 0) + AtTheDoor(s.deer[i]) == tests + AtTheDoor(t.deer[i])
  {
  }

  // Santa looks at his visitors once for every time that he is roused, and is roused once for
  // every time that he goes to sleep.
  lemma {:induction false} SantaLedger(p: Params, s: State, ls: seq<Label>)
    requires Schedule(p, s, ls)
    ensures var t := After(p, s, ls);
            && Times(p, s, ls, SantaSleeps) + Is(s.santa, Asleep) == Times(p, s, ls, SantaIsRoused) + Is(t.santa, Asleep)
            && Times(p, s, ls, SantaIsRoused) + Is(s.santa, Awake) == Times(p, s, ls, SantaLooks) + Is(t.santa, Awake)
    decreases |ls|
  {
    if ls != [] {
      SantaDeeds(p, s, ls[0]);
      SantaLedger(p, Next(p, s, ls[0]), ls[1..]);
    }
  }

  function Is(pc: SantaPc, which: SantaPc): nat { if pc == which then 1 else 0 }

  lemma SantaDeeds(p: Params, s: State, l: Label)
    requires Enabled(p, s, l)
    ensures var t := Next(p, s, l);
            var roused := if Does(p, s, l, SantaIsRoused) then 1 else 0;
            && (if Does(p, s, l, SantaSleeps) then 1 else 0) + Is(s.santa, Asleep) == roused + Is(t.santa, Asleep)
            && roused + Is(s.santa, Awake) == (if Does(p, s, l, SantaLooks) then 1 else 0) + Is(t.santa, Awake)
  {
  }

  // The history in the state is what has been done.
  lemma {:induction false} HistoryIsTrue(p: Params, s: State, ls: seq<Label>)
    requires Schedule(p, s, ls)
    ensures var t := After(p, s, ls);
            && t.elfIncs == s.elfIncs + Times(p, s, ls, SomeElfCounts) && t.elfWaits == s.elfWaits + Times(p, s, ls, SomeElfParks)
            && t.deerIncs == s.deerIncs + Times(p, s, ls, SomeDeerCounts) && t.deerWaits == s.deerWaits + Times(p, s, ls, SomeDeerParks)
            && t.helps == s.helps + Times(p, s, ls, SantaHelps)
    decreases |ls|
  {
    if ls != [] {
      HistoryStep(p, s, ls[0]);
      HistoryIsTrue(p, Next(p, s, ls[0]), ls[1..]);
    }
  }

  lemma HistoryStep(p: Params, s: State, l: Label)
    requires Enabled(p, s, l)
    ensures var t := Next(p, s, l);
            && t.elfIncs == s.elfIncs + (if Does(p, s, l, SomeElfCounts) then 1 else 0)
            && t.elfWaits == s.elfWaits + (if Does(p, s, l, SomeElfParks) then 1 else 0)
            && t.deerIncs == s.deerIncs + (if Does(p, s, l, SomeDeerCounts) then 1 else 0)
            && t.deerWaits == s.deerWaits + (if Does(p, s, l, SomeDeerParks) then 1 else 0)
            && t.helps == s.helps + (if Does(p, s, l, SantaHelps) then 1 else 0)
  {
  }

  // Over all runs: counted elves make up the groups that were helped and the one that
  // gathers, counted reindeer the teams that delivered, and everybody who ever parked was
  // woken for one of them or still waits.
  lemma DeedsAddUp(p: Params, s: State, ls: seq<Label>)
    requires Init(p, s) && Schedule(p, s, ls)
    ensures var t := After(p, s, ls);
            && Times(p, s, ls, SomeElfCounts) == p.required * Times(p, s, ls, SantaHelps) + t.elfValue
            && Times(p, s, ls, SomeElfParks) == Times(p, s, ls, SantaHelps) + Total(t.elves, IsWaiting)
            && Times(p, s, ls, SomeDeerCounts) == p.team * t.santaValue + t.deerValue
            && Times(p, s, ls, SomeDeerParks) == t.santaValue + Total(t.deer, IsWaiting)
  {
    HistoryIsTrue(p, s, ls);
    Conservation(p, s, ls);
    WaitingSets(p, s, ls);
  }

  // ---------------------------------------------------------------- anybody may come

  // Who is counted by a step, if anybody is.
  function ElfCounted(p: Params, s: State, l: Label): seq<nat>
    requires Enabled(p, s, l)
  {
    if l.Elf? && s.elves[l.i] == Arrived && s.elfValue < p.required then [l.i] else []
  }

  function DeerCounted(p: Params, s: State, l: Label): seq<nat>
    requires Enabled(p, s, l)
  {
    if l.Deer? && s.deer[l.i] == Arrived && s.deerValue < p.team then [l.i] else []
  }

  // The elves, and the reindeer, in the order in which they are counted.
  ghost function ElfOrder(p: Params, s: State, ls: seq<Label>): seq<nat>
    requires Schedule(p, s, ls)
    decreases |ls|
  {
    if ls == [] then [] else ElfCounted(p, s, ls[0]) + ElfOrder(p, Next(p, s, ls[0]), ls[1..])
  }

  ghost function DeerOrder(p: Params, s: State, ls: seq<Label>): seq<nat>
    requires Schedule(p, s, ls)
    decreases |ls|
  {
    if ls == [] then [] else DeerCounted(p, s, ls[0]) + DeerOrder(p, Next(p, s, ls[0]), ls[1..])
  }

  lemma PrependOrder(p: Params, s: State, l: Label, rest: seq<Label>) returns (ls: seq<Label>)
    requires Enabled(p, s, l) && Schedule(p, Next(p, s, l), rest)
    ensures Schedule(p, s, ls) && After(p, s, ls) == After(p, Next(p, s, l), rest)
    ensures ElfOrder(p, s, ls) == ElfCounted(p, s, l) + ElfOrder(p, Next(p, s, l), rest)
    ensures DeerOrder(p, s, ls) == DeerCounted(p, s, l) + DeerOrder(p, Next(p, s, l), rest)
  {
    ls := [l] + rest;
    assert ls[1..] == rest;
  }

  lemma OneElfStep(p: Params, s: State, i: nat) returns (s1: State, s2: State, t: State)
    requires s.elfMutex == 1 && s.elfValue + 1 < p.required && i < |s.elves| && s.elves[i] == Away
    ensures var l := Elf(i);
            && Enabled(p, s, l) && s1 == Next(p, s, l) && ElfCounted(p, s, l) == [] && DeerCounted(p, s, l) == []
            && Enabled(p, s1, l) && s2 == Next(p, s1, l) && ElfCounted(p, s1, l) == [i] && DeerCounted(p, s1, l) == []
            && Enabled(p, s2, l) && t == Next(p, s2, l) && ElfCounted(p, s2, l) == [] && DeerCounted(p, s2, l) == []
    ensures t == s.(elfValue := s.elfValue + 1, elfIncs := s.elfIncs + 1)
  {
    s1 := Next(p, s, Elf(i));
    s2 := Next(p, s1, Elf(i));
    t := Next(p, s2, Elf(i));
    assert t.elves == s.elves;
  }

  // One of them is counted and goes away again.
  lemma OneElfCounts(p: Params, s: State, i: nat, rest: seq<Label>) returns (ls: seq<Label>)
    requires s.elfMutex == 1 && s.elfValue + 1 < p.required && i < |s.elves| && s.elves[i] == Away
    requires Schedule(p, s.(elfValue := s.elfValue + 1, elfIncs := s.elfIncs + 1), rest)
    ensures var t := s.(elfValue := s.elfValue + 1, elfIncs := s.elfIncs + 1);
            && Schedule(p, s, ls) && After(p, s, ls) == After(p, t, rest)
            && ElfOrder(p, s, ls) == [i] + ElfOrder(p, t, rest) && DeerOrder(p, s, ls) == DeerOrder(p, t, rest)
  {
    var l := Elf(i);
    var s1, s2, t := OneElfStep(p, s, i);
    var last := PrependOrder(p, s2, l, rest);
    var both := PrependOrder(p, s1, l, last);
    ls := PrependOrder(p, s, l, both);
  }

  lemma LastElfCounts(p: Params, s: State, i: nat) returns (ls: seq<Label>)
    requires s.elfMutex == 1 && s.elfValue < p.required && i < |s.elves| && s.elves[i] == Away
    ensures Schedule(p, s, ls) && ElfOrder(p, s, ls) == [i] && DeerOrder(p, s, ls) == []
    ensures After(p, s, ls).elfValue == s.elfValue + 1
  {
    var l := Elf(i);
    ls := PrependOrder(p, Next(p, s, l), l, []);
    ls := PrependOrder(p, s, l, ls);
  }

  // Any elves can make up a group, in any order.
  lemma {:induction false} AnyGroup(p: Params, s: State, who: seq<nat>) returns (ls: seq<Label>)
    requires s.elfMutex == 1 && s.elfValue + |who| <= p.required && s.elfValue < p.required
    requires forall i :: 0 <= i < |s.elves| ==> s.elves[i] == Away
    requires forall k :: 0 <= k < |who| ==> who[k] < |s.elves|
    ensures Schedule(p, s, ls) && ElfOrder(p, s, ls) == who && DeerOrder(p, s, ls) == []
    ensures After(p, s, ls).elfValue == s.elfValue + |who|
    decreases |who|
  {
    if |who| == 0 {
      ls := [];
    } else if |who| == 1 {
      ls := LastElfCounts(p, s, who[0]);
    } else {
      ls := AnyGroup(p, s.(elfValue := s.elfValue + 1, elfIncs := s.elfIncs + 1), who[1..]);
      ls := OneElfCounts(p, s, who[0], ls);
    }
  }

  lemma OneDeerStep(p: Params, s: State, i: nat) returns (s1: State, s2: State, t: State)
    requires s.deerMutex == 1 && s.deerValue + 1 < p.team && i < |s.deer| && s.deer[i] == Away
    ensures var l := Deer(i);
            && Enabled(p, s, l) && s1 == Next(p, s, l) && DeerCounted(p, s, l) == [] && ElfCounted(p, s, l) == []
            && Enabled(p, s1, l) && s2 == Next(p, s1, l) && DeerCounted(p, s1, l) == [i] && ElfCounted(p, s1, l) == []
            && Enabled(p, s2, l) && t == Next(p, s2, l) && DeerCounted(p, s2, l) == [] && ElfCounted(p, s2, l) == []
    ensures t == s.(deerValue := s.deerValue + 1, deerIncs := s.deerIncs + 1)
  {
    s1 := Next(p, s, Deer(i));
    s2 := Next(p, s1, Deer(i));
    t := Next(p, s2, Deer(i));
    assert t.deer == s.deer;
  }

  // One of them is counted and goes away again.
  lemma OneDeerCounts(p: Params, s: State, i: nat, rest: seq<Label>) returns (ls: seq<Label>)
    requires s.deerMutex == 1 && s.deerValue + 1 < p.team && i < |s.deer| && s.deer[i] == Away
    requires Schedule(p, s.(deerValue := s.deerValue + 1, deerIncs := s.deerIncs + 1), rest)
    ensures var t := s.(deerValue := s.deerValue + 1, deerIncs := s.deerIncs + 1);
            && Schedule(p, s, ls) && After(p, s, ls) == After(p, t, rest)
            && DeerOrder(p, s, ls) == [i] + DeerOrder(p, t, rest) && ElfOrder(p, s, ls) == ElfOrder(p, t, rest)
  {
    var l := Deer(i);
    var s1, s2, t := OneDeerStep(p, s, i);
    var last := PrependOrder(p, s2, l, rest);
    var both := PrependOrder(p, s1, l, last);
    ls := PrependOrder(p, s, l, both);
  }

  lemma LastDeerCounts(p: Params, s: State, i: nat) returns (ls: seq<Label>)
    requires s.deerMutex == 1 && s.deerValue < p.team && i < |s.deer| && s.deer[i] == Away
    ensures Schedule(p, s, ls) && DeerOrder(p, s, ls) == [i] && ElfOrder(p, s, ls) == []
    ensures After(p, s, ls).deerValue == s.deerValue + 1
  {
    var l := Deer(i);
    ls := PrependOrder(p, Next(p, s, l), l, []);
    ls := PrependOrder(p, s, l, ls);
  }

  // Any reindeer can make up a team, in any order.
  lemma {:induction false} AnyTeam(p: Params, s: State, who: seq<nat>) returns (ls: seq<Label>)
    requires s.deerMutex == 1 && s.deerValue + |who| <= p.team && s.deerValue < p.team
    requires forall i :: 0 <= i < |s.deer| ==> s.deer[i] == Away
    requires forall k :: 0 <= k < |who| ==> who[k] < |s.deer|
    ensures Schedule(p, s, ls) && DeerOrder(p, s, ls) == who && ElfOrder(p, s, ls) == []
    ensures After(p, s, ls).deerValue == s.deerValue + |who|
    decreases |who|
  {
    if |who| == 0 {
      ls := [];
    } else if |who| == 1 {
      ls := LastDeerCounts(p, s, who[0]);
    } else {
      ls := AnyTeam(p, s.(deerValue := s.deerValue + 1, deerIncs := s.deerIncs + 1), who[1..]);
      ls := OneDeerCounts(p, s, who[0], ls);
    }
  }

  // From the start, any choice of elves and any choice of reindeer can gather first.
  lemma AnybodyMayCome(p: Params, s: State, elves: seq<nat>, deer: seq<nat>) returns (groups: seq<Label>, teams: seq<Label>)
    requires Init(p, s) && |elves| <= p.required && |deer| <= p.team
    requires (forall k :: 0 <= k < |elves| ==> elves[k] < p.elves) && (forall k :: 0 <= k < |deer| ==> deer[k] < p.deer)
    ensures Schedule(p, s, groups) && ElfOrder(p, s, groups) == elves && After(p, s, groups).elfValue == |elves|
    ensures Schedule(p, s, teams) && DeerOrder(p, s, teams) == deer && After(p, s, teams).deerValue == |deer|
  {
    groups := AnyGroup(p, s, elves);
    teams := AnyTeam(p, s, deer);
  }
}
