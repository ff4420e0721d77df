// Santa, the reindeer and the elves on three monitors. Every access to a counter happens
// under its mutex, so a test and the update that follows it are one step. A signal wakes
// exactly one waiting thread, or nobody; there are no spurious wake-ups.
// Source: lab9/zad1/main.c
module Santa {
  import opened Totals

  // REINDEER_TOTAL, ELVES_REQUIRED, the number of deliveries, and the threads of each kind.
  datatype Params = Params(elves: nat, deer: nat, required: nat, team: nat, deliveries: nat) {
    ghost predicate Valid() { required >= 1 && team >= 1 && deliveries >= 1 }
  }

  // The next statement of an elf or a reindeer.
  datatype HelperPc =
    | Away      // pthread_mutex_lock
    | Arrived   // test and increment value
    | Rousing   // pthread_cond_signal(&santa.condition)
    | Parking   // pthread_cond_wait: give the mutex up and wait
    | Waiting   // in the waiting set of the condition
    | Woken     // pthread_cond_wait: take the mutex back
    | Leaving   // pthread_mutex_unlock

  datatype SantaPc =
    | Dozing         // pthread_cond_wait(&santa.condition)
    | Asleep         // in the waiting set of santa.condition
    | Awake          // pthread_mutex_lock(&elves.mutex)
    | AtElves        // help if three elves wait
    | LeavingElves   // pthread_mutex_unlock(&elves.mutex)
    | ToDeer         // pthread_mutex_lock(&rindeers.mutex)
    | AtDeer         // deliver if all reindeer are back
    | LeavingDeer    // pthread_mutex_unlock(&rindeers.mutex)
    | Gone           // pthread_exit, with rindeers.mutex still held

  // A mutex is 1 when free. The last five fields are history: increments, served groups
  // and waits begun.
  datatype State = State(
    elfMutex: nat, elfValue: nat, elves: seq<HelperPc>,
    deerMutex: nat, deerValue: nat, deer: seq<HelperPc>,
    santa: SantaPc, santaValue: nat,
    elfIncs: nat, helps: nat, deerIncs: nat, elfWaits: nat, deerWaits: nat)

  // Santa's label names the thread that his signal wakes, if any waits.
  datatype Label = Elf(i: nat) | Deer(i: nat) | Santa(wakes: nat)

  ghost predicate Init(p: Params, s: State) {
    && p.Valid()
    && |s.elves| == p.elves && (forall i :: 0 <= i < p.elves ==> s.elves[i] == Away)
    && |s.deer| == p.deer && (forall i :: 0 <= i < p.deer ==> s.deer[i] == Away)
    && s.elfMutex == 1 && s.deerMutex == 1 && s.santa == Dozing
    && s.elfValue == s.deerValue == s.santaValue == 0
    && s.elfIncs == s.helps == s.deerIncs == s.elfWaits == s.deerWaits == 0
  }

  // A signal takes a thread out of the waiting set, if there is one.
  predicate CanWake(threads: seq<HelperPc>, j: nat) {
    if Waiting in threads then j < |threads| && threads[j] == Waiting else true
  }

  function Wake(threads: seq<HelperPc>, j: nat): seq<HelperPc>
    requires CanWake(threads, j)
  {
    if Waiting in threads then threads[j := Woken] else threads
  }

  predicate HelperEnabled(pc: HelperPc, mutex: nat) {
    match pc
    case Away => mutex > 0
    case Arrived => true
    case Rousing => true
    case Parking => true
    case Waiting => false
    case Woken => mutex > 0
    case Leaving => true
  }

  predicate Enabled(p: Params, s: State, l: Label) {
    match l
    case Elf(i) => i < |s.elves| && HelperEnabled(s.elves[i], s.elfMutex)
    case Deer(i) => i < |s.deer| && HelperEnabled(s.deer[i], s.deerMutex)
    case Santa(j) =>
      match s.santa
      case Dozing => true
      case Asleep => false
      case Awake => s.elfMutex > 0
      case AtElves => s.elfValue == p.required ==> CanWake(s.elves, j)
      case LeavingElves => true
      case ToDeer => s.deerMutex > 0
      case AtDeer => s.deerValue == p.team ==> CanWake(s.deer, j)
      case LeavingDeer => true
      case Gone => false
  }

  function Rouse(s: State): State {
    if s.santa == Asleep then s.(santa := Awake) else s
  }

  // elf_routine
  function ElfNext(p: Params, s: State, i: nat): State
    requires Enabled(p, s, Elf(i))
  {
    match s.elves[i]
    case Away => s.(elfMutex := s.elfMutex - 1, elves := s.elves[i := Arrived])
    case Arrived =>
      if s.elfValue < p.required then
        s.(elfValue := s.elfValue + 1, elfIncs := s.elfIncs + 1,
           elves := s.elves[i := if s.elfValue + 1 == p.required then Rousing else Leaving])
      else s.(elves := s.elves[i := Leaving])
    case Rousing => Rouse(s).(elves := s.elves[i := Parking])
    case Parking => s.(elfMutex := s.elfMutex + 1, elfWaits := s.elfWaits + 1, elves := s.elves[i := Waiting])
    case Woken => s.(elfMutex := s.elfMutex - 1, elves := s.elves[i := Leaving])
    case Leaving => s.(elfMutex := s.elfMutex + 1, elves := s.elves[i := Away])
  }

  // reindeer_routine: unlike an elf, a reindeer that finds the team complete also waits.
  function DeerNext(p: Params, s: State, i: nat): State
    requires Enabled(p, s, Deer(i))
  {
    match s.deer[i]
    case Away => s.(deerMutex := s.deerMutex - 1, deer := s.deer[i := Arrived])
    case Arrived =>
      var grows := s.deerValue < p.team;
      var value := if grows then s.deerValue + 1 else s.deerValue;
      s.(deerValue := value, deerIncs := if grows then s.deerIncs + 1 else s.deerIncs,
         deer := s.deer[i := if value == p.team then Rousing else Leaving])
    case Rousing => Rouse(s).(deer := s.deer[i := Parking])
    case Parking => s.(deerMutex := s.deerMutex + 1, deerWaits := s.deerWaits + 1, deer := s.deer[i := Waiting])
    case Woken => s.(deerMutex := s.deerMutex - 1, deer := s.deer[i := Leaving])
    case Leaving => s.(deerMutex := s.deerMutex + 1, deer := s.deer[i := Away])
  }

  // santa_routine
  function SantaNext(p: Params, s: State, j: nat): State
    requires Enabled(p, s, Label.Santa(j))
  {
    match s.santa
    case Dozing => s.(santa := Asleep)
    case Awake => s.(elfMutex := s.elfMutex - 1, santa := AtElves)
    case AtElves =>
      if s.elfValue == p.required then
        s.(elves := Wake(s.elves, j), elfValue := 0, helps := s.helps + 1, santa := LeavingElves)
      else s.(santa := LeavingElves)
    case LeavingElves => s.(elfMutex := s.elfMutex + 1, santa := ToDeer)
    case ToDeer => s.(deerMutex := s.deerMutex - 1, santa := AtDeer)
    case AtDeer =>
      if s.deerValue == p.team then
        s.(santaValue := s.santaValue + 1, deer := Wake(s.deer, j), deerValue := 0,
           santa := if s.santaValue + 1 == p.deliveries then Gone else LeavingDeer)
      else s.(santa := LeavingDeer)
    case LeavingDeer => s.(deerMutex := s.deerMutex + 1, santa := Dozing)
  }

  function Next(p: Params, s: State, l: Label): State
    requires Enabled(p, s, l)
  {
    match l
    case Elf(i) => ElfNext(p, s, i)
    case Deer(i) => DeerNext(p, s, i)
    case Santa(j) => SantaNext(p, s, j)
  }

  ghost predicate Schedule(p: Params, s: State, ls: seq<Label>)
    decreases |ls|
  {
    ls == [] || (Enabled(p, s, ls[0]) && Schedule(p, Next(p, s, ls[0]), ls[1..]))
  }

  ghost function After(p: Params, s: State, ls: seq<Label>): State
    requires Schedule(p, s, ls)
    decreases |ls|
  {
    if ls == [] then s else After(p, Next(p, s, ls[0]), ls[1..])
  }

  // ---------------------------------------------------------------- invariants

  function Inside(pc: HelperPc): nat { if pc.Arrived? || pc.Rousing? || pc.Parking? || pc.Leaving? then 1 else 0 }
  // The thread that completed a group, until it is woken.
  function Herald(pc: HelperPc): nat { if pc.Rousing? || pc.Parking? || pc.Waiting? then 1 else 0 }
  function IsWaiting(pc: HelperPc): nat { if pc.Waiting? then 1 else 0 }

  function SantaWithElves(pc: SantaPc): nat { if pc.AtElves? || pc.LeavingElves? then 1 else 0 }
  function SantaWithDeer(pc: SantaPc): nat { if pc.AtDeer? || pc.LeavingDeer? || pc.Gone? then 1 else 0 }

  ghost predicate ElvesInv(p: Params, s: State) {
    && s.elfMutex + Total(s.elves, Inside) + SantaWithElves(s.santa) == 1
    && s.elfValue <= p.required
    && Total(s.elves, Herald) == (if s.elfValue == p.required then 1 else 0)
    && s.elfIncs == p.required * s.helps + s.elfValue
    && s.elfWaits == s.helps + Total(s.elves, IsWaiting)
    && Total(s.elves, IsWaiting) <= Total(s.elves, Herald)
  }

  ghost predicate DeerInv(p: Params, s: State) {
    && s.deerMutex + Total(s.deer, Inside) + SantaWithDeer(s.santa) == 1
    && s.deerValue <= p.team
    && (s.deerValue == p.team ==> Total(s.deer, Herald) >= 1)
    && Total(s.deer, Herald) <= Total(s.deer, IsWaiting) + Total(s.deer, Inside)
    && s.deerIncs == p.team * s.santaValue + s.deerValue
    && s.deerWaits == s.santaValue + Total(s.deer, IsWaiting)
    && (s.santa == Gone <==> s.santaValue == p.deliveries)
    && s.santaValue <= p.deliveries
    && (s.santa == Gone ==> s.deerValue == 0)
  }

  ghost predicate Inv(p: Params, s: State) {
    p.Valid() && |s.elves| == p.elves && |s.deer| == p.deer && ElvesInv(p, s) && DeerInv(p, s)
  }

  lemma MoveHelper(threads: seq<HelperPc>, i: nat, pc: HelperPc)
    requires i < |threads|
    ensures Total(threads[i := pc], Inside) + Inside(threads[i]) == Total(threads, Inside) + Inside(pc)
    ensures Total(threads[i := pc], Herald) + Herald(threads[i]) == Total(threads, Herald) + Herald(pc)
    ensures Total(threads[i := pc], IsWaiting) + IsWaiting(threads[i]) == Total(threads, IsWaiting) + IsWaiting(pc)
  {
    TotalUpdate(threads, i, pc, Inside);
    TotalUpdate(threads, i, pc, Herald);
    TotalUpdate(threads, i, pc, IsWaiting);
  }

  // With nobody inside, the heralds are exactly the waiting threads.
  lemma HeraldsWait(threads: seq<HelperPc>)
    ensures Total(threads, IsWaiting) <= Total(threads, Herald) <= Total(threads, IsWaiting) + Total(threads, Inside)
    ensures Total(threads, IsWaiting) > 0 <==> Waiting in threads
  {
    TotalMono(threads, IsWaiting, Herald);
    TotalSum(threads, IsWaiting, Inside, WaitingOrInside);
    TotalMono(threads, Herald, WaitingOrInside);
    if Total(threads, IsWaiting) > 0 {
      var i := TotalWitness(threads, IsWaiting);
    }
    if Waiting in threads {
      var i :| 0 <= i < |threads| && threads[i] == Waiting;
      TotalAtLeast(threads, i, IsWaiting);
    }
  }

  function WaitingOrInside(pc: HelperPc): nat { IsWaiting(pc) + Inside(pc) }

  lemma InitInv(p: Params, s: State)
    requires Init(p, s)
    ensures Inv(p, s)
  {
    TotalConstant(s.elves, Inside, 0);
    TotalConstant(s.elves, Herald, 0);
    TotalConstant(s.elves, IsWaiting, 0);
    TotalConstant(s.deer, Inside, 0);
    TotalConstant(s.deer, Herald, 0);
    TotalConstant(s.deer, IsWaiting, 0);
  }

  lemma ElfStepElves(p: Params, s: State, i: nat)
    requires p.Valid() && ElvesInv(p, s) && Enabled(p, s, Elf(i))
    ensures ElvesInv(p, ElfNext(p, s, i))
  {
    var t := ElfNext(p, s, i);
    MoveHelper(s.elves, i, t.elves[i]);
    TotalAtLeast(s.elves, i, Herald);
    HeraldsWait(t.elves);
  }

  lemma ElfStep(p: Params, s: State, i: nat)
    requires Inv(p, s) && Enabled(p, s, Elf(i))
    ensures Inv(p, ElfNext(p, s, i))
  {
    ElfStepElves(p, s, i);
  }

  lemma DeerStepDeer(p: Params, s: State, i: nat)
    requires p.Valid() && DeerInv(p, s) && Enabled(p, s, Deer(i))
    ensures DeerInv(p, DeerNext(p, s, i))
  {
    var t := DeerNext(p, s, i);
    MoveHelper(s.deer, i, t.deer[i]);
    TotalAtLeast(s.deer, i, Inside);
    HeraldsWait(t.deer);
  }

  lemma DeerStep(p: Params, s: State, i: nat)
    requires Inv(p, s) && Enabled(p, s, Deer(i))
    ensures Inv(p, DeerNext(p, s, i))
  {
    DeerStepDeer(p, s, i);
  }

  // A help wakes exactly one elf.
  lemma HelpStep(p: Params, s: State, j: nat)
    requires Inv(p, s) && Enabled(p, s, Label.Santa(j)) && s.santa == AtElves
    ensures Inv(p, SantaNext(p, s, j))
    ensures s.elfValue == p.required ==> j < |s.elves| && s.elves[j] == Waiting && SantaNext(p, s, j).elves == s.elves[j := Woken]
  {
    HeraldsWait(s.elves);
    if s.elfValue == p.required {
      MoveHelper(s.elves, j, Woken);
      HeraldsWait(s.elves[j := Woken]);
      assert p.required * (s.helps + 1) == p.required * s.helps + p.required;
    }
  }

  // A delivery wakes exactly one reindeer, however many wait.
  lemma DeliveryStep(p: Params, s: State, j: nat)
    requires Inv(p, s) && Enabled(p, s, Label.Santa(j)) && s.santa == AtDeer
    ensures Inv(p, SantaNext(p, s, j))
    ensures s.deerValue == p.team ==> j < |s.deer| && s.deer[j] == Waiting && SantaNext(p, s, j).deer == s.deer[j := Woken]
  {
    HeraldsWait(s.deer);
    if s.deerValue == p.team {
      MoveHelper(s.deer, j, Woken);
      HeraldsWait(s.deer[j := Woken]);
      assert p.team * (s.santaValue + 1) == p.team * s.santaValue + p.team;
    }
  }

  lemma StepInv(p: Params, s: State, l: Label)
    requires Inv(p, s) && Enabled(p, s, l)
    ensures Inv(p, Next(p, s, l))
  {
    match l {
      case Elf(i) => ElfStep(p, s, i);
      case Deer(i) => DeerStep(p, s, i);
      case Santa(j) =>
        if s.santa == AtElves {
          HelpStep(p, s, j);
        } else if s.santa == AtDeer {
          DeliveryStep(p, s, j);
        }
    }
  }

  lemma {:induction false} RunInv(p: Params, s: State, ls: seq<Label>)
    requires Inv(p, s) && Schedule(p, s, ls)
    ensures Inv(p, After(p, s, ls))
    decreases |ls|
  {
    if ls != [] {
      StepInv(p, s, ls[0]);
      RunInv(p, Next(p, s, ls[0]), ls[1..]);
    }
  }

  // ---------------------------------------------------------------- what holds over whole runs

  // Every counted arrival belongs to a served group or to the one that gathers; when Santa
  // leaves, exactly deliveries full teams have been counted.
  lemma Conservation(p: Params, s: State, ls: seq<Label>)
    requires Init(p, s) && Schedule(p, s, ls)
    ensures var t := After(p, s, ls);
            && t.elfIncs == p.required * t.helps + t.elfValue && t.elfValue <= p.required
            && t.deerIncs == p.team * t.santaValue + t.deerValue && t.deerValue <= p.team
            && t.santaValue <= p.deliveries
            && (t.santa == Gone ==> t.deerIncs == p.team * p.deliveries)
            && (t.santa == Gone <==> t.santaValue == p.deliveries)
  {
    InitInv(p, s);
    RunInv(p, s, ls);
  }

  // Outside the critical sections exactly one elf waits when a group is complete and none
  // otherwise; with a complete team some reindeer waits.
  lemma WaitingSets(p: Params, s: State, ls: seq<Label>)
    requires Init(p, s) && Schedule(p, s, ls)
    ensures var t := After(p, s, ls);
            && (t.elfMutex > 0 ==> Total(t.elves, IsWaiting) == if t.elfValue == p.required then 1 else 0)
            && (t.deerMutex > 0 && t.deerValue == p.team ==> Total(t.deer, IsWaiting) >= 1)
            && t.elfWaits == t.helps + Total(t.elves, IsWaiting)
            && t.deerWaits == t.santaValue + Total(t.deer, IsWaiting)
  {
    InitInv(p, s);
    RunInv(p, s, ls);
    var t := After(p, s, ls);
    HeraldsWait(t.elves);
    HeraldsWait(t.deer);
  }

  // In every reachable state any thread that waits in front of a complete group may be the
  // one that Santa wakes, and nobody else.
  lemma WokenExactly(p: Params, s: State, ls: seq<Label>, j: nat)
    requires Init(p, s) && Schedule(p, s, ls)
    ensures var t := After(p, s, ls);
            && (t.santa == AtElves && t.elfValue == p.required ==>
                  (Enabled(p, t, Label.Santa(j)) <==> j < |t.elves| && t.elves[j] == Waiting))
            && (t.santa == AtDeer && t.deerValue == p.team ==>
                  (Enabled(p, t, Label.Santa(j)) <==> j < |t.deer| && t.deer[j] == Waiting))
  {
    InitInv(p, s);
    RunInv(p, s, ls);
    HeraldsWait(After(p, s, ls).elves);
    HeraldsWait(After(p, s, ls).deer);
  }

  // ---------------------------------------------------------------- one wake-up cycle

  predicate BeforeHelp(pc: SantaPc) { pc.Awake? || pc.AtElves? }
  predicate AfterHelp(pc: SantaPc) { pc.LeavingElves? || pc.ToDeer? || pc.AtDeer? || pc.LeavingDeer? || pc.Gone? }
  predicate AfterDelivery(pc: SantaPc) { pc.LeavingDeer? || pc.Gone? }

  // Santa does not go back to sleep during ls.
  ghost predicate StaysUp(p: Params, s: State, ls: seq<Label>)
    requires Schedule(p, s, ls)
    decreases |ls|
  {
    ls == [] || (!(ls[0].Santa? && s.santa == LeavingDeer) && StaysUp(p, Next(p, s, ls[0]), ls[1..]))
  }

  // A group that is complete when Santa wakes cannot be touched by anybody else and is
  // served in this very cycle; the help comes before the delivery.
  ghost predicate InCycle(p: Params, woke: State, t: State) {
    && (BeforeHelp(t.santa) || AfterHelp(t.santa))
    && (woke.elfValue == p.required ==>
          if BeforeHelp(t.santa) then t.elfValue == p.required && t.helps == woke.helps
          else t.helps == woke.helps + 1)
    && (woke.deerValue == p.team ==>
          if AfterDelivery(t.santa) then t.santaValue == woke.santaValue + 1
          else t.deerValue == p.team && t.santaValue == woke.santaValue)
  }

  lemma CycleStep(p: Params, woke: State, s: State, l: Label)
    requires InCycle(p, woke, s) && Enabled(p, s, l) && !(l.Santa? && s.santa == LeavingDeer)
    requires s.elfValue <= p.required && s.deerValue <= p.team
    ensures InCycle(p, woke, Next(p, s, l))
  {
    match l {
      case Elf(i) =>
      case Deer(i) =>
      case Santa(j) =>
    }
  }

  lemma {:induction false} CycleRun(p: Params, woke: State, s: State, ls: seq<Label>)
    requires Inv(p, s) && InCycle(p, woke, s) && Schedule(p, s, ls) && StaysUp(p, s, ls)
    ensures InCycle(p, woke, After(p, s, ls))
    decreases |ls|
  {
    if ls != [] {
      StepInv(p, s, ls[0]);
      CycleStep(p, woke, s, ls[0]);
      CycleRun(p, woke, Next(p, s, ls[0]), ls[1..]);
    }
  }

  lemma ServedInThisCycle(p: Params, s: State, ls: seq<Label>, more: seq<Label>)
    requires Init(p, s) && Schedule(p, s, ls) && After(p, s, ls).santa == Awake
    requires Schedule(p, After(p, s, ls), more) && StaysUp(p, After(p, s, ls), more)
    ensures InCycle(p, After(p, s, ls), After(p, After(p, s, ls), more))
  {
    InitInv(p, s);
    RunInv(p, s, ls);
    CycleRun(p, After(p, s, ls), After(p, s, ls), more);
  }

  // With three elves and nine reindeer at the door, the elves are helped first.
  lemma HelpBeforeDelivery(p: Params, s: State, ls: seq<Label>, more: seq<Label>)
    requires Init(p, s) && Schedule(p, s, ls) && After(p, s, ls).santa == Awake
    requires Schedule(p, After(p, s, ls), more) && StaysUp(p, After(p, s, ls), more)
    requires After(p, s, ls).elfValue == p.required && After(p, s, ls).deerValue == p.team
    ensures var woke, t := After(p, s, ls), After(p, After(p, s, ls), more);
            t.santaValue > woke.santaValue ==> t.helps == woke.helps + 1
  {
    ServedInThisCycle(p, s, ls, more);
  }

  // ---------------------------------------------------------------- a lost wake-up

  // No reindeer signals Santa during ls.
  ghost predicate NoDeerSignal(p: Params, s: State, ls: seq<Label>)
    requires Schedule(p, s, ls)
    decreases |ls|
  {
    ls == [] || (!(ls[0].Deer? && s.deer[ls[0].i] == Rousing) && NoDeerSignal(p, Next(p, s, ls[0]), ls[1..]))
  }

  ghost predicate Oversleeps(p: Params, s: State) {
    s.santa == Asleep && s.elfValue == p.required && (forall i :: 0 <= i < |s.elves| ==> s.elves[i] != Rousing)
  }

  // Once Santa sleeps in front of a complete group, no elf ever wakes him.
  lemma {:induction false} OnlyReindeerWakeHim(p: Params, s: State, ls: seq<Label>)
    requires Inv(p, s) && Oversleeps(p, s) && Schedule(p, s, ls) && NoDeerSignal(p, s, ls)
    ensures Oversleeps(p, After(p, s, ls)) && After(p, s, ls).helps == s.helps
    decreases |ls|
  {
    if ls != [] {
      StepInv(p, s, ls[0]);
      OnlyReindeerWakeHim(p, Next(p, s, ls[0]), ls[1..]);
    }
  }

  lemma Prepend(p: Params, s: State, l: Label, rest: seq<Label>) returns (ls: seq<Label>)
    requires Enabled(p, s, l) && Schedule(p, Next(p, s, l), rest)
    ensures Schedule(p, s, ls) && After(p, s, ls) == After(p, Next(p, s, l), rest)
  {
    ls := [l] + rest;
    assert ls[1..] == rest;
  }

  lemma {:induction false} ScheduleConcat(p: Params, s: State, a: seq<Label>, b: seq<Label>)
    requires Schedule(p, s, a) && Schedule(p, After(p, s, a), b)
    ensures Schedule(p, s, a + b) && After(p, s, a + b) == After(p, After(p, s, a), b)
    decreases |a|
  {
    if a == [] {
      assert a + b == b;
    } else {
      assert (a + b)[1..] == a[1..] + b;
      ScheduleConcat(p, Next(p, s, a[0]), a[1..], b);
    }
  }

  // Santa has not gone to sleep for the first time, and every elf is away.
  ghost predicate BeforeSleep(p: Params, s: State) {
    && p.Valid() && |s.elves| >= 1 && s.elves[0] == Away && s.elfMutex == 1 && s.santa == Dozing
    && s.elfValue < p.required && (forall i :: 0 <= i < |s.elves| ==> s.elves[i] == Away)
  }

  // One elf completes the group alone; its signal is lost on Santa.
  lemma {:induction false} OneElf(p: Params, s: State) returns (ls: seq<Label>)
    requires BeforeSleep(p, s)
    ensures Schedule(p, s, ls)
    ensures var t := After(p, s, ls);
            && t.santa == Dozing && t.elfValue == p.required && (forall i :: 0 <= i < |t.elves| ==> t.elves[i] != Rousing)
            && t.deer == s.deer && t.deerMutex == s.deerMutex && t.deerValue == s.deerValue && t.santaValue == s.santaValue
    decreases p.required - s.elfValue
  {
    var s1 := Next(p, s, Elf(0));
    var s2 := Next(p, s1, Elf(0));
    var s3 := Next(p, s2, Elf(0));
    if s.elfValue + 1 < p.required {
      ls := OneElf(p, s3);
    } else {
      ls := [];
      assert After(p, s3, ls) == s3;
    }
    ls := Prepend(p, s2, Elf(0), ls);
    ls := Prepend(p, s1, Elf(0), ls);
    ls := Prepend(p, s, Elf(0), ls);
  }

  ghost predicate ReachesOversleeping(p: Params, s: State, ls: seq<Label>) {
    Schedule(p, s, ls) && Oversleeps(p, After(p, s, ls))
  }

  // Some run puts Santa to sleep in front of a complete group of elves exactly when there
  // are elves at all.
  lemma OversleepingExactly(p: Params, s: State)
    requires Init(p, s)
    ensures (exists ls :: ReachesOversleeping(p, s, ls)) <==> p.elves >= 1
  {
    if p.elves >= 1 {
      var ls := OneElf(p, s);
      var sleep := Prepend(p, After(p, s, ls), Label.Santa(0), []);
      ScheduleConcat(p, s, ls, sleep);
      ls := ls + sleep;
      assert ReachesOversleeping(p, s, ls);
    } else {
      forall ls | Schedule(p, s, ls)
        ensures !ReachesOversleeping(p, s, ls)
      {
        InitInv(p, s);
        RunInv(p, s, ls);
        assert After(p, s, ls).elves == [];
      }
    }
  }

  // ---------------------------------------------------------------- sleeping for good

  predicate Resigned(pc: HelperPc) { pc.Parking? || pc.Waiting? }

  // Nobody is left who could wake Santa: the elves' group is complete and its signal spent,
  // or there are no elves, and every reindeer waits or is about to.
  ghost predicate ForGood(p: Params, s: State) {
    && s.santa == Asleep
    && (s.elves == [] || (s.elfValue == p.required && forall i :: 0 <= i < |s.elves| ==> s.elves[i] != Rousing))
    && forall i :: 0 <= i < |s.deer| ==> Resigned(s.deer[i])
  }

  lemma {:induction false} SleepsForGood(p: Params, s: State, ls: seq<Label>)
    requires ForGood(p, s) && Schedule(p, s, ls)
    ensures var t := After(p, s, ls); ForGood(p, t) && t.helps == s.helps && t.santaValue == s.santaValue
    decreases |ls|
  {
    if ls != [] {
      SleepsForGood(p, Next(p, s, ls[0]), ls[1..]);
    }
  }

  // How far an elf is from testing the counter again.
  function ElfWay(pc: HelperPc): nat { if pc.Woken? then 3 else if pc.Leaving? then 2 else if pc.Away? then 1 else 0 }

  // How far a reindeer is from rousing Santa in front of a complete team, or from resigning.
  function DeerWay(pc: HelperPc): nat {
    match pc
    case Woken => 5
    case Leaving => 4
    case Away => 3
    case Arrived => 2
    case Parking => 1
    case _ => 0
  }

  // An elf whose next statement is open to it while the group is incomplete.
  lemma ElfMover(p: Params, s: State) returns (i: nat)
    requires Inv(p, s) && s.santa == Asleep && s.elves != [] && s.elfValue < p.required
    ensures Enabled(p, s, Elf(i)) && !s.elves[i].Rousing? && !s.elves[i].Parking?
  {
    if s.elfMutex == 0 {
      i := TotalWitness(s.elves, Inside);
    } else {
      i := 0;
      TotalAtLeast(s.elves, i, Inside);
    }
    TotalAtLeast(s.elves, i, Herald);
  }

  lemma {:induction false} ElvesWakeHim(p: Params, s: State) returns (ls: seq<Label>)
    requires Inv(p, s) && s.santa == Asleep && s.elves != []
    requires s.elfValue < p.required || exists i :: 0 <= i < |s.elves| && s.elves[i] == Rousing
    ensures Schedule(p, s, ls) && After(p, s, ls).santa == Awake
    decreases p.required - s.elfValue, Total(s.elves, ElfWay)
  {
    if i :| 0 <= i < |s.elves| && s.elves[i] == Rousing {
      ls := Prepend(p, s, Elf(i), []);
    } else {
      var i := ElfMover(p, s);
      var t := Next(p, s, Elf(i));
      StepInv(p, s, Elf(i));
      TotalUpdate(s.elves, i, t.elves[i], ElfWay);
      assert s.elves[i].Arrived? && t.elfValue == p.required ==> t.elves[i] == Rousing;
      ls := ElvesWakeHim(p, t);
      ls := Prepend(p, s, Elf(i), ls);
    }
  }

  lemma DeerMover(p: Params, s: State, k: nat) returns (i: nat)
    requires Inv(p, s) && s.santa == Asleep && k < |s.deer| && !Resigned(s.deer[k])
    ensures Enabled(p, s, Deer(i)) && (i == k || s.deer[i].Parking? || !Resigned(s.deer[i]))
  {
    if s.deerMutex == 0 {
      i := TotalWitness(s.deer, Inside);
    } else {
      i := k;
    }
  }

  lemma {:induction false} ReindeerWakeHim(p: Params, s: State, k: nat) returns (ls: seq<Label>)
    requires Inv(p, s) && s.santa == Asleep && k < |s.deer| && !Resigned(s.deer[k])
    ensures Schedule(p, s, ls) && After(p, s, ls).santa == Awake
    decreases p.team - s.deerValue, Total(s.deer, DeerWay)
  {
    if s.deer[k] == Rousing {
      ls := Prepend(p, s, Deer(k), []);
    } else {
      var i := DeerMover(p, s, k);
      var t := Next(p, s, Deer(i));
      if s.deer[i] == Rousing {
        ls := Prepend(p, s, Deer(i), []);
      } else {
        StepInv(p, s, Deer(i));
        TotalUpdate(s.deer, i, t.deer[i], DeerWay);
        ls := ReindeerWakeHim(p, t, if s.deer[i].Parking? then k else i);
        ls := Prepend(p, s, Deer(i), ls);
      }
    }
  }

  // In every reachable state in which Santa sleeps, he can still be woken unless he sleeps
  // for good.
  lemma ForGoodExactly(p: Params, s: State, ls: seq<Label>)
    requires Init(p, s) && Schedule(p, s, ls) && After(p, s, ls).santa == Asleep
    ensures var t := After(p, s, ls);
            ForGood(p, t) <==> forall more :: Schedule(p, t, more) ==> After(p, t, more).santa == Asleep
  {
    var t := After(p, s, ls);
    InitInv(p, s);
    RunInv(p, s, ls);
    if ForGood(p, t) {
      forall more | Schedule(p, t, more)
        ensures After(p, t, more).santa == Asleep
      {
        SleepsForGood(p, t, more);
      }
    } else if i :| 0 <= i < |t.deer| && !Resigned(t.deer[i]) {
      var more := ReindeerWakeHim(p, t, i);
    } else {
      var more := ElvesWakeHim(p, t);
    }
  }

  // Before Santa has gone to sleep: the reindeer before i wait in front of a complete team
  // and the others are away.
  ghost predicate Lined(p: Params, s: State, i: nat) {
    && p.Valid() && s.santa == Dozing && s.deerMutex == 1 && i <= |s.deer|
    && (if i == 0 then s.deerValue < p.team else s.deerValue == p.team)
    && forall j :: 0 <= j < |s.deer| ==> s.deer[j] == if j < i then Waiting else Away
  }

  // The reindeer of s move, the elves and the deliveries of s stay.
  ghost predicate OnlyDeerMove(s: State, t: State) {
    t.elfMutex == s.elfMutex && t.elfValue == s.elfValue && t.elves == s.elves && t.santaValue == s.santaValue
  }

  // The first reindeer completes the team alone; its signal is lost on Santa.
  lemma {:induction false} FirstReindeer(p: Params, s: State) returns (ls: seq<Label>)
    requires Lined(p, s, 0) && s.deer != []
    ensures Schedule(p, s, ls) && Lined(p, After(p, s, ls), 1) && OnlyDeerMove(s, After(p, s, ls))
    decreases p.team - s.deerValue
  {
    var s1 := Next(p, s, Deer(0));
    var s2 := Next(p, s1, Deer(0));
    var s3 := Next(p, s2, Deer(0));
    if s.deerValue + 1 < p.team {
      ls := FirstReindeer(p, s3);
    } else {
      ls := Prepend(p, s3, Deer(0), []);
    }
    ls := Prepend(p, s2, Deer(0), ls);
    ls := Prepend(p, s1, Deer(0), ls);
    ls := Prepend(p, s, Deer(0), ls);
  }

  lemma NextReindeer(p: Params, s: State, i: nat) returns (ls: seq<Label>)
    requires Lined(p, s, i) && 0 < i < |s.deer|
    ensures Schedule(p, s, ls) && Lined(p, After(p, s, ls), i + 1) && OnlyDeerMove(s, After(p, s, ls))
  {
    var s1 := Next(p, s, Deer(i));
    var s2 := Next(p, s1, Deer(i));
    var s3 := Next(p, s2, Deer(i));
    ls := Prepend(p, s3, Deer(i), []);
    ls := Prepend(p, s2, Deer(i), ls);
    ls := Prepend(p, s1, Deer(i), ls);
    ls := Prepend(p, s, Deer(i), ls);
  }

  lemma {:induction false} AllReindeer(p: Params, s: State, i: nat) returns (ls: seq<Label>)
    requires Lined(p, s, i)
    ensures Schedule(p, s, ls) && Lined(p, After(p, s, ls), |s.deer|) && OnlyDeerMove(s, After(p, s, ls))
    ensures |After(p, s, ls).deer| == |s.deer|
    decreases |s.deer| - i
  {
    if i == |s.deer| {
      ls := [];
    } else {
      if i == 0 {
        ls := FirstReindeer(p, s);
      } else {
        ls := NextReindeer(p, s, i);
      }
      var t := After(p, s, ls);
      assert |t.deer| == |s.deer| by { SameDeer(p, s, ls); }
      var rest := AllReindeer(p, t, i + 1);
      ScheduleConcat(p, s, ls, rest);
      ls := ls + rest;
    }
  }

  lemma {:induction false} SameDeer(p: Params, s: State, ls: seq<Label>)
    requires Schedule(p, s, ls)
    ensures |After(p, s, ls).deer| == |s.deer| && |After(p, s, ls).elves| == |s.elves|
    decreases |ls|
  {
    if ls != [] {
      SameDeer(p, Next(p, s, ls[0]), ls[1..]);
    }
  }

  // Whatever the workshop, some run puts Santa to sleep before his first delivery, for good.
  lemma ForGoodReachable(p: Params, s: State) returns (ls: seq<Label>)
    requires Init(p, s)
    ensures Schedule(p, s, ls) && ForGood(p, After(p, s, ls))
    ensures forall more :: Schedule(p, After(p, s, ls), more) ==>
              var t := After(p, After(p, s, ls), more); t.santa == Asleep && t.santaValue == 0
  {
    ls := [];
    if p.elves > 0 {
      ls := OneElf(p, s);
    }
    var s1 := After(p, s, ls);
    var rest := AllReindeer(p, s1, 0);
    var s2 := After(p, s1, rest);
    SameDeer(p, s, ls);
    SameDeer(p, s1, rest);
    var sleep := Prepend(p, s2, Label.Santa(0), []);
    ScheduleConcat(p, s1, rest, sleep);
    ScheduleConcat(p, s, ls, rest + sleep);
    ls := ls + (rest + sleep);
    var t := After(p, s, ls);
    forall more | Schedule(p, t, more)
      ensures After(p, t, more).santa == Asleep && After(p, t, more).santaValue == 0
    {
      SleepsForGood(p, t, more);
    }
  }

  // ---------------------------------------------------------------- all deliveries made

  // A cycle may begin: the reindeer are away and no elf has come.
  ghost predicate Ready(p: Params, s: State) {
    && p.Valid() && s.santa == Dozing && s.santaValue < p.deliveries
    && s.elfMutex == 1 && s.elfValue == 0 && s.deerMutex == 1 && s.deerValue == 0
    && s.deer != [] && forall i :: 0 <= i < |s.deer| ==> s.deer[i] == Away
  }

  // One reindeer completes the team alone and wakes Santa.
  lemma {:induction false} RouseHim(p: Params, s: State) returns (ls: seq<Label>)
    requires s.santa == Asleep && s.deerMutex == 1 && s.deerValue < p.team && s.deer != [] && s.deer[0] == Away
    ensures Schedule(p, s, ls)
    ensures var t := After(p, s, ls);
            && t.santa == Awake && t.deerValue == p.team && t.deerMutex == 1 && t.deer == s.deer[0 := Waiting]
            && t.elfMutex == s.elfMutex && t.elfValue == s.elfValue && t.santaValue == s.santaValue
    decreases p.team - s.deerValue
  {
    var s1 := Next(p, s, Deer(0));
    var s2 := Next(p, s1, Deer(0));
    var s3 := Next(p, s2, Deer(0));
    if s.deerValue + 1 < p.team {
      assert s3.deer == s.deer;
      ls := RouseHim(p, s3);
    } else {
      ls := Prepend(p, s3, Deer(0), []);
    }
    ls := Prepend(p, s2, Deer(0), ls);
    ls := Prepend(p, s1, Deer(0), ls);
    ls := Prepend(p, s, Deer(0), ls);
  }

  // Santa looks in on the elves in vain and delivers.
  lemma Deliver(p: Params, s: State) returns (ls: seq<Label>)
    requires p.Valid() && s.santa == Awake && s.elfMutex == 1 && s.elfValue == 0
    requires s.deerMutex == 1 && s.deerValue == p.team && s.deer != [] && s.deer[0] == Waiting
    ensures Schedule(p, s, ls)
    ensures var t := After(p, s, ls);
            && t.santa == (if s.santaValue + 1 == p.deliveries then Gone else LeavingDeer)
            && t.elfMutex == 1 && t.elfValue == 0 && t.deerMutex == 0 && t.deerValue == 0
            && t.deer == s.deer[0 := Woken] && t.santaValue == s.santaValue + 1
  {
    var l := Label.Santa(0);
    var s1 := Next(p, s, l);
    var s2 := Next(p, s1, l);
    var s3 := Next(p, s2, l);
    var s4 := Next(p, s3, l);
    ls := Prepend(p, s4, l, []);
    ls := Prepend(p, s3, l, ls);
    ls := Prepend(p, s2, l, ls);
    ls := Prepend(p, s1, l, ls);
    ls := Prepend(p, s, l, ls);
  }

  // Back to the beginning of a cycle.
  lemma GoHome(p: Params, s: State) returns (ls: seq<Label>)
    requires p.Valid() && s.santa == LeavingDeer && s.santaValue < p.deliveries && s.elfMutex == 1 && s.elfValue == 0
    requires s.deerMutex == 0 && s.deerValue == 0 && s.deer != [] && s.deer[0] == Woken
    requires forall i :: 1 <= i < |s.deer| ==> s.deer[i] == Away
    ensures Schedule(p, s, ls) && Ready(p, After(p, s, ls)) && After(p, s, ls).santaValue == s.santaValue
  {
    var s1 := Next(p, s, Label.Santa(0));
    var s2 := Next(p, s1, Deer(0));
    ls := Prepend(p, s2, Deer(0), []);
    ls := Prepend(p, s1, Deer(0), ls);
    ls := Prepend(p, s, Label.Santa(0), ls);
  }

  lemma {:induction false} Retire(p: Params, s: State) returns (ls: seq<Label>)
    requires Ready(p, s)
    ensures Schedule(p, s, ls) && After(p, s, ls).santa == Gone
    decreases p.deliveries - s.santaValue
  {
    var s1 := Next(p, s, Label.Santa(0));
    var rouse := RouseHim(p, s1);
    var s2 := After(p, s1, rouse);
    var deliver := Deliver(p, s2);
    var s3 := After(p, s2, deliver);
    var more: seq<Label> := [];
    if s3.santa != Gone {
      var home := GoHome(p, s3);
      var rest := Retire(p, After(p, s3, home));
      ScheduleConcat(p, s3, home, rest);
      more := home + rest;
    }
    ScheduleConcat(p, s2, deliver, more);
    ScheduleConcat(p, s1, rouse, deliver + more);
    ls := Prepend(p, s, Label.Santa(0), rouse + (deliver + more));
  }

  lemma {:induction false} NoTeam(p: Params, s: State, ls: seq<Label>)
    requires Inv(p, s) && s.deer == [] && s.santaValue == 0 && Schedule(p, s, ls)
    ensures After(p, s, ls).santaValue == 0 && After(p, s, ls).santa != Gone
    decreases |ls|
  {
    if ls != [] {
      StepInv(p, s, ls[0]);
      NoTeam(p, Next(p, s, ls[0]), ls[1..]);
    }
  }

  ghost predicate ReachesGone(p: Params, s: State, ls: seq<Label>) {
    Schedule(p, s, ls) && After(p, s, ls).santa == Gone
  }

  // Some run makes all deliveries exactly when there is a reindeer.
  lemma RetiresExactly(p: Params, s: State)
    requires Init(p, s)
    ensures (exists ls :: ReachesGone(p, s, ls)) <==> p.deer >= 1
  {
    if p.deer >= 1 {
      var ls := Retire(p, s);
      assert ReachesGone(p, s, ls);
    } else {
      InitInv(p, s);
      forall ls | Schedule(p, s, ls)
        ensures !ReachesGone(p, s, ls)
      {
        NoTeam(p, s, ls);
      }
    }
  }
}
