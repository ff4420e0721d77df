// The sleeping barber: clients and barbers interleave on four System V semaphores
// and the shared haircut queue.
// Source: lab7/zad1/v1/{client,barber,simulation,utils,queue}.c
module Barber {
  import opened Totals
  import opened StringQueue

  // ---------------------------------------------------------------- the machine

  // The next statement of a client, client.c lines 35-43.
  datatype ClientPc =
    | Arriving    // aquire(sem_queue)
    | Seated      // aquire(buffer_mutex)
    | Ordering    // queue_push(queue, random_haircut())
    | Ordered     // release(buffer_mutex)
    | Calling     // release(sem_barbers)
    | Waiting     // aquire(sem_chairs)
    | Done

  // The next statement of a barber, barber.c lines 32-42.
  datatype BarberPc =
    | Asleep      // aquire(sem_barbers)
    | Fetching    // queue_pop(queue)
    | Cutting     // release(sem_chairs)
    | Clearing    // release(sem_queue)
    | Looking     // queue_empty(queue)

  // pushed and popped record the calls of queue_push and the results of queue_pop.
  datatype State = State(
    semQueue: nat, semChairs: nat, semBarbers: nat, mutex: nat,
    buffer: seq<CChar>,
    clients: seq<ClientPc>, barbers: seq<BarberPc>,
    pushed: seq<CChar>, popped: seq<CChar>)

  // CUSTOMERS_TOTAL, BARBER_TOTAL, CHAIR_TOTAL and BUFFER_SIZE.
  datatype Params = Params(clients: nat, barbers: nat, chairs: nat, bufferSize: nat) {
    ghost predicate Valid() { barbers >= 1 && chairs >= 1 && bufferSize >= 1 }
    // Most haircuts that can be queued at once.
    function Peak(): nat { if clients < chairs then clients else chairs }
  }

  // One statement of one process; a client that orders draws its haircut code, and a barber
  // that pops may read the stray byte behind the buffer.
  datatype Label = Client(i: nat, code: CChar) | Barber(j: nat, stray: CChar)

  ghost predicate Init(p: Params, s: State) {
    && p.Valid()
    && s.semQueue == p.chairs && s.semChairs == 0 && s.semBarbers == 0 && s.mutex == 1
    && |s.buffer| == p.bufferSize && s.buffer[0] == 0
    && |s.clients| == p.clients && (forall i :: 0 <= i < p.clients ==> s.clients[i] == Arriving)
    && |s.barbers| == p.barbers && (forall j :: 0 <= j < p.barbers ==> s.barbers[j] == Asleep)
    && s.pushed == [] && s.popped == []
  }

  // aquire blocks at zero; rand() % 128 draws a code.
  predicate Enabled(s: State, l: Label) {
    match l
    case Client(i, code) =>
      i < |s.clients| && (
        match s.clients[i]
        case Arriving => s.semQueue > 0
        case Seated => s.mutex > 0
        case Ordering => 0 <= code && 0 in s.buffer
        case Ordered => true
        case Calling => true
        case Waiting => s.semChairs > 0
        case Done => false)
    case Barber(j, _) =>
      j < |s.barbers| && (
        match s.barbers[j]
        case Asleep => s.semBarbers > 0
        case Fetching => 0 in s.buffer
        case Cutting => true
        case Clearing => true
        case Looking => 0 in s.buffer)
  }

  function AfterClient(pc: ClientPc): ClientPc {
    match pc
    case Arriving => Seated
    case Seated => Ordering
    case Ordering => Ordered
    case Ordered => Calling
    case Calling => Waiting
    case Waiting => Done
    case Done => Done
  }

  function AfterBarber(pc: BarberPc): BarberPc {
    match pc
    case Asleep => Fetching
    case Fetching => Cutting
    case Cutting => Clearing
    case Clearing => Looking
    case Looking => Asleep
  }

  function Next(s: State, l: Label): State
    requires Enabled(s, l)
  {
    match l
    case Client(i, code) =>
      var pc := s.clients[i];
      var t := s.(clients := s.clients[i := AfterClient(pc)]);
      if pc == Arriving then t.(semQueue := s.semQueue - 1)
      else if pc == Seated then t.(mutex := s.mutex - 1)
      else if pc == Ordering then t.(buffer := Pushed(s.buffer, code), pushed := s.pushed + [code])
      else if pc == Ordered then t.(mutex := s.mutex + 1)
      else if pc == Calling then t.(semBarbers := s.semBarbers + 1)
      else t.(semChairs := s.semChairs - 1)
    case Barber(j, stray) =>
      var pc := s.barbers[j];
      var t := s.(barbers := s.barbers[j := AfterBarber(pc)]);
      if pc == Asleep then t.(semBarbers := s.semBarbers - 1)
      else if pc == Fetching then t.(buffer := Popped(s.buffer, stray), popped := s.popped + [PopByte(s.buffer)])
      else if pc == Cutting then t.(semChairs := s.semChairs + 1)
      else if pc == Clearing then t.(semQueue := s.semQueue + 1)
      else t
  }

  // A schedule is any interleaving of enabled statements.
  ghost predicate Schedule(s: State, ls: seq<Label>)
    decreases |ls|
  {
    ls == [] || (Enabled(s, ls[0]) && Schedule(Next(s, ls[0]), ls[1..]))
  }

  ghost function After(s: State, ls: seq<Label>): State
    requires Schedule(s, ls)
    decreases |ls|
  {
    if ls == [] then s else After(Next(s, ls[0]), ls[1..])
  }

  // ---------------------------------------------------------------- counting weights

  function HoldsSeat(c: ClientPc): nat { if c.Seated? || c.Ordering? || c.Ordered? || c.Calling? then 1 else 0 }
  function HoldsMutex(c: ClientPc): nat { if c.Ordering? || c.Ordered? then 1 else 0 }
  function Announcing(c: ClientPc): nat { if c.Ordered? || c.Calling? then 1 else 0 }
  function HasPushed(c: ClientPc): nat { if c.Ordered? || c.Calling? || c.Waiting? || c.Done? then 1 else 0 }
  function IsWaiting(c: ClientPc): nat { if c.Waiting? then 1 else 0 }
  function IsDone(c: ClientPc): nat { if c.Done? then 1 else 0 }
  function OwesSeat(b: BarberPc): nat { if b.Fetching? || b.Cutting? || b.Clearing? then 1 else 0 }
  function OwesChair(b: BarberPc): nat { if b.Fetching? || b.Cutting? then 1 else 0 }
  function IsFetching(b: BarberPc): nat { if b.Fetching? then 1 else 0 }
  function IsCutting(b: BarberPc): nat { if b.Cutting? then 1 else 0 }

  // Statements left to a client, plus the five a barber will spend on its haircut
  // once the client has released sem_barbers.
  function ClientWork(c: ClientPc): nat {
    match c
    case Arriving => 11
    case Seated => 10
    case Ordering => 9
    case Ordered => 8
    case Calling => 7
    case Waiting => 1
    case Done => 0
  }

  function BarberWork(b: BarberPc): nat {
    match b
    case Asleep => 0
    case Fetching => 4
    case Cutting => 3
    case Clearing => 2
    case Looking => 1
  }

  ghost function Measure(s: State): nat {
    Total(s.clients, ClientWork) + 5 * s.semBarbers + Total(s.barbers, BarberWork)
  }

  // Haircuts pushed and not yet popped.
  ghost function Pending(s: State): nat {
    Total(s.clients, Announcing) + s.semBarbers + Total(s.barbers, IsFetching)
  }

  // Haircuts a barber has finished: popped, and the chair given up.
  ghost function Finished(s: State): int {
    |s.popped| - Total(s.barbers, IsCutting)
  }

  // ---------------------------------------------------------------- invariants

  // The balance of every semaphore against the processes between its two ends.
  ghost predicate Balanced(p: Params, s: State) {
    && s.semQueue + Total(s.clients, HoldsSeat) + s.semBarbers + Total(s.barbers, OwesSeat) == p.chairs
    && s.mutex + Total(s.clients, HoldsMutex) == 1
    && s.semChairs + s.semBarbers + Total(s.barbers, OwesChair) == Total(s.clients, IsWaiting)
    && |s.pushed| == Total(s.clients, HasPushed)
    && |s.pushed| == |s.popped| + Pending(s)
  }

  function NonZero(s: seq<CChar>): seq<CChar> {
    if s == [] then [] else (if s[0] == 0 then [] else [s[0]]) + NonZero(s[1..])
  }

  // The haircut ledger. The string holds at most the pending haircuts; the nonzero codes
  // are served in order of arrival; the pending codes the string lacks are the zeros.
  ghost predicate Ledger(pushed: seq<CChar>, popped: seq<CChar>, text: seq<CChar>, pending: nat) {
    && NonZero(popped) + text == NonZero(pushed)
    && Conserved(multiset(pushed), multiset(popped), multiset(text), pending - |text|)
  }

  ghost predicate Conserved(pushed: multiset<CChar>, popped: multiset<CChar>, text: multiset<CChar>, zeros: int) {
    zeros >= 0 && popped + text + multiset{}[0 := zeros] == pushed
  }

  ghost predicate Consistent(s: State) {
    0 in s.buffer && Ledger(s.pushed, s.popped, Text(s.buffer), Pending(s))
  }

  // Whatever the size of the buffer: the balance, and a string of pending haircuts.
  ghost predicate Steady(p: Params, s: State) {
    && p.Valid()
    && |s.clients| == p.clients && |s.barbers| == p.barbers && |s.buffer| == p.bufferSize
    && Balanced(p, s)
    && 0 in s.buffer && |Text(s.buffer)| <= Pending(s)
  }

  // The buffer holds every haircut that can be pending, with room for the NUL.
  ghost predicate Roomy(p: Params) { p.Peak() + 1 <= p.bufferSize }

  ghost predicate Inv(p: Params, s: State) {
    Steady(p, s) && Consistent(s)
  }

  lemma MoveClient(s: State, i: nat, pc: ClientPc)
    requires i < |s.clients|
    ensures var before, after := s.clients, s.clients[i := pc];
            && Total(after, HoldsSeat) + HoldsSeat(before[i]) == Total(before, HoldsSeat) + HoldsSeat(pc)
            && Total(after, HoldsMutex) + HoldsMutex(before[i]) == Total(before, HoldsMutex) + HoldsMutex(pc)
            && Total(after, Announcing) + Announcing(before[i]) == Total(before, Announcing) + Announcing(pc)
            && Total(after, HasPushed) + HasPushed(before[i]) == Total(before, HasPushed) + HasPushed(pc)
            && Total(after, IsWaiting) + IsWaiting(before[i]) == Total(before, IsWaiting) + IsWaiting(pc)
            && Total(after, ClientWork) + ClientWork(before[i]) == Total(before, ClientWork) + ClientWork(pc)
  {
    TotalUpdate(s.clients, i, pc, HoldsSeat);
    TotalUpdate(s.clients, i, pc, HoldsMutex);
    TotalUpdate(s.clients, i, pc, Announcing);
    TotalUpdate(s.clients, i, pc, HasPushed);
    TotalUpdate(s.clients, i, pc, IsWaiting);
    TotalUpdate(s.clients, i, pc, ClientWork);
  }

  lemma MoveBarber(s: State, j: nat, pc: BarberPc)
    requires j < |s.barbers|
    ensures var before, after := s.barbers, s.barbers[j := pc];
            && Total(after, OwesSeat) + OwesSeat(before[j]) == Total(before, OwesSeat) + OwesSeat(pc)
            && Total(after, OwesChair) + OwesChair(before[j]) == Total(before, OwesChair) + OwesChair(pc)
            && Total(after, IsFetching) + IsFetching(before[j]) == Total(before, IsFetching) + IsFetching(pc)
            && Total(after, BarberWork) + BarberWork(before[j]) == Total(before, BarberWork) + BarberWork(pc)
  {
    TotalUpdate(s.barbers, j, pc, OwesSeat);
    TotalUpdate(s.barbers, j, pc, OwesChair);
    TotalUpdate(s.barbers, j, pc, IsFetching);
    TotalUpdate(s.barbers, j, pc, BarberWork);
  }

  lemma InitInv(p: Params, s: State)
    requires Init(p, s)
    ensures Inv(p, s) && Measure(s) == 11 * p.clients
  {
    TotalConstant(s.clients, HoldsSeat, 0);
    TotalConstant(s.clients, HoldsMutex, 0);
    TotalConstant(s.clients, Announcing, 0);
    TotalConstant(s.clients, HasPushed, 0);
    TotalConstant(s.clients, IsWaiting, 0);
    TotalConstant(s.clients, ClientWork, 11);
    TotalConstant(s.barbers, OwesSeat, 0);
    TotalConstant(s.barbers, OwesChair, 0);
    TotalConstant(s.barbers, IsFetching, 0);
    TotalConstant(s.barbers, BarberWork, 0);
    StrLenUnique(s.buffer, 0);
  }

  // Pending haircuts never outnumber the seats taken, nor the clients.
  lemma PendingBound(p: Params, s: State)
    requires |s.clients| == p.clients && Balanced(p, s)
    ensures Pending(s) + s.semQueue <= p.chairs
    ensures Pending(s) <= p.Peak()
    ensures forall i :: 0 <= i < |s.clients| && s.clients[i].Ordering? ==> Pending(s) + 1 <= p.Peak()
  {
    TotalMono(s.clients, Announcing, HoldsSeat);
    TotalMono(s.barbers, IsFetching, OwesSeat);
    TotalAtMostLength(s.clients, HasPushed);
    forall i | 0 <= i < |s.clients| && s.clients[i].Ordering?
      ensures Pending(s) + 1 <= p.Peak()
    {
      var t := s.clients[i := Ordered];
      MoveClient(s, i, Ordered);
      TotalMono(t, Announcing, HoldsSeat);
      TotalAtMostLength(t, HasPushed);
    }
  }

  lemma ClientBalanced(p: Params, s: State, i: nat, code: CChar)
    requires Balanced(p, s) && Enabled(s, Client(i, code))
    ensures Balanced(p, Next(s, Client(i, code)))
  {
    MoveClient(s, i, AfterClient(s.clients[i]));
  }

  lemma BarberBalanced(p: Params, s: State, j: nat, stray: CChar)
    requires Balanced(p, s) && Enabled(s, Barber(j, stray))
    ensures Balanced(p, Next(s, Barber(j, stray)))
  {
    MoveBarber(s, j, AfterBarber(s.barbers[j]));
  }

  // Every statement of every process keeps the balance ...
  lemma StepBalanced(p: Params, s: State, l: Label)
    requires Balanced(p, s) && Enabled(s, l)
    ensures Balanced(p, Next(s, l))
  {
    match l {
      case Client(i, code) => ClientBalanced(p, s, i, code);
      case Barber(j, stray) => BarberBalanced(p, s, j, stray);
    }
  }

  // ... and spends exactly one unit of work.
  lemma StepWork(s: State, l: Label)
    requires Enabled(s, l)
    ensures Measure(Next(s, l)) + 1 == Measure(s)
  {
    match l {
      case Client(i, code) =>
        MoveClient(s, i, AfterClient(s.clients[i]));
      case Barber(j, _) =>
        MoveBarber(s, j, AfterBarber(s.barbers[j]));
    }
  }

  lemma {:induction false} NonZeroAppend(a: seq<CChar>, b: seq<CChar>)
    ensures NonZero(a + b) == NonZero(a) + NonZero(b)
  {
    if a == [] {
      assert a + b == b;
    } else {
      assert (a + b)[1..] == a[1..] + b;
      NonZeroAppend(a[1..], b);
    }
  }

  lemma LedgerPush(pushed: seq<CChar>, popped: seq<CChar>, text: seq<CChar>, pending: nat, code: CChar)
    requires code != 0
    requires Ledger(pushed, popped, text, pending)
    ensures Ledger(pushed + [code], popped, text + [code], pending + 1)
  {
    assert NonZero(popped) + (text + [code]) == NonZero(pushed + [code]) by {
      NonZeroAppend(pushed, [code]);
      assert NonZero([code]) == [code];
    }
    assert multiset(pushed + [code]) == multiset(pushed) + multiset{code};
    assert multiset(text + [code]) == multiset(text) + multiset{code};
  }

  lemma LedgerPushZero(pushed: seq<CChar>, popped: seq<CChar>, text: seq<CChar>, pending: nat)
    requires Ledger(pushed, popped, text, pending)
    ensures Ledger(pushed + [0], popped, text, pending + 1)
  {
    NonZeroAppend(pushed, [0]);
    assert multiset(pushed + [0]) == multiset(pushed) + multiset{0};
  }

  lemma LedgerPop(pushed: seq<CChar>, popped: seq<CChar>, code: CChar, text: seq<CChar>, pending: nat)
    requires pending > 0 && code != 0
    requires Ledger(pushed, popped, [code] + text, pending)
    ensures Ledger(pushed, popped + [code], text, pending - 1)
  {
    ServeHead(popped, code, text);
    var had, has := multiset([code] + text), multiset(popped + [code]);
    assert had == multiset{code} + multiset(text);
    assert has == multiset(popped) + multiset{code};
    ConservedPop(multiset(pushed), multiset(popped), had, has, multiset(text), code, pending - 1 - |text|);
  }

  lemma ServeHead(popped: seq<CChar>, code: CChar, text: seq<CChar>)
    requires code != 0
    ensures NonZero(popped + [code]) + text == NonZero(popped) + ([code] + text)
  {
    NonZeroAppend(popped, [code]);
    assert NonZero([code]) == [code];
    assert NonZero(popped) + [code] + text == NonZero(popped) + ([code] + text);
  }

  lemma ConservedPop(pushed: multiset<CChar>, popped: multiset<CChar>, had: multiset<CChar>,
                     has: multiset<CChar>, text: multiset<CChar>, code: CChar, zeros: int)
    requires Conserved(pushed, popped, had, zeros)
    requires had == multiset{code} + text && has == popped + multiset{code}
    ensures Conserved(pushed, has, text, zeros)
  {
    assert popped + had == has + text;
  }

  lemma LedgerPopEmpty(pushed: seq<CChar>, popped: seq<CChar>, pending: nat)
    requires pending > 0
    requires Ledger(pushed, popped, [], pending)
    ensures Ledger(pushed, popped + [0], [], pending - 1)
  {
    NonZeroAppend(popped, [0]);
    assert multiset(popped + [0]) == multiset(popped) + multiset{0};
  }

  // With room for every pending haircut, no client ever finds the buffer full.
  lemma NeverFull(p: Params, s: State, i: nat)
    requires Steady(p, s) && Roomy(p) && i < |s.clients| && s.clients[i].Ordering?
    ensures !Full(s.buffer)
  {
    PendingBound(p, s);
  }

  lemma OrderEffect(s: State, i: nat, code: CChar)
    requires Enabled(s, Client(i, code)) && s.clients[i].Ordering?
    ensures var t := Next(s, Client(i, code));
            && 0 in t.buffer
            && Text(t.buffer) == (if Full(s.buffer) || code == 0 then Text(s.buffer) else Text(s.buffer) + [code])
            && Pending(t) == Pending(s) + 1 && t.pushed == s.pushed + [code] && t.popped == s.popped
  {
    TotalUpdate(s.clients, i, Ordered, Announcing);
    PushText(s.buffer, code);
  }

  lemma OrderConsistent(s: State, i: nat, code: CChar)
    requires Enabled(s, Client(i, code)) && s.clients[i].Ordering?
    requires Consistent(s) && !Full(s.buffer)
    ensures Consistent(Next(s, Client(i, code)))
  {
    OrderEffect(s, i, code);
    if code == 0 {
      LedgerPushZero(s.pushed, s.popped, Text(s.buffer), Pending(s));
    } else {
      LedgerPush(s.pushed, s.popped, Text(s.buffer), Pending(s), code);
    }
  }

  lemma FetchEffect(s: State, j: nat, stray: CChar)
    requires Enabled(s, Barber(j, stray)) && s.barbers[j].Fetching?
    ensures var t, b := Next(s, Barber(j, stray)), PopByte(s.buffer);
            && 0 in t.buffer && Text(s.buffer) == (if b == 0 then Text(t.buffer) else [b] + Text(t.buffer))
            && (b == 0 ==> Text(t.buffer) == [])
            && Pending(s) > 0 && Pending(t) == Pending(s) - 1 && t.popped == s.popped + [b] && t.pushed == s.pushed
  {
    TotalUpdate(s.barbers, j, Cutting, IsFetching);
    TotalAtLeast(s.barbers, j, IsFetching);
    PopText(s.buffer, stray);
  }

  lemma FetchConsistent(s: State, j: nat, stray: CChar)
    requires Enabled(s, Barber(j, stray)) && s.barbers[j].Fetching?
    requires Consistent(s)
    ensures Consistent(Next(s, Barber(j, stray)))
  {
    FetchEffect(s, j, stray);
    if PopByte(s.buffer) == 0 {
      LedgerPopEmpty(s.pushed, s.popped, Pending(s));
    } else {
      LedgerPop(s.pushed, s.popped, PopByte(s.buffer), Text(Next(s, Barber(j, stray)).buffer), Pending(s));
    }
  }

  // The statements that touch only semaphores leave the ledger alone.
  lemma OtherPending(s: State, l: Label)
    requires Enabled(s, l)
    requires if l.Client? then !s.clients[l.i].Ordering? else !s.barbers[l.j].Fetching?
    ensures Pending(Next(s, l)) == Pending(s)
  {
    if l.Client? {
      TotalUpdate(s.clients, l.i, AfterClient(s.clients[l.i]), Announcing);
    } else {
      TotalUpdate(s.barbers, l.j, AfterBarber(s.barbers[l.j]), IsFetching);
    }
  }

  lemma StepShape(s: State, l: Label)
    requires 0 in s.buffer && Enabled(s, l)
    ensures var t := Next(s, l); |t.clients| == |s.clients| && |t.barbers| == |s.barbers| && |t.buffer| == |s.buffer|
    ensures 0 in Next(s, l).buffer
  {
    if l.Client? && s.clients[l.i].Ordering? {
      PushText(s.buffer, l.code);
      assert Next(s, l).buffer == Pushed(s.buffer, l.code);
    } else if l.Barber? && s.barbers[l.j].Fetching? {
      PopText(s.buffer, l.stray);
      assert Next(s, l).buffer == Popped(s.buffer, l.stray);
    } else {
      assert Next(s, l).buffer == s.buffer;
    }
  }

  // Every statement of every process keeps the balance and the bound on the string.
  lemma StepSteady(p: Params, s: State, l: Label)
    requires Steady(p, s) && Enabled(s, l)
    ensures Steady(p, Next(s, l))
  {
    StepBalanced(p, s, l);
    StepShape(s, l);
    if l.Client? && s.clients[l.i].Ordering? {
      OrderEffect(s, l.i, l.code);
    } else if l.Barber? && s.barbers[l.j].Fetching? {
      FetchEffect(s, l.j, l.stray);
    } else {
      OtherPending(s, l);
    }
  }

  lemma StepInv(p: Params, s: State, l: Label)
    requires Inv(p, s) && Roomy(p) && Enabled(s, l)
    ensures Inv(p, Next(s, l))
  {
    StepSteady(p, s, l);
    if l.Client? && s.clients[l.i].Ordering? {
      NeverFull(p, s, l.i);
      OrderConsistent(s, l.i, l.code);
    } else if l.Barber? && s.barbers[l.j].Fetching? {
      FetchConsistent(s, l.j, l.stray);
    } else {
      OtherPending(s, l);
    }
  }

  // ---------------------------------------------------------------- whole runs

  lemma {:induction false} RunWork(s: State, ls: seq<Label>)
    requires Schedule(s, ls)
    ensures Measure(After(s, ls)) + |ls| == Measure(s)
    decreases |ls|
  {
    if ls != [] {
      StepWork(s, ls[0]);
      RunWork(Next(s, ls[0]), ls[1..]);
    }
  }

  lemma {:induction false} RunInv(p: Params, s: State, ls: seq<Label>)
    requires Inv(p, s) && Roomy(p) && Schedule(s, ls)
    ensures Inv(p, After(s, ls))
    decreases |ls|
  {
    if ls != [] {
      StepInv(p, s, ls[0]);
      RunInv(p, Next(s, ls[0]), ls[1..]);
    }
  }

  lemma {:induction false} RunSteady(p: Params, s: State, ls: seq<Label>)
    requires Steady(p, s) && Schedule(s, ls)
    ensures Steady(p, After(s, ls))
    decreases |ls|
  {
    if ls != [] {
      StepSteady(p, s, ls[0]);
      RunSteady(p, Next(s, ls[0]), ls[1..]);
    }
  }

  // No interleaving runs longer than eleven statements per client.
  lemma RunsAreFinite(p: Params, s: State, ls: seq<Label>)
    requires Init(p, s) && Schedule(s, ls)
    ensures |ls| <= 11 * p.clients
  {
    InitInv(p, s);
    RunWork(s, ls);
  }

  // The semaphores against the processes between their two ends, in every reachable state.
  lemma SemaphoresBalance(p: Params, s: State, ls: seq<Label>)
    requires Init(p, s) && Schedule(s, ls)
    ensures var t := After(s, ls);
            && 0 in t.buffer && |Text(t.buffer)| <= p.chairs - t.semQueue
            && Total(t.barbers, OwesSeat) <= (if p.barbers < p.chairs then p.barbers else p.chairs)
            && Total(t.clients, HoldsMutex) <= 1
            && Total(t.clients, IsDone) + t.semChairs == Finished(t)
            && Finished(t) <= |t.popped| <= |t.pushed| <= p.clients
  {
    var t := After(s, ls);
    InitInv(p, s);
    RunSteady(p, s, ls);
    PendingBound(p, t);
    TotalAtMostLength(t.barbers, OwesSeat);
    TotalAtMostLength(t.clients, HasPushed);
    PushedSplit(t);
  }

  lemma PushedSplit(t: State)
    ensures Total(t.clients, HasPushed) == Total(t.clients, Announcing) + Total(t.clients, IsWaiting) + Total(t.clients, IsDone)
    ensures Total(t.barbers, OwesChair) == Total(t.barbers, IsFetching) + Total(t.barbers, IsCutting)
  {
    TotalSum(t.clients, IsWaiting, IsDone, HasPaid);
    TotalSum(t.clients, Announcing, HasPaid, HasPushed);
    TotalSum(t.barbers, IsFetching, IsCutting, OwesChair);
  }

  function HasPaid(c: ClientPc): nat { IsWaiting(c) + IsDone(c) }

  // Every code handed in is served once or still pending, the zeros included.
  ghost predicate Accounted(t: State) {
    && 0 in t.buffer && |Text(t.buffer)| <= Pending(t) && |t.pushed| == |t.popped| + Pending(t)
    && multiset(t.popped) + multiset(Text(t.buffer)) + multiset{}[0 := Pending(t) - |Text(t.buffer)|] == multiset(t.pushed)
    && NonZero(t.popped) + Text(t.buffer) == NonZero(t.pushed)
  }

  lemma HaircutsConserved(p: Params, s: State, ls: seq<Label>)
    requires Init(p, s) && Roomy(p) && Schedule(s, ls)
    ensures Accounted(After(s, ls))
  {
    InitInv(p, s);
    RunInv(p, s, ls);
  }

  lemma {:induction false} NonZeroAll(s: seq<CChar>)
    requires 0 !in s
    ensures NonZero(s) == s
  {
    if s != [] {
      NonZeroAll(s[1..]);
    }
  }

  // When no client draws code 0 the queue is exactly first in, first out, and no barber
  // ever finds it empty.
  lemma ServedInOrder(p: Params, s: State, ls: seq<Label>)
    requires Init(p, s) && Roomy(p) && Schedule(s, ls) && 0 !in After(s, ls).pushed
    ensures var t := After(s, ls);
            && 0 in t.buffer && t.popped + Text(t.buffer) == t.pushed
            && forall j :: 0 <= j < |t.barbers| && t.barbers[j].Fetching? ==> Text(t.buffer) != []
  {
    var t := After(s, ls);
    HaircutsConserved(p, s, ls);
    NonZeroAll(t.pushed);
    assert 0 !in multiset(t.pushed);
    assert multiset(t.popped)[0] == 0;
    NonZeroAll(t.popped);
    assert (multiset{}[0 := Pending(t) - |Text(t.buffer)|])[0] == 0;
    forall j | 0 <= j < |t.barbers| && t.barbers[j].Fetching?
      ensures Text(t.buffer) != []
    {
      TotalAtLeast(t.barbers, j, IsFetching);
    }
  }

  // ---------------------------------------------------------------- liveness

  ghost predicate Final(p: Params, t: State) {
    && (forall i :: 0 <= i < |t.clients| ==> t.clients[i] == Done)
    && (forall j :: 0 <= j < |t.barbers| ==> t.barbers[j] == Asleep)
    && t.semQueue == p.chairs && t.semChairs == 0 && t.semBarbers == 0 && t.mutex == 1
    && 0 in t.buffer && Text(t.buffer) == []
    && |t.pushed| == |t.popped| == p.clients
  }

  // A process that is neither blocked at a semaphore nor finished can move.
  lemma MoverBusy(p: Params, t: State) returns (l: Label)
    requires Steady(p, t)
    requires Total(t.clients, HoldsSeat) > 0 || Total(t.barbers, BarberWork) > 0
    ensures Enabled(t, l)
  {
    if Total(t.barbers, BarberWork) > 0 {
      var j := TotalWitness(t.barbers, BarberWork);
      l := Barber(j, 0);
    } else {
      var i := TotalWitness(t.clients, HoldsSeat);
      if t.clients[i].Seated? && t.mutex == 0 {
        i := TotalWitness(t.clients, HoldsMutex);
      }
      l := Client(i, 0);
    }
  }

  // When every process is at rest: an unfinished client can sit down, be called, or leave.
  lemma MoverAtRest(p: Params, t: State) returns (l: Label)
    requires Steady(p, t)
    requires Total(t.clients, HoldsSeat) == 0 && Total(t.barbers, BarberWork) == 0
    requires Measure(t) > 0
    ensures Enabled(t, l)
  {
    TotalMono(t.barbers, OwesSeat, BarberWork);
    TotalMono(t.barbers, OwesChair, BarberWork);
    TotalAtLeast(t.barbers, 0, BarberWork);
    if t.semBarbers > 0 {
      l := Barber(0, 0);
    } else {
      var i := TotalWitness(t.clients, ClientWork);
      TotalAtLeast(t.clients, i, HoldsSeat);
      TotalAtLeast(t.clients, i, IsWaiting);
      l := Client(i, 0);
    }
  }

  lemma Mover(p: Params, t: State) returns (l: Label)
    requires Steady(p, t) && Measure(t) > 0
    ensures Enabled(t, l)
  {
    if Total(t.clients, HoldsSeat) > 0 || Total(t.barbers, BarberWork) > 0 {
      l := MoverBusy(p, t);
    } else {
      l := MoverAtRest(p, t);
    }
  }

  lemma SpentIsFinal(p: Params, t: State)
    requires Steady(p, t) && Measure(t) == 0
    ensures Final(p, t)
  {
    forall i | 0 <= i < |t.clients|
      ensures t.clients[i] == Done
    {
      TotalAtLeast(t.clients, i, ClientWork);
    }
    forall j | 0 <= j < |t.barbers|
      ensures t.barbers[j] == Asleep
    {
      TotalAtLeast(t.barbers, j, BarberWork);
    }
    TotalConstant(t.clients, HoldsSeat, 0);
    TotalConstant(t.clients, HoldsMutex, 0);
    TotalConstant(t.clients, IsWaiting, 0);
    TotalConstant(t.clients, Announcing, 0);
    TotalConstant(t.clients, HasPushed, 1);
    TotalConstant(t.barbers, OwesSeat, 0);
    TotalConstant(t.barbers, IsFetching, 0);
    assert Text(t.buffer) == [];
  }

  lemma FinalIsStuck(p: Params, t: State, l: Label)
    requires Final(p, t)
    ensures !Enabled(t, l)
  {
  }

  // Deadlock freedom: while some client is unfinished, some process can move.
  lemma DeadlockFree(p: Params, s: State, ls: seq<Label>, i: nat) returns (l: Label)
    requires Init(p, s) && Schedule(s, ls)
    requires i < |After(s, ls).clients| && After(s, ls).clients[i] != Done
    ensures Enabled(After(s, ls), l)
  {
    InitInv(p, s);
    RunSteady(p, s, ls);
    TotalAtLeast(After(s, ls).clients, i, ClientWork);
    l := Mover(p, After(s, ls));
  }

  lemma NothingLost(t: State)
    requires Accounted(t) && Pending(t) == 0
    ensures multiset(t.popped) == multiset(t.pushed)
  {
    assert Text(t.buffer) == [];
    assert multiset(t.popped) + multiset{} + multiset{}[0 := 0] == multiset(t.popped);
  }

  // Liveness: a run can go no further exactly when it has made eleven statements per
  // client, and then everyone is served, every barber sleeps and the semaphores are back; in
  // a roomy buffer no code has been lost.
  lemma MaximalRuns(p: Params, s: State, ls: seq<Label>)
    requires Init(p, s) && Schedule(s, ls)
    ensures (forall l :: !Enabled(After(s, ls), l)) <==> |ls| == 11 * p.clients
    ensures (forall l :: !Enabled(After(s, ls), l)) <==> Final(p, After(s, ls))
    ensures Final(p, After(s, ls)) && Roomy(p) ==> multiset(After(s, ls).popped) == multiset(After(s, ls).pushed)
  {
    var t := After(s, ls);
    InitInv(p, s);
    RunWork(s, ls);
    RunSteady(p, s, ls);
    if Measure(t) > 0 {
      var l := Mover(p, t);
      assert Enabled(t, l);
      if Final(p, t) {
        FinalIsStuck(p, t, l);
      }
    } else {
      SpentIsFinal(p, t);
      if Roomy(p) {
        HaircutsConserved(p, s, ls);
        NothingLost(t);
      }
      forall l
        ensures !Enabled(t, l)
      {
        FinalIsStuck(p, t, l);
      }
    }
  }

  // ---------------------------------------------------------------- the buffer's edge

  // Small enough to store nothing, or large enough for queue_pop to copy the byte after the
  // NUL of every string that can be stored.
  ghost predicate Safe(p: Params) { !(2 <= p.bufferSize <= p.Peak() + 1) }

  // A barber about to pop from a safe buffer stays in it.
  lemma PopAllowed(p: Params, t: State)
    requires Steady(p, t) && Safe(p)
    ensures PopInBounds(t.buffer)
  {
    PendingBound(p, t);
  }

  // queue_pop is about to copy a byte from behind the buffer.
  ghost predicate Overrun(t: State) {
    0 in t.buffer && !PopInBounds(t.buffer) && exists j :: 0 <= j < |t.barbers| && t.barbers[j].Fetching?
  }

  ghost predicate ReachesOverrun(s: State, ls: seq<Label>) {
    Schedule(s, ls) && Overrun(After(s, ls))
  }

  // The statement of a barber that reads behind the buffer.
  predicate Faults(s: State, l: Label)
    requires Enabled(s, l)
  {
    l.Barber? && s.barbers[l.j].Fetching? && !PopInBounds(s.buffer)
  }

  // No statement of ls reads behind the buffer.
  ghost predicate Careful(s: State, ls: seq<Label>)
    requires Schedule(s, ls)
    decreases |ls|
  {
    ls == [] || (!Faults(s, ls[0]) && Careful(Next(s, ls[0]), ls[1..]))
  }

  lemma {:induction false} ScheduleConcat(s: State, a: seq<Label>, b: seq<Label>)
    requires Schedule(s, a) && Schedule(After(s, a), b)
    ensures Schedule(s, a + b) && After(s, a + b) == After(After(s, a), b)
    ensures Careful(s, a) && Careful(After(s, a), b) ==> Careful(s, a + b)
    decreases |a|
  {
    if a == [] {
      assert a + b == b;
    } else {
      assert (a + b)[1..] == a[1..] + b;
      ScheduleConcat(Next(s, a[0]), a[1..], b);
    }
  }

  lemma Prepend(s: State, l: Label, rest: seq<Label>) returns (ls: seq<Label>)
    requires Enabled(s, l) && Schedule(Next(s, l), rest)
    ensures Schedule(s, ls) && After(s, ls) == After(Next(s, l), rest)
    ensures !Faults(s, l) && Careful(Next(s, l), rest) ==> Careful(s, ls)
  {
    ls := [l] + rest;
    assert ls[1..] == rest;
  }

  // The first m clients have ordered a nonzero code and wait; nobody else has moved.
  ghost predicate Loaded(p: Params, s: State, m: nat) {
    && m <= p.chairs && s.semQueue == p.chairs - m && s.mutex == 1 && s.semBarbers == m
    && |s.buffer| == p.bufferSize && 0 in s.buffer && |Text(s.buffer)| == m
    && s.popped == [] && |NonZero(s.pushed)| == m
    && |s.clients| == p.clients && (forall i :: 0 <= i < p.clients ==> s.clients[i] == if i < m then Waiting else Arriving)
    && |s.barbers| == p.barbers && (forall j :: 0 <= j < p.barbers ==> s.barbers[j] == Asleep)
  }

  // One client on its own, from the door to the waiting chair.
  lemma ClientAlone(s: State, i: nat) returns (ls: seq<Label>)
    requires i < |s.clients| && s.clients[i] == Arriving
    requires s.semQueue > 0 && s.mutex == 1 && 0 in s.buffer
    ensures Schedule(s, ls) && Careful(s, ls)
    ensures After(s, ls) == s.(
              semQueue := s.semQueue - 1, semBarbers := s.semBarbers + 1, clients := s.clients[i := Waiting],
              buffer := Pushed(s.buffer, 1), pushed := s.pushed + [1])
  {
    var l := Client(i, 1);
    var s1 := Next(s, l);
    var s2 := Next(s1, l);
    var s3 := Next(s2, l);
    var s4 := Next(s3, l);
    assert Next(s4, l).clients == s.clients[i := Waiting];
    ls := Prepend(s4, l, []);
    ls := Prepend(s3, l, ls);
    ls := Prepend(s2, l, ls);
    ls := Prepend(s1, l, ls);
    ls := Prepend(s, l, ls);
  }

  lemma LoadOne(p: Params, s: State, m: nat) returns (ls: seq<Label>)
    requires Loaded(p, s, m) && m < p.Peak() && m + 1 < p.bufferSize
    ensures Schedule(s, ls) && Careful(s, ls) && Loaded(p, After(s, ls), m + 1)
  {
    PushText(s.buffer, 1);
    NonZeroAppend(s.pushed, [1]);
    ls := ClientAlone(s, m);
  }

  lemma {:induction false} LoadUp(p: Params, s: State, m: nat) returns (ls: seq<Label>)
    requires p.Valid() && Loaded(p, s, m)
    requires 2 <= p.bufferSize && m + 1 <= p.bufferSize <= p.Peak() + 1
    ensures Schedule(s, ls) && Careful(s, ls) && Overrun(After(s, ls)) && Jammed(After(s, ls))
    decreases p.bufferSize - m
  {
    if m + 1 == p.bufferSize {
      ls := Prepend(s, Barber(0, 0), []);
      assert After(s, ls).barbers[0].Fetching?;
    } else {
      var first := LoadOne(p, s, m);
      var rest := LoadUp(p, After(s, first), m + 1);
      ScheduleConcat(s, first, rest);
      ls := first + rest;
    }
  }

  // Some run drives queue_pop past the end of the buffer exactly when the salon can queue
  // as many haircuts as the buffer has room for.
  lemma OverrunExactly(p: Params, s: State)
    requires Init(p, s)
    ensures (exists ls :: ReachesOverrun(s, ls)) <==> !Safe(p)
  {
    InitInv(p, s);
    if !Safe(p) {
      var ls := LoadUp(p, s, 0);
      assert ReachesOverrun(s, ls);
    } else {
      forall ls | Schedule(s, ls)
        ensures !ReachesOverrun(s, ls)
      {
        NoOverrun(p, s, ls);
      }
    }
  }

  lemma NoOverrun(p: Params, s: State, ls: seq<Label>)
    requires Steady(p, s) && Safe(p) && Schedule(s, ls)
    ensures !Overrun(After(s, ls))
  {
    RunSteady(p, s, ls);
    PopAllowed(p, After(s, ls));
  }

  // ---- where reading behind the buffer stops the barber

  // The buffer is full and a barber is about to pop from it.
  ghost predicate Jammed(t: State) {
    0 in t.buffer && Full(t.buffer) && Overrun(t)
  }

  lemma StaysJammed(t: State, l: Label)
    requires Jammed(t) && Enabled(t, l) && !Faults(t, l)
    ensures Jammed(Next(t, l))
  {
    var j :| 0 <= j < |t.barbers| && t.barbers[j].Fetching?;
    assert Next(t, l).buffer == t.buffer;
    assert Next(t, l).barbers[j].Fetching?;
  }

  // Nothing is left to do but to read behind the buffer, and a client is unfinished.
  ghost predicate Stuck(t: State) {
    (forall l :: Enabled(t, l) ==> Faults(t, l)) && exists i :: 0 <= i < |t.clients| && t.clients[i] != Done
  }

  lemma JammedIsUnfinished(p: Params, t: State)
    requires Steady(p, t) && Jammed(t)
    ensures exists i :: 0 <= i < |t.clients| && t.clients[i] != Done
  {
    var j :| 0 <= j < |t.barbers| && t.barbers[j].Fetching?;
    TotalAtLeast(t.barbers, j, OwesChair);
    var i := TotalWitness(t.clients, IsWaiting);
    assert t.clients[i] != Done;
  }

  lemma {:induction false} RunOut(p: Params, t: State) returns (ls: seq<Label>)
    requires Steady(p, t) && Jammed(t)
    ensures Schedule(t, ls) && Careful(t, ls) && Stuck(After(t, ls))
    decreases Measure(t)
  {
    if l :| Enabled(t, l) && !Faults(t, l) {
      StepWork(t, l);
      StepSteady(p, t, l);
      StaysJammed(t, l);
      ls := RunOut(p, Next(t, l));
      ls := Prepend(t, l, ls);
    } else {
      JammedIsUnfinished(p, t);
      ls := [];
    }
  }

  ghost predicate ReachesStuck(s: State, ls: seq<Label>) {
    Schedule(s, ls) && Careful(s, ls) && Stuck(After(s, ls))
  }

  // If reading behind the buffer stops a barber, some run gets stuck with an unfinished
  // client exactly when the buffer is not safe.
  lemma StuckExactly(p: Params, s: State)
    requires Init(p, s)
    ensures (exists ls :: ReachesStuck(s, ls)) <==> !Safe(p)
  {
    InitInv(p, s);
    if Safe(p) {
      forall ls | Schedule(s, ls)
        ensures !ReachesStuck(s, ls)
      {
        RunSteady(p, s, ls);
        PopAllowed(p, After(s, ls));
        if i :| 0 <= i < |After(s, ls).clients| && After(s, ls).clients[i] != Done {
          var l := DeadlockFree(p, s, ls, i);
        }
      }
    } else {
      var first := LoadUp(p, s, 0);
      RunSteady(p, s, first);
      var rest := RunOut(p, After(s, first));
      ScheduleConcat(s, first, rest);
      assert ReachesStuck(s, first + rest);
    }
  }

  // ---- an order that is dropped

  // A client is about to push into a full buffer, which drops the haircut.
  ghost predicate DropsOrder(t: State) {
    0 in t.buffer && Full(t.buffer) && exists i :: 0 <= i < |t.clients| && t.clients[i].Ordering?
  }

  ghost predicate ReachesDrop(s: State, ls: seq<Label>) {
    Schedule(s, ls) && DropsOrder(After(s, ls))
  }

  lemma {:induction false} FillUp(p: Params, s: State, m: nat) returns (ls: seq<Label>)
    requires p.Valid() && Loaded(p, s, m) && m < p.bufferSize <= p.Peak()
    ensures Schedule(s, ls) && DropsOrder(After(s, ls))
    decreases p.bufferSize - m
  {
    if m + 1 == p.bufferSize {
      var l := Client(m, 1);
      ls := Prepend(Next(s, l), l, []);
      ls := Prepend(s, l, ls);
      assert After(s, ls).clients[m].Ordering?;
    } else {
      var first := LoadOne(p, s, m);
      var rest := FillUp(p, After(s, first), m + 1);
      ScheduleConcat(s, first, rest);
      ls := first + rest;
    }
  }

  // Some run drops a haircut at a full buffer exactly when more haircuts can be queued than
  // the buffer can hold beside its NUL.
  lemma DropExactly(p: Params, s: State)
    requires Init(p, s)
    ensures (exists ls :: ReachesDrop(s, ls)) <==> !Roomy(p)
  {
    InitInv(p, s);
    if Roomy(p) {
      forall ls | Schedule(s, ls)
        ensures !ReachesDrop(s, ls)
      {
        RunSteady(p, s, ls);
        var t := After(s, ls);
        forall i | 0 <= i < |t.clients| && t.clients[i].Ordering?
          ensures !Full(t.buffer)
        {
          NeverFull(p, t, i);
        }
      }
    } else {
      var ls := FillUp(p, s, 0);
      assert ReachesDrop(s, ls);
    }
  }

  lemma {:induction false} LoseOne(p: Params, s: State, m: nat) returns (ls: seq<Label>)
    requires p.Valid() && Loaded(p, s, m) && m < p.bufferSize <= p.Peak()
    ensures Schedule(s, ls) && !Accounted(After(s, ls))
    decreases p.bufferSize - m
  {
    if m + 1 == p.bufferSize {
      PushText(s.buffer, 1);
      NonZeroAppend(s.pushed, [1]);
      ls := ClientAlone(s, m);
      assert |NonZero(After(s, ls).pushed)| == m + 1;
    } else {
      var first := LoadOne(p, s, m);
      var rest := LoseOne(p, After(s, first), m + 1);
      ScheduleConcat(s, first, rest);
      ls := first + rest;
    }
  }

  ghost predicate ReachesLoss(s: State, ls: seq<Label>) {
    Schedule(s, ls) && !Accounted(After(s, ls))
  }

  // All haircuts are accounted for in every run exactly when the buffer is roomy.
  lemma ConservedExactly(p: Params, s: State)
    requires Init(p, s)
    ensures (exists ls :: ReachesLoss(s, ls)) <==> !Roomy(p)
  {
    if Roomy(p) {
      forall ls | Schedule(s, ls)
        ensures !ReachesLoss(s, ls)
      {
        HaircutsConserved(p, s, ls);
      }
    } else {
      InitInv(p, s);
      var ls := LoseOne(p, s, 0);
      assert ReachesLoss(s, ls);
    }
  }
}
