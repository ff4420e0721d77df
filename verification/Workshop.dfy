// The workshop as its threads run it: monitors updated in place.
// Source: lab9/zad1/main.c
module Workshop {
  import opened Santa

  class Monitor {
    var mutex: nat
    var value: nat

    constructor ()
      ensures mutex == 1 && value == 0
    {
      mutex, value := 1, 0;
    }

    // pthread_mutex_lock: a caller that finds the mutex taken stays blocked.
    method Lock()
      requires mutex > 0
      modifies this`mutex
      ensures mutex == old(mutex) - 1
    {
      mutex := mutex - 1;
    }

    method Unlock()
      modifies this`mutex
      ensures mutex == old(mutex) + 1
    {
      mutex := mutex + 1;
    }
  }

  class Program {
    const p: Params
    const elves: Monitor
    const rindeers: Monitor
    var santaValue: nat
    var santaPc: SantaPc
    var elfPcs: seq<HelperPc>
    var deerPcs: seq<HelperPc>
    ghost var elfIncs: nat
    ghost var helps: nat
    ghost var deerIncs: nat
    ghost var elfWaits: nat
    ghost var deerWaits: nat

    ghost function View(): State
      reads this, elves, rindeers
    {
      State(elves.mutex, elves.value, elfPcs, rindeers.mutex, rindeers.value, deerPcs,
            santaPc, santaValue, elfIncs, helps, deerIncs, elfWaits, deerWaits)
    }

    constructor (p: Params)
      requires p.Valid()
      ensures this.p == p && elves != rindeers && Init(p, View())
      ensures fresh(elves) && fresh(rindeers)
    {
      this.p := p;
      elves := new Monitor();
      rindeers := new Monitor();
      santaValue, santaPc := 0, Dozing;
      elfPcs, deerPcs := seq(p.elves, i => Away), seq(p.deer, i => Away);
      elfIncs, helps, deerIncs, elfWaits, deerWaits := 0, 0, 0, 0, 0;
    }

    // pthread_cond_signal(&santa.condition)
    method SignalSanta()
      modifies this`santaPc
      ensures santaPc == if old(santaPc) == Asleep then Awake else old(santaPc)
    {
      if santaPc == Asleep {
        santaPc := Awake;
      }
    }

    // elf_routine, one statement of elf i.
    method ElfStep(i: nat)
      requires elves != rindeers && Enabled(p, View(), Elf(i))
      modifies this, elves
      ensures View() == Next(p, old(View()), Elf(i))
    {
      var pc: HelperPc;
      match elfPcs[i] {
        case Away =>
          elves.Lock();
          pc := Arrived;
        case Arrived =>
          pc := Leaving;
          if elves.value < p.required {
            elves.value := elves.value + 1;
            elfIncs := elfIncs + 1;
            if elves.value == p.required {
              pc := Rousing;
            }
          }
        case Rousing =>
          SignalSanta();
          pc := Parking;
        case Parking =>
          elves.Unlock();
          elfWaits := elfWaits + 1;
          pc := Waiting;
        case Woken =>
          elves.Lock();
          pc := Leaving;
        case Leaving =>
          elves.Unlock();
          pc := Away;
      }
      elfPcs := elfPcs[i := pc];
    }

    // reindeer_routine, one statement of reindeer i.
    method ReindeerStep(i: nat)
      requires elves != rindeers && Enabled(p, View(), Deer(i))
      modifies this, rindeers
      ensures View() == Next(p, old(View()), Deer(i))
    {
      var pc: HelperPc;
      match deerPcs[i] {
        case Away =>
          rindeers.Lock();
          pc := Arrived;
        case Arrived =>
          if rindeers.value < p.team {
            rindeers.value := rindeers.value + 1;
            deerIncs := deerIncs + 1;
          }
          pc := if rindeers.value == p.team then Rousing else Leaving;
        case Rousing =>
          SignalSanta();
          pc := Parking;
        case Parking =>
          rindeers.Unlock();
          deerWaits := deerWaits + 1;
          pc := Waiting;
        case Woken =>
          rindeers.Lock();
          pc := Leaving;
        case Leaving =>
          rindeers.Unlock();
          pc := Away;
      }
      deerPcs := deerPcs[i := pc];
    }

    // santa_routine, one statement; a signal he sends wakes thread j if any thread waits.
    method SantaStep(j: nat)
      requires elves != rindeers && Enabled(p, View(), Label.Santa(j))
      modifies this, elves, rindeers
      ensures View() == Next(p, old(View()), Label.Santa(j))
    {
      match santaPc {
        case Dozing => santaPc := Asleep;
        case Awake =>
          elves.Lock();
          santaPc := AtElves;
        case AtElves =>
          if elves.value == p.required {
            elfPcs := Wake(elfPcs, j);
            elves.value := 0;
            helps := helps + 1;
          }
          santaPc := LeavingElves;
        case LeavingElves =>
          elves.Unlock();
          santaPc := ToDeer;
        case ToDeer =>
          rindeers.Lock();
          santaPc := AtDeer;
        case AtDeer =>
          santaPc := LeavingDeer;
          if rindeers.value == p.team {
            santaValue := santaValue + 1;
            deerPcs := Wake(deerPcs, j);
            rindeers.value := 0;
            if santaValue == p.deliveries {
              santaPc := Gone;
            }
          }
        case LeavingDeer =>
          rindeers.Unlock();
          santaPc := Dozing;
      }
    }

    // Any interleaving of the threads.
    method Run(ls: seq<Label>)
      requires elves != rindeers && Schedule(p, View(), ls)
      modifies this, elves, rindeers
      ensures View() == After(p, old(View()), ls)
      decreases |ls|
    {
      if ls != [] {
        match ls[0] {
          case Elf(i) => ElfStep(i);
          case Deer(i) => ReindeerStep(i);
          case Santa(j) => SantaStep(j);
        }
        Run(ls[1..]);
      }
    }
  }
}
