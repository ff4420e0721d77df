// The salon as its processes run it: semaphores and the shared buffer updated in place.
// Source: lab7/zad1/v1/{utils,simulation,client,barber}.c
module Salon {
  import opened StringQueue
  import opened Barber

  class Semaphore {
    var value: nat

    // create_semaphore
    constructor (initial: nat)
      ensures value == initial
    {
      value := initial;
    }

    // semop with -1: a caller that finds 0 stays blocked, so it runs only above 0.
    method Aquire()
      requires value > 0
      modifies this
      ensures value == old(value) - 1
    {
      value := value - 1;
    }

    // semop with +1.
    method Release()
      modifies this
      ensures value == old(value) + 1
    {
      value := value + 1;
    }
  }

  class Simulation {
    const semQueue: Semaphore
    const semChairs: Semaphore
    const semBarbers: Semaphore
    const bufferMutex: Semaphore
    const queue: array<CChar>
    var clients: seq<ClientPc>
    var barbers: seq<BarberPc>
    ghost var pushed: seq<CChar>
    ghost var popped: seq<CChar>

    ghost predicate Valid() {
      semQueue != semChairs && semQueue != semBarbers && semQueue != bufferMutex
      && semChairs != semBarbers && semChairs != bufferMutex && semBarbers != bufferMutex
    }

    ghost function View(): State
      reads this, semQueue, semChairs, semBarbers, bufferMutex, queue
    {
      State(semQueue.value, semChairs.value, semBarbers.value, bufferMutex.value,
            queue[..], clients, barbers, pushed, popped)
    }

    constructor (p: Params)
      requires p.Valid()
      ensures Valid() && Init(p, View())
      ensures fresh(semQueue) && fresh(semChairs) && fresh(semBarbers) && fresh(bufferMutex) && fresh(queue)
    {
      semQueue := new Semaphore(p.chairs);
      semChairs := new Semaphore(0);
      semBarbers := new Semaphore(0);
      bufferMutex := new Semaphore(1);
      var shared := new CChar[p.bufferSize];
      shared[0] := 0;
      queue := shared;
      clients := seq(p.clients, i => Arriving);
      barbers := seq(p.barbers, j => Asleep);
      pushed, popped := [], [];
    }

    // The next statement of client i.
    method ClientStep(i: nat, code: CChar)
      requires Valid() && Enabled(View(), Client(i, code))
      modifies this, semQueue, semChairs, semBarbers, bufferMutex, queue
      ensures View() == Next(old(View()), Client(i, code))
    {
      match clients[i] {
        case Arriving => semQueue.Aquire();
        case Seated => bufferMutex.Aquire();
        case Ordering =>
          QueuePush(queue, code);
          pushed := pushed + [code];
        case Ordered => bufferMutex.Release();
        case Calling => semBarbers.Release();
        case Waiting => semChairs.Aquire();
      }
      clients := clients[i := AfterClient(clients[i])];
    }

    // The next statement of barber j; stray is the byte that memory holds behind the queue.
    method BarberStep(j: nat, stray: CChar)
      requires Valid() && Enabled(View(), Label.Barber(j, stray))
      modifies this, semQueue, semChairs, semBarbers, bufferMutex, queue
      ensures View() == Next(old(View()), Label.Barber(j, stray))
    {
      match barbers[j] {
        case Asleep => semBarbers.Aquire();
        case Fetching =>
          var haircut := QueuePop(queue, stray);
          popped := popped + [haircut];
        case Cutting => semChairs.Release();
        case Clearing => semQueue.Release();
        case Looking =>
          var idle := QueueEmpty(queue);
      }
      barbers := barbers[j := AfterBarber(barbers[j])];
    }

    // Any interleaving of the processes.
    method Run(ls: seq<Label>)
      requires Valid() && Schedule(View(), ls)
      modifies this, semQueue, semChairs, semBarbers, bufferMutex, queue
      ensures View() == After(old(View()), ls)
      decreases |ls|
    {
      if ls != [] {
        match ls[0] {
          case Client(i, code) => ClientStep(i, code);
          case Barber(j, stray) => BarberStep(j, stray);
        }
        Run(ls[1..]);
      }
    }
  }
}
