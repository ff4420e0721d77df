# Verified models of the operating-systems exercises

This project models, in Dafny, the concurrent protocols and the parallel or in-place algorithms
of the exercises, and proves what they keep over every run. Each protocol has two layers:

- a step machine on values (`Enabled`, `Next`, `Schedule`, `After`): one label is one statement
  of one process or thread, and a schedule is any interleaving of enabled statements;
- classes whose methods update fields, arrays and semaphores in place as the C code does, each
  method proved to take exactly the machine's step, so that every theorem about runs holds of
  them.

Laws over whole runs are told from the schedule alone where they can be: who ordered what, who said
what to whom, which slot was quit, and not from what the machine has written down about it.

The `#define`s are parameters, so all theorems are over every number of clients, barbers,
chairs, elves, reindeer, slots, workers, and every grid size.

| file | models |
|---|---|
| `StringQueue.dfy` | the haircut queue, a C string in a fixed byte buffer |
| `Barber.dfy`, `BarberDays.dfy`, `Salon.dfy` | the sleeping barber over four System V semaphores |
| `Life.dfy` | the Game of Life rule, locality and symmetry |
| `LifeThreads.dfy`, `LifeProgram.dfy` | one thread per cell against the sequential program |
| `Riemann.dfy` | the integral split among worker processes |
| `Santa.dfy`, `SantaDeeds.dfy`, `Workshop.dfy` | Santa, elves and reindeer on monitors |
| `Registry.dfy`, `ChatHistory.dfy`, `MessageQueues.dfy`, `ChatServer.dfy`, `ChatClient.dfy`, `Chat.dfy` | the System V message-queue chat |
| `PingTable.dfy`, `PingServer.dfy` | the socket chat's client table and its ping thread |
| `Signals.dfy` | a signal handler that raises its own signal |
| `Reverse.dfy` | reversing a file by seeking backwards |
| `Totals.dfy` | weight sums over sequences of process states |

`dafny verify dfyconfig.toml` checks the whole project.

## Assumptions

- Barber: each `queue_pop` and `queue_push` is one step, although the barber pops without
  `buffer_mutex`; `semop` blocks at zero and does not fail; `memcpy` in `queue_pop` copies
  lowest index first, although its ranges overlap, and may read one byte behind the buffer, which
  holds anything. A process that has not been forked yet is one that has not been scheduled yet.
- Life: a signal that finds its thread in `pause` ends the pause, any other one is lost; one
  cell computation is one step. `main`'s pause between a frame and the call that follows it is
  long enough for a round of threads to finish, in any order inside the round. There is no pause
  between a call and the next frame, and none is assumed: `settled` in a theorem says that rounds
  are complete at the draws all the same. The buffers start with any contents.
- Integral: `double` is an exact `real`, the `int` cast does not overflow, the width is positive.
- Santa: a signal wakes exactly one waiting thread, which one is arbitrary; no spurious
  wake-ups. A counter is only touched under its mutex, so a test and the update after it are one
  step; Santa's body between lock and unlock likewise. `santa.condition` is waited for without
  its mutex held, exactly as written, and a signal that comes before the wait is lost. Santa's
  literal 3 for the elves is the same parameter as the elves' `ELVES_REQUIRED`.
- Message-queue chat: queue keys are distinct, a client stops only after `SUCCES`, by command or
  by SIGINT; sending STOP and removing its queue are one step, although the client makes two
  calls; and `msgsnd` fails exactly when the receiver has removed its queue.
- Socket chat: each handler is one step and messages come from occupied slots only.

## Where the code does not do what it is for

Each of these is stated as an exact condition.

- `Barber.OverrunExactly`: `queue_pop` reads one byte behind the buffer in some run if and only
  if `2 <= BUFFER_SIZE <= min(clients, chairs) + 1`. The byte lands behind the new NUL and does no
  harm to the string; if the read stops the barber instead, some run gets stuck with an
  unfinished client under the same condition (`Barber.StuckExactly`). `Barber.DropExactly` and
  `ConservedExactly`: a haircut is dropped at a full buffer and lost to the accounts in some run
  if and only if `BUFFER_SIZE < min(clients, chairs) + 1`.
- `LifeThreads.EarlyDrawExactly`: because `main` draws right after a call, on every board some run
  draws a wrong frame, although each round is complete before the next call, unless every first
  signal is heard. `FramesLag` bounds the damage when all of them were swallowed, and
  `FrameIsRightExactly` says which draws are right.
- `LifeThreads.MixedSignalsExactly`: when the first call of `game_of_life` may wake some of the
  threads it has just created and lose the signals of others, a frame can be wrong although all
  rounds are complete when it is drawn, if and only if the board has at least three cells.
- `Riemann.SplitExactly`: with no workers the result is 0, which is right if and only if the width
  exceeds 1; with at least one worker it is always right.
- `Santa.OversleepingExactly`: Santa can go to sleep in front of a complete group of elves, after
  which no elf wakes him, if and only if there is an elf at all. `Santa.ForGoodReachable`: in
  every workshop some run puts him to sleep for good before his first delivery, and
  `Santa.ForGoodExactly` says in which of his sleeps nobody can wake him any more.
- `Registry.BroadcastCrashExactly`: a broadcast can end the server, by reaching for the queue of a
  client that has already left, if and only if two clients can be registered at once.
  `Registry.CrashExactly`: some run ends it if and only if there is a slot and a client, because a
  client can take a message to itself for the answer to its `LIST` and leave too early.
- `PingTable.LockedExactly` and `LockReachable`: the mutex is lost if and only if a connection
  meets a full table, which happens in some run whatever the table's size, and then nothing but
  chatting ever happens again.
- `Reverse.RoundTripExactly`: reversing twice gives the file back if and only if it is not empty;
  an empty input appends one byte of whatever the uninitialised variable holds.

## Model

| member | source | states |
|---|---|---|
| StringQueue.PopText | lab7/zad1/v1/queue.c:7-15 | whatever the buffer, and whatever byte stands behind it, a pop returns the head of the stored string, leaves the tail and keeps it terminated; on an empty string it returns 0 and keeps it empty |
| StringQueue.PushText | lab7/zad1/v1/queue.c:17-25 | a push appends its byte to the stored string, unless the byte is NUL or the buffer is full, when the string stays as it was |
| StringQueue.QueueFull | lab7/zad1/v1/queue.c:27-29 | full exactly when the string takes all bytes but the one for its NUL |
| StringQueue.QueueEmpty | lab7/zad1/v1/queue.c:31-33 | empty exactly when the stored string is |
| StringQueue.QueuePush | lab7/zad1/v1/queue.c:17-25 | the byte array in place: the string afterwards is the old one with the byte appended, or unchanged for NUL or a full buffer |
| StringQueue.CopyDown | lab7/zad1/v1/queue.c:13 | the overlapping ascending copy moves the n bytes from index 1 down by one, the last of which may be the byte behind the buffer, and touches nothing else |
| StringQueue.QueuePop | lab7/zad1/v1/queue.c:7-15 | the byte array in place: old string == returned byte followed by the new string; 0 only for an empty string, which stays |
| StringQueue.Perform | lab7/zad1/v1/queue.c:7-33 | one operation on the buffer is one operation of a bounded FIFO that drops NULs and reports 0 when empty |
| StringQueue.RunScript | lab7/zad1/v1/queue.c:7-33 | any mixed script of pushes and pops gives the contents and the outputs of that FIFO |
| Barber.StepBalanced | lab7/zad1/v1/client.c:35-43 | every statement of every process keeps the balance of all four semaphores against the processes between their two ends |
| Barber.StepWork | lab7/zad1/v1/barber.c:31-45 | every statement of every process lowers the remaining work by exactly one |
| Barber.PendingBound | lab7/zad1/v1/client.c:35-42 | haircuts pending never exceed the seats taken nor min(clients, chairs), with one to spare while a client is about to push |
| Barber.NeverFull | lab7/zad1/v1/queue.c:18-21 | a client about to push never finds the buffer full when it has at least min(clients, chairs) + 1 bytes |
| Barber.StepSteady | lab7/zad1/v1/barber.c:31-45 | whatever the buffer's size, every step keeps the semaphore balance and a terminated string of at most the pending haircuts |
| Barber.StepInv | lab7/zad1/v1/barber.c:31-45 | with a buffer of at least min(clients, chairs) + 1 bytes every step also keeps the haircut ledger |
| Barber.RunsAreFinite | lab7/zad1/v1/client.c:35-43 | no interleaving has more than 11 statements per client, whatever the buffer's size |
| Barber.SemaphoresBalance | lab7/zad1/v1/simulation.c:74-79 | in every reachable state, whatever the buffer's size: string length <= chairs - sem_queue, at most min(barbers, chairs) barbers between their aquire and release(sem_queue), at most one client inside buffer_mutex, clients done + sem_chairs == haircuts finished <= popped <= pushed <= clients |
| Barber.HaircutsConserved | lab7/zad1/v1/client.c:38-39 | in every reachable state with a buffer of at least min(clients, chairs) + 1 bytes, popped + stored + zeros still to be reported == pushed as multisets, and the nonzero codes popped followed by the string are the nonzero codes pushed, in order |
| Barber.ConservedExactly | lab7/zad1/v1/queue.c:17-25 | some run breaks this account if and only if the buffer has fewer bytes than that |
| Barber.ServedInOrder | lab7/zad1/v1/barber.c:32-33 | with such a buffer and without code 0, popped followed by the string is exactly what was pushed, and no barber about to pop finds the string empty |
| Barber.DeadlockFree | lab7/zad1/v1/client.c:35-43 | whatever the buffer's size, in every reachable state with an unfinished client some process can move |
| Barber.StuckExactly | lab7/zad1/v1/queue.c:13 | if reading behind the buffer stops a barber, some run gets stuck with an unfinished client if and only if 2 <= BUFFER_SIZE <= min(clients, chairs) + 1 |
| Barber.MaximalRuns | lab7/zad1/v1/simulation.c:38-46 | whatever the buffer's size, a run can go no further if and only if it made 11 statements per client, if and only if all clients are done, all barbers sleep at sem_barbers, the semaphores are back at (chairs, 0, 0, 1), the string is empty and as many codes were popped as pushed; with room for all haircuts they are the same codes |
| Barber.OverrunExactly | lab7/zad1/v1/queue.c:13 | some run makes queue_pop copy from behind the buffer if and only if 2 <= BUFFER_SIZE <= min(clients, chairs) + 1 |
| Barber.DropExactly | lab7/zad1/v1/queue.c:18-21 | some run lets a client push into a full buffer if and only if the buffer cannot hold min(clients, chairs) codes and a NUL |
| BarberDays.OrdersAreServed | lab7/zad1/v1/client.c:38-39 | told from the queue_push and queue_pop steps of a run, with a buffer of at least min(clients, chairs) + 1 bytes: the nonzero codes cut followed by the string are the nonzero codes ordered, all codes are cut or pending, and each lies in 0..127 |
| BarberDays.EverybodyIsServed | lab7/zad1/v1/barber.c:31-37 | each client orders at most once; when nothing can move, exactly once, as many codes have been cut as ordered, and in such a buffer the same ones |
| BarberDays.AnyDay | lab7/zad1/v1/simulation.c:38-46 | any clients in any order, ordering any codes, each cut by any barber: there is such a run |
| BarberDays.BusySalon | lab7/zad1/v1/barber.c:31-40 | the bound is reached: some run has min(clients, barbers, chairs) barbers between aquire(sem_barbers) and release(sem_queue) at once |
| Salon.Semaphore.Aquire | lab7/zad1/v1/utils.c:92-97 | lowers the value by one; runs only above zero |
| Salon.Semaphore.Release | lab7/zad1/v1/utils.c:99-104 | raises the value by one |
| Salon.Simulation.constructor | lab7/zad1/v1/simulation.c:33-46 | the initial state of the protocol: sem_queue at the number of chairs, mutex at 1, the rest at 0, an empty string, all processes at their first statement |
| Salon.Simulation.ClientStep | lab7/zad1/v1/client.c:35-43 | one statement of a client on the shared semaphores and buffer is one step of the protocol |
| Salon.Simulation.BarberStep | lab7/zad1/v1/barber.c:31-45 | one statement of a barber is one step of the protocol |
| Salon.Simulation.Run | lab7/zad1/v1/simulation.c:38-46 | any interleaving on the shared state ends in the state the protocol gives |
| Life.IsAlive | lab8/zad01/lib/grid.c:48-87 | the double loop with its bounds tests decides by the size of the set of live in-bounds neighbours |
| Life.UpdateGrid | lab8/zad01/lib/grid.c:89-98 | the target buffer becomes the next generation of the source buffer |
| Life.BlockRule | lab8/zad01/lib/grid.c:73-86 | a cell lives next exactly when its three-by-three block holds three live cells, or four and the cell is one of them |
| Life.Locality | lab8/zad01/lib/grid.c:48-98 | grids that agree within distance k of a cell agree at that cell after k generations |
| Life.NeighboursImage | lab8/zad01/lib/grid.c:51-71 | each of the eight symmetries carries the live neighbours of a cell one to one onto those of its origin |
| Life.StepImage | lab8/zad01/lib/grid.c:89-98 | one generation commutes with every symmetry of the board |
| Life.GenerationImage | lab8/zad01/lib/grid.c:89-98 | any number of generations commutes with mirrors, rotations and transposition, for every width and height |
| LifeThreads.ComputeInv | lab8/zad01/lib/grid.c:108-119 | a thread's computation keeps the round invariant: what the round reads is generation k, what its finished threads wrote is generation k + 1, and the rest of that buffer is as it was |
| LifeThreads.KillInv | lab8/zad01/lib/grid.c:152-153 | each signal, heard or swallowed, keeps the round invariant |
| LifeThreads.StepInv | lab8/zad01/src/main.c:22-32 | every step of main and of the threads keeps threads and frames in lockstep |
| LifeThreads.FramesLag | lab8/zad01/src/main.c:22-32 | over every run whose rounds are complete before the next call, each cell of frame k shows generation k; or, only if the first call's signals were all swallowed, generation k - 2, and for frame 1 the first contents of the second buffer |
| LifeThreads.FrameIsRightExactly | lab8/zad01/src/main.c:22-32 | in such a run the frame about to be drawn is generation k if and only if the first signals were heard or every thread still computing has the same cell in both |
| LifeThreads.FramesAreGenerations | lab8/zad01/lib/grid.c:108-154 | frame k is the k-th generation of the initial board: in all such runs when the first signals wake every thread for an extra round, and when rounds are also complete at the draws if the signals were all swallowed |
| LifeThreads.AnyOrder | lab8/zad01/lib/grid.c:137-150 | once created, the threads can compute in any order |
| LifeThreads.EarlyDrawExactly | lab8/zad01/src/main.c:24-31 | on every board, some run whose rounds are complete before the next call draws a wrong frame if and only if the first signals need not all be heard |
| LifeThreads.MixedSignalsExactly | lab8/zad01/lib/grid.c:133-153 | if the first call may wake only some threads, some initial board and schedule whose rounds are complete before each draw give a wrong frame if and only if the board has three cells or more |
| LifeProgram.Worker.Compute | lab8/zad01/lib/grid.c:112-113 | the thread writes its own cell of its own dst from its own src, changes no other cell and pauses |
| LifeProgram.Worker.Signal | lab8/zad01/lib/grid.c:113-116 | a pausing thread swaps its two pointers and runs on, any other is unchanged |
| LifeProgram.Animation.constructor | lab8/zad01/src/main.c:16-20 | two different buffers, the first one filled, no threads yet |
| LifeProgram.Animation.DrawGrid | lab8/zad01/src/main.c:24 | records main's foreground as the next frame, as the machine's step |
| LifeProgram.Animation.EnterGameOfLife | lab8/zad01/lib/grid.c:123-151 | only the first call creates threads, all with that call's pointers; later calls ignore their arguments |
| LifeProgram.Animation.CreateThreads | lab8/zad01/lib/grid.c:133-151 | one thread per cell in row order, each with its own data |
| LifeProgram.Animation.KillNext | lab8/zad01/lib/grid.c:152-153 | one signal of the loop is the machine's step |
| LifeProgram.Animation.SwapBuffers | lab8/zad01/src/main.c:29-31 | main swaps its own pair and no thread's |
| LifeProgram.Animation.RunThread | lab8/zad01/lib/grid.c:108-119 | one thread's computation is the machine's step |
| LifeProgram.Animation.Run | lab8/zad01/src/main.c:22-32 | any schedule on the shared buffers ends in the state the machine gives |
| LifeProgram.Animate | lab8/zad01/src/main.c:10-39 | the program with its buffers and threads draws generation 0, 1, 2, ... of update_grid when the first signals are heard or rounds are complete at the draws, and otherwise frames that lag as said |
| Riemann.Calculate | lab5/zad2/program.c:28-35 | the sum of the rectangles at a, a + w, ... whose right ends do not pass b: floor((b - a) / w) of them, none if negative |
| Riemann.Test | lab5/zad3/calculate.c:29-38 | the sum of the rectangles whose left ends lie before b: ceil((b - a) / w) of them, none if negative |
| Riemann.IntegrandExactly | lab5/zad2/program.c:14-16 | v is the height at x exactly when v * (x * x + 1) is 4 |
| Riemann.LoopTurnsExactly | lab5/zad3/calculate.c:32-34 | the two numbers of turns are exactly those at which the guard i + w <= b, or i < b, first fails |
| Riemann.GuardsAgree | lab5/zad3/calculate.c:32-34 | on ends p * w and q * w both guards give q - p rectangles |
| Riemann.EdgeIsFloor | lab5/zad2/program.c:18-26 | the range ends are floor(i / (n * w)) * w |
| Riemann.EdgeNext | lab5/zad2/program.c:22-23 | one truncating increment leads from floor(i / (n w)) * w to floor((i + 1) / (n w)) * w |
| Riemann.SplitArray | lab5/zad2/program.c:18-26 | filled in place, array[i] is the closed form for every i <= n, and nothing else changes |
| Riemann.PartialsSum | lab5/zad2/program.c:46-66 | the first k workers together compute the rectangles of [0, edge k] |
| Riemann.SplitEqualsUnsplit | lab5/zad2/program.c:37-70 | any number of workers computes what calculate(0, 1, w) computes |
| Riemann.SplitExactly | lab5/zad2/program.c:37-70 | the split sum is the unsplit one if and only if there is a worker or no rectangle fits |
| Riemann.ChildProcess | lab5/zad2/program.c:55-59 | child i adds the rectangles of its range to those of the children before it |
| Riemann.SplitCalculation | lab5/zad2/program.c:37-70 | fork by fork, the result is the unsplit one exactly under that condition |
| Riemann.WorkerProgram | lab5/zad3/calculate.c:29-38 | with the other loop guard, worker i computes the same partial result |
| Riemann.RunWorkers | lab5/zad3/program.c:44-58 | the workers' results are the same partial results |
| Riemann.SumAnyOrder | lab5/zad3/program.c:72-75 | the sum of the tokens depends only on their multiset |
| Riemann.AddTokens | lab5/zad3/program.c:69-75 | the loop adds up all tokens |
| Riemann.ArrivalOrder | lab5/zad3/program.c:60-75 | in whatever order the results arrive, their sum is the unsplit result, exactly under that condition |
| Riemann.SplitCalculationFifo | lab5/zad3/program.c:27-82 | the workers run and write in any order, the parent adds what arrives, and the result is the unsplit one exactly under that condition |
| Riemann.RefinementBracket | lab5/zad2/program.c:28-35 | cutting every rectangle into m keeps the sum between the right sum and the left sum |
| Riemann.Accuracy | lab5/zad2/program.c:14-35 | the computed sum exceeds the right sum by w * (f(0) - f(N w)) <= 2w, and every refinement on [0, N w] lies between the two |
| Riemann.NearPi | lab5/zad2/program.c:28-35 | for every m >= 1 the result for the width 0.1 / m lies between 3.03 and 3.24 |
| Santa.HelpStep | lab9/zad1/main.c:42-51 | when a group is complete, exactly one waiting elf is woken, and the invariant stays |
| Santa.DeliveryStep | lab9/zad1/main.c:52-64 | when the team is complete, exactly one waiting reindeer is woken, however many wait, and the invariant stays |
| Santa.StepInv | lab9/zad1/main.c:37-119 | every step of Santa, elves and reindeer keeps mutual exclusion, the counters' conservation and the waiting sets |
| Santa.Conservation | lab9/zad1/main.c:42-64 | over all runs: elf increments == 3 * helps + value <= 3, reindeer increments == 9 * deliveries + value <= 9, santa.value <= 3, and Santa has left exactly when it is 3, with 27 increments counted (3, 9 and 3 stand for the parameters) |
| Santa.WaitingSets | lab9/zad1/main.c:84-88 | with elves.mutex free exactly one elf waits if the group is complete and none otherwise; with rindeers.mutex free and a complete team some reindeer waits; waits begun == groups served + threads waiting |
| SantaDeeds.ElfLedger | lab9/zad1/main.c:98-116 | told from the steps of one elf in any run: arrivals == increments of the counter + arrivals that found the group complete + one while it is about to test, and it unlocks the mutex, woken or not, before it tests again |
| SantaDeeds.DeerLedger | lab9/zad1/main.c:75-91 | the same for a reindeer |
| SantaDeeds.SantaLedger | lab9/zad1/main.c:38-42 | Santa looks at his visitors once for every time he is roused, and is roused once for every time he goes to sleep |
| SantaDeeds.DeedsAddUp | lab9/zad1/main.c:42-64 | counted steps of all elves == 3 * helps + value, counted steps of all reindeer == 9 * deliveries + value, and everybody who ever parked was woken for a served group or still waits |
| Santa.WokenExactly | lab9/zad1/main.c:47-58 | in every reachable state any thread waiting in front of a complete group, and no other, may be the one that Santa wakes |
| SantaDeeds.AnybodyMayCome | lab9/zad1/main.c:121-134 | any elves and any reindeer, in any order, can be the ones that gather first |
| Santa.ServedInThisCycle | lab9/zad1/main.c:38-64 | a group complete when Santa wakes is changed by nobody else and is served in that same cycle |
| Santa.HelpBeforeDelivery | lab9/zad1/main.c:44-59 | with both groups complete at wake-up, the delivery of that cycle comes after its help |
| Santa.OnlyReindeerWakeHim | lab9/zad1/main.c:102-111 | once Santa sleeps in front of a complete group of elves, he stays asleep and no group is helped until a reindeer signals |
| Santa.OversleepingExactly | lab9/zad1/main.c:39 | some run gets there if and only if there is an elf |
| Santa.SleepsForGood | lab9/zad1/main.c:84-88 | a sleeping Santa with every reindeer waiting or about to, and the elves' group complete with its signal spent or no elves, sleeps on under every schedule, with no help and no delivery any more |
| Santa.ForGoodExactly | lab9/zad1/main.c:84-111 | in every reachable sleep this is the only case: Santa can be woken if and only if some reindeer is neither waiting nor about to, or some elf can still complete a group or send its signal |
| Santa.ForGoodReachable | lab9/zad1/main.c:39 | for any numbers of elves and reindeer, some run puts Santa to sleep for good before his first delivery |
| Santa.RetiresExactly | lab9/zad1/main.c:54-62 | some run makes all deliveries and ends Santa's thread if and only if there is a reindeer |
| Workshop.Program.constructor | lab9/zad1/main.c:19-35 | the initial monitors and threads |
| Workshop.Program.SignalSanta | lab9/zad1/main.c:86 | wakes Santa if he waits and is lost otherwise |
| Workshop.Program.ElfStep | lab9/zad1/main.c:95-119 | one statement of an elf on the shared monitors is one step of the machine |
| Workshop.Program.ReindeerStep | lab9/zad1/main.c:72-93 | one statement of a reindeer is one step of the machine |
| Workshop.Program.SantaStep | lab9/zad1/main.c:37-69 | one statement of Santa is one step of the machine |
| Workshop.Program.Run | lab9/zad1/main.c:121-137 | any interleaving on the monitors ends in the state the machine gives |
| Registry.OccupiedBound | lab6/zad1/server.c:39-59 | the count of entries reaches the table's size exactly when the search for -1 fails |
| Registry.StopKeepsCount | lab6/zad1/server.c:141-146 | a STOP keeps the counter equal to the occupied slots if and only if its key was registered exactly once |
| Registry.StepInv | lab6/zad1/server.c:202-238 | every step of clients and server, for INNIT, LIST, 2ALL, 2ONE and STOP, keeps the table, the clients' own state, their queues and the requests under way consistent |
| Registry.CounterIsTrue | lab6/zad1/server.c:38-61 | over all runs the counter equals the number of occupied slots, so an accepted INNIT always finds a slot, and no key is registered twice |
| Registry.LiveIdentifiers | lab6/zad1/client.c:127-141 | over all runs a joined client's number is the slot that holds its key until its STOP has been handled, after which its key is gone; no two such clients share a number; the first message a client reads is the reply to its INNIT |
| Registry.BroadcastExactly | lab6/zad1/server.c:70-87 | in every reachable state a broadcast carries its sender's true number, reaches every registered client but the sender exactly once and nobody else, and ends the server exactly when one of them has exited |
| Registry.TellExactly | lab6/zad1/server.c:89-108 | a private message reaches exactly the client that holds the number it names, unless that client has exited, under the sender's true number, and never ends the server |
| Registry.ListExactly | lab6/zad1/server.c:111-138 | in every reachable state a LIST is answered to its sender alone, with exactly the occupied slots and their keys, each once and ascending, and ends the server exactly when the sender has exited |
| Registry.BroadcastCrashExactly | lab6/zad1/server.c:75-80 | some broadcast ends the server if and only if there are two slots and two clients |
| Registry.CrashExactly | lab6/zad1/server.c:75-131 | some run ends the server, by a broadcast or by the answer to a LIST, if and only if there is a slot and a client |
| ChatHistory.SaidInOrder | lab6/zad1/client.c:156-205 | over every run, the requests handled followed by those under way are what the users of the clients have said, in order, with speaker, receiver and text |
| ChatHistory.HeardAsSaid | lab6/zad1/server.c:202-238 | the server goes on with the next thing that was said: what was said to everybody is sent word for word to every other registered client, what was said to a number to the client that holds it, under the speaker's own number and to nobody else |
| ChatHistory.MailIsKept | lab6/zad1/client.c:152-154 | what a client has read followed by its queue is what the server sent it, in order |
| ChatHistory.ClientLife | lab6/zad1/client.c:127-205 | a client says hello once, reads SUCCES with its number or FAILURE first, reads before it says more after a LIST, says nothing after FAILURE or its goodbye, and reads nothing but chat while it is in |
| ChatHistory.NobodyIsStuck | lab6/zad1/server.c:202-206 | in every reachable state: exactly when each step of client and server is open; and a client that waits for an answer finds something to read, or the server something to do, unless it has ended |
| MessageQueues.Kernel.Take | lab6/zad1/server.c:203 | takes the first request out of the server's queue |
| MessageQueues.Kernel.MsgSnd | lab6/zad1/server.c:51-54 | appends to the receiver's queue if it still exists and fails otherwise |
| MessageQueues.Kernel.MsgRcv | lab6/zad1/client.c:135-165 | takes the first message of the client's queue, or the first chat message when the client waits for the answer to LIST, and leaves the others in order |
| ChatServer.Server.constructor | lab6/zad1/server.c:187-188 | an empty table and a zero counter |
| ChatServer.Server.HandleNewConnection | lab6/zad1/server.c:38-61 | FAILURE at the limit, otherwise counter, first free slot and reply as the protocol's step |
| ChatServer.Server.HandleSendToAll | lab6/zad1/server.c:70-87 | the loop over the table sends as the protocol's step and ends the server at the first failure |
| ChatServer.Server.HandleSendToOne | lab6/zad1/server.c:89-108 | sends to the named slot's key if it is occupied |
| ChatServer.Server.HandleListCommand | lab6/zad1/server.c:111-138 | the loop over the table collects the occupied slots for the sender, as the protocol's step, and ends the server when the sender's queue is gone |
| ChatServer.Server.HandleStopRequest | lab6/zad1/server.c:141-146 | lowers the counter and frees every slot with the key |
| ChatServer.Server.Dispatch | lab6/zad1/server.c:202-238 | one turn of the dispatch loop is the protocol's step |
| ChatClient.Session.ModifyMessage | lab6/zad1/client.c:97-102 | changes type, receiver and text of the outgoing message and keeps its key and number |
| ChatClient.Session.Connect | lab6/zad1/client.c:127-133 | the handshake sends the INNIT of the protocol's step |
| ChatClient.Session.Receive | lab6/zad1/client.c:135-141 | the reply's number becomes the client's own; a FAILURE ends it |
| ChatClient.Session.RequestIndex | lab6/zad1/client.c:157-163 | sends the LIST of the protocol's step and waits for a chat message |
| ChatClient.Session.SendToAll | lab6/zad1/client.c:176-186 | sends the 2ALL of the protocol's step, under the number the client was given |
| ChatClient.Session.SendToOne | lab6/zad1/client.c:188-198 | sends the 2ONE of the protocol's step, under the number the client was given |
| ChatClient.Session.HandleStopCommand | lab6/zad1/client.c:83-90 | sends STOP and exits, as the protocol's step |
| ChatClient.Session.Act | lab6/zad1/client.c:143-205 | any step of a client on its own state and the shared queues is the protocol's step |
| Chat.Program.constructor | lab6/zad1/server.c:187-202 | an empty server, its clients at their start and empty queues |
| Chat.Program.Step | lab6/zad1/server.c:202-238 | one step of the server or of any client on the shared queues is the protocol's step |
| Chat.Program.Run | lab6/zad1/server.c:202-238 | any interleaving of the server and its clients ends in the state the protocol gives |
| PingTable.NoReturn | lab10/zad1/server.c:114-125 | a connection in a slot at the end of a run was there all along: a reused slot has a new occupant |
| PingTable.RespondingExactly | lab10/zad1/server.c:63-67 | between two rounds an occupant is marked responding exactly when it was or its msg_ping was handled |
| PingTable.SurvivesExactly | lab10/zad1/server.c:127-143 | an occupant present at both rounds survives the second if and only if its msg_ping was handled in the ready state between them |
| PingTable.SilentIsGone | lab10/zad1/server.c:127-143 | an occupant that does not ping between two rounds is gone by the end of the second, for good |
| PingTable.NeverEvicted | lab10/zad1/server.c:114-143 | a connection that pings after every round before the next one keeps its slot over the whole run, until it quits or its nickname is refused |
| PingTable.FateExactly | lab10/zad1/server.c:27-143 | a new connection gets the first slot where nobody sits; ever after, the events of that slot and the rounds alone decide whether it still sits there, is ready and is marked: it is gone, for good, exactly after a refused nickname, a quit, or a round without a ping since the round before, and ready exactly after an accepted nickname; and which of its events can be handled |
| PingTable.LockedExactly | lab10/zad1/server.c:114-124 | over all runs the mutex is lost if and only if some connection met a full table, and from then on only chat messages are handled and the table never changes |
| PingTable.LockReachable | lab10/zad1/server.c:115-117 | whatever the table's size, some run from the start loses the mutex for good |
| PingTable.FrozenForever | lab10/zad1/server.c:117 | with the mutex lost, every schedule consists of chat messages and leaves the state as it is |
| PingServer.Server.NewClient | lab10/zad1/server.c:114-125 | the first free slot is taken and the mutex released, or -1 with the mutex kept |
| PingServer.Server.DeleteClient | lab10/zad1/server.c:27-32 | frees the slot and no other |
| PingServer.Server.OnNickname | lab10/zad1/server.c:42-58 | the first message makes the client ready or deletes it, as the machine's step |
| PingServer.Server.OnPing | lab10/zad1/server.c:63-67 | marks the client responding, as the machine's step |
| PingServer.Server.OnQuit | lab10/zad1/server.c:68-71 | frees the slot, as the machine's step |
| PingServer.Server.PingRound | lab10/zad1/server.c:127-143 | one round clears every mark and evicts every client without one |
| PingServer.Server.Run | lab10/zad1/server.c:41-143 | any sequence of events on the table ends in the state the machine gives |
| Signals.NestedLines | lab4/zad2/zadanie2.c:38-51 | the nested trace is START 0..n-1 at depths 0..n-1, then END n-1..0 at matching depths: each id once |
| Signals.FlatLines | lab4/zad2/zadanie2.c:38-51 | the deferred trace is START k, END k at depth 0 for k = 0..n-1 |
| Signals.NestedDepths | lab4/zad2/zadanie2.c:41-50 | every depth printed in the nested trace is the number of handlers active around the line, and it returns to where it began |
| Signals.FlatDepths | lab4/zad2/zadanie2.c:41-50 | the same for the deferred trace |
| Signals.Process.DepthHandler | lab4/zad2/zadanie2.c:38-51 | one run of the handler prints its own pair around the nested rest, restores the depth, and under deferral leaves the next signal pending while calls are left |
| Signals.Process.Raise | lab4/zad2/zadanie2.c:44-46 | a blocked signal stays pending; otherwise the whole remaining trace of the flag is printed and call_depth is restored |
| Signals.RunScenario | lab4/zad2/zadanie2.c:72-80 | for every MAX_CALLS >= 1 one raise prints 2 * MAX_CALLS lines: START k at line k and END k k lines before the last, all at depth k, with SA_NODEFER; START k and END k at lines 2k and 2k + 1 at depth 0 without; one pair for MAX_CALLS < 1; all depths are true and call_depth ends at 0 |
| Reverse.InputFile.ReadByte | lab2/zad2/reverse.c:48 | reads and advances, or at the end of the file leaves variable and cursor alone |
| Reverse.InputFile.SeekCur | lab2/zad2/reverse.c:50 | moves the cursor, or fails and leaves it when the target lies before the start |
| Reverse.ReverseFile | lab2/zad2/reverse.c:40-58 | the loop terminates and appends exactly the bytes of the input in reverse order (for an empty input, one stray byte) |
| Reverse.RoundTripExactly | lab2/zad2/reverse.c:40-58 | two runs through fresh outputs give the input back if and only if it is not empty |

## Left out

- FramesLag: nothing is said about runs in which a later call comes before the round is complete, which the pause of `usleep` is there to prevent; there generations mix.
- MaximalRuns: failing `semop` calls are not modelled, nor is the parent's wait loop, which never ends since barbers never exit.
- SplitArray: the cast to `int` is unbounded and doubles are exact reals.
- SplitCalculationFifo: zad3 passes the ranges and the width to its workers, and their results back, as text with six digits; the model keeps the precision that this loses.
- NeverEvicted: assumes the handlers are atomic and the run stays clear of a full table, which `LockedExactly` and `LockReachable` describe.
- OnNickname: whether another slot has the nickname is a parameter; the comparison and its uniqueness break when a slot is reused.
- A client of the barber leaves only after its own haircut: not so, `sem_chairs` is anonymous; only the counts hold.
- lab6: the text of the `LIST` answer and its buffer limit, the server's SIGINT handler and the STOP it sends, SIGINT in a client between `INNIT` and its reply, a 2ONE number outside the table, full message queues, logging and time formatting.
- lab10 message text building, epoll and sockets, and what the caller does with the NULL of a full table.
- lab2/zad2/reverse2.c, which does not compute what reverse.c computes.
- lab7/zad1/v2, an ordered acquisition weaker than the protocol of v1.
- lab1, lab3, lab2/zad1, lab2/zad3, lab2/zad4, lab4/zad1, lab4/zad3 and lab5/zad1: programs that start other programs, walk directories, map bytes one by one or call library routines on fixed tables, with no state shared between processes.
- ncurses drawing, sleeps, process creation, `ftok`, shared-memory calls and timing code.
