// The animation as the program runs it: buffers and pointers updated in place.
// Source: lab8/zad01/lib/grid.c, lab8/zad01/src/main.c
module LifeProgram {
  import opened Life
  import opened LifeThreads

  // struct thread_data and the thread that owns it.
  class Worker {
    var src: array<bool>
    var dst: array<bool>
    const row: nat
    const col: nat
    var pausing: bool

    constructor (src: array<bool>, dst: array<bool>, row: nat, col: nat)
      ensures this.src == src && this.dst == dst && this.row == row && this.col == col && !pausing
    {
      this.src, this.dst, this.row, this.col, pausing := src, dst, row, col, false;
    }

    // The body of update_grid_2's loop up to its pause.
    method Compute(w: nat, h: nat)
      requires src != dst && src.Length == w * h && dst.Length == w * h && InBounds(w, h, row, col)
      modifies this`pausing, dst
      ensures pausing && src[..] == old(src[..])
      ensures dst[..] == (Index(w, h, row, col); old(dst[..])[w * row + col := LiveNext(old(Board(w, h, src)), row, col)])
    {
      Index(w, h, row, col);
      assert row * w + col == w * row + col;
      var alive := IsAlive(w, h, row, col, src);
      dst[row * w + col] := alive;
      pausing := true;
    }

    // A signal: a pausing thread swaps its pointers and loops, any other loses it.
    method Signal()
      modifies this
      ensures if old(pausing) then !pausing && src == old(dst) && dst == old(src) else unchanged(this)
    {
      if pausing {
        var tmp := src;
        src := dst;
        dst := tmp;
        pausing := false;
      }
    }
  }

  class Animation {
    const w: nat
    const h: nat
    const one: array<bool>
    const two: array<bool>
    var foreground: array<bool>
    var background: array<bool>
    var threads: seq<Worker>
    var calls: nat
    var main: MainPc
    var frames: seq<seq<bool>>

    ghost predicate WorkerOk(k: Worker, t: nat)
      reads k
    {
      && ((k.src == one && k.dst == two) || (k.src == two && k.dst == one))
      && InBounds(w, h, k.row, k.col) && w * k.row + k.col == t
    }

    ghost predicate Valid()
      reads this, one, two, threads
    {
      && w > 0 && h > 0 && one != two && one.Length == w * h && two.Length == w * h
      && ((foreground == one && background == two) || (foreground == two && background == one))
      && (forall t :: 0 <= t < |threads| ==> WorkerOk(threads[t], t))
      && (forall t, u :: 0 <= t < u < |threads| ==> threads[t] != threads[u])
      && |threads| == (if calls == 0 then 0 else w * h)
      && (main.Signalling? ==> calls > 0 && main.next <= w * h)
    }

    ghost function SideOfBuffer(buf: array<bool>): Side
    {
      if buf == one then First else Second
    }

    ghost function ThreadView(k: Worker): CellThread
      reads k
    {
      CellThread(SideOfBuffer(k.src), if k.pausing then Pausing else Computing)
    }

    ghost function View(): State
      reads this, one, two, threads
    {
      State(w, h, one[..], two[..],
            seq(|threads|, t requires 0 <= t < |threads| reads this, threads => ThreadView(threads[t])),
            main, SideOfBuffer(foreground), calls, frames)
    }

    // junk is what the second buffer holds when it is allocated.
    constructor (w: nat, h: nat, initial: seq<bool>, junk: seq<bool>)
      requires w > 0 && h > 0 && |initial| == |junk| == w * h
      ensures Valid() && View() == Begin(w, h, initial, junk)
      ensures fresh(one) && fresh(two)
    {
      var a := new bool[w * h](i requires 0 <= i < w * h => initial[i]);
      var b := new bool[w * h](i requires 0 <= i < w * h => junk[i]);
      this.w, this.h, one, two, foreground, background := w, h, a, b, a, b;
      threads, calls, main, frames := [], 0, Drawing, [];
      new;
      assert one[..] == initial && two[..] == junk;
    }

    method DrawGrid()
      requires Valid() && main == Drawing
      modifies this`frames, this`main
      ensures Valid() && View() == Next(old(View()), Draw)
    {
      frames := frames + [foreground[..]];
      main := Calling;
      assert forall t :: 0 <= t < |threads| ==> WorkerOk(threads[t], t);
      assert View().threads == old(View()).threads;
    }

    // game_of_life before its signalling loop.
    method EnterGameOfLife()
      requires Valid() && main == Calling
      modifies this`threads, this`calls, this`main
      ensures Valid() && View() == Next(old(View()), Call)
      ensures forall k :: k in threads && k !in old(threads) ==> fresh(k)
    {
      if calls == 0 {
        CreateThreads();
      }
      calls := calls + 1;
      main := Signalling(0);
      assert forall t :: 0 <= t < |threads| ==> WorkerOk(threads[t], t);
      assert View().threads == Next(old(View()), Call).threads;
    }

    // A thread that the first call has just created.
    ghost predicate NewWorker(k: Worker, t: nat)
      reads this`foreground, k
    {
      WorkerOk(k, t) && k.src == foreground && !k.pausing
    }

    method CreateThreads()
      requires Valid() && calls == 0
      modifies this`threads
      ensures |threads| == w * h
      ensures forall t :: 0 <= t < |threads| ==> NewWorker(threads[t], t)
      ensures forall t, u :: 0 <= t < u < |threads| ==> threads[t] != threads[u]
      ensures forall k :: k in threads ==> fresh(k)
    {
      for i := 0 to h
        invariant |threads| == w * i
        invariant forall t :: 0 <= t < |threads| ==> fresh(threads[t]) && NewWorker(threads[t], t)
        invariant forall t, u :: 0 <= t < u < |threads| ==> threads[t] != threads[u]
      {
        for j := 0 to w
          invariant |threads| == w * i + j
          invariant forall t :: 0 <= t < |threads| ==> fresh(threads[t]) && NewWorker(threads[t], t)
          invariant forall t, u :: 0 <= t < u < |threads| ==> threads[t] != threads[u]
        {
          var data := new Worker(foreground, background, i, j);
          threads := threads + [data];
        }
      }
    }

    // One pthread_kill of the signalling loop.
    method KillNext()
      requires Valid() && main.Signalling? && main.next < w * h
      modifies this`main, threads
      ensures Valid() && threads == old(threads) && View() == Next(old(View()), Kill)
    {
      var i := main.next;
      assert WorkerOk(threads[i], i);
      threads[i].Signal();
      main := Signalling(i + 1);
      assert View().threads == Next(old(View()), Kill).threads;
    }

    method SwapBuffers()
      requires Valid() && main == Signalling(w * h)
      modifies this`foreground, this`background, this`main
      ensures Valid() && View() == Next(old(View()), Swap)
    {
      var tmp := foreground;
      foreground := background;
      background := tmp;
      main := Drawing;
      assert forall t :: 0 <= t < |threads| ==> WorkerOk(threads[t], t);
      assert View().threads == old(View()).threads;
    }

    method RunThread(t: nat)
      requires Valid() && t < |threads| && !threads[t].pausing
      modifies threads, one, two
      ensures Valid() && View() == Next(old(View()), LifeThreads.Compute(t))
    {
      assert WorkerOk(threads[t], t);
      var k := threads[t];
      Index(w, h, k.row, k.col);
      k.Compute(w, h);
      assert forall u :: 0 <= u < |threads| ==> WorkerOk(threads[u], u);
      assert View().threads == Next(old(View()), LifeThreads.Compute(t)).threads;
    }

    // Any interleaving of main and the cell threads.
    method Run(ls: seq<Label>)
      requires Valid() && Schedule(View(), ls)
      modifies this, one, two, threads
      ensures Valid() && View() == After(old(View()), ls)
      ensures forall k :: k in threads && k !in old(threads) ==> fresh(k)
      decreases |ls|
    {
      if ls != [] {
        Perform(ls[0]);
        assert forall t :: 0 <= t < |threads| ==> threads[t] in old(threads) || fresh(threads[t]);
        Run(ls[1..]);
      }
    }

    method Perform(l: Label)
      requires Valid() && Enabled(View(), l)
      modifies this, one, two, threads
      ensures Valid() && View() == Next(old(View()), l)
      ensures forall k :: k in threads && k !in old(threads) ==> fresh(k)
    {
      match l {
        case Compute(t) => RunThread(t);
        case Draw => DrawGrid();
        case Call => EnterGameOfLife();
        case Kill => KillNext();
        case Swap => SwapBuffers();
      }
    }
  }

  function Begin(w: nat, h: nat, initial: seq<bool>, junk: seq<bool>): State {
    State(w, h, initial, junk, [], Drawing, First, 0, [])
  }

  // The animation draws the generations of its initial board, one after the other; when the
  // first signals were swallowed and it draws before a round is complete, a cell may lag
  // behind by two generations.
  method Animate(w: nat, h: nat, initial: seq<bool>, junk: seq<bool>, ls: seq<Label>, ghost mode: FirstSignals, ghost settled: bool)
    returns (frames: seq<seq<bool>>)
    requires w > 0 && h > 0 && |initial| == |junk| == w * h && mode != Mixed
    requires Schedule(Begin(w, h, initial, junk), ls) && Timed(mode, settled, Begin(w, h, initial, junk), ls)
    ensures mode == Heard || settled ==> forall k :: 0 <= k < |frames| ==> frames[k] == Generation(Grid(w, h, initial), k).cells
    ensures Lagging(mode, Grid(w, h, initial), junk, frames)
  {
    var animation := new Animation(w, h, initial, junk);
    animation.Run(ls);
    frames := animation.frames;
    FramesLag(mode, settled, Begin(w, h, initial, junk), ls);
    if mode == Heard || settled {
      FramesAreGenerations(mode, settled, Begin(w, h, initial, junk), ls);
    }
  }
}
