// One thread per cell: the threads are created by the first call of game_of_life, keep
// their own source and destination pointers, and swap them at every SIGUSR1; main swaps
// its own pair of pointers on its own.
// Source: lab8/zad01/lib/grid.c, lab8/zad01/src/main.c
module LifeThreads {
  import opened Life

  // The two buffers that main allocates.
  datatype Side = First | Second

  function Other(x: Side): Side { if x == First then Second else First }

  function Pick(x: Side, first: seq<bool>, second: seq<bool>): seq<bool> { if x == First then first else second }

  datatype ThreadPc = Computing | Pausing

  // struct thread_data; dst is the other buffer.
  datatype CellThread = CellThread(src: Side, pc: ThreadPc)

  // The statements of main's loop: draw_grid; game_of_life, which signals thread after
  // thread; the swap of foreground and background.
  datatype MainPc = Drawing | Calling | Signalling(next: nat)

  datatype State = State(
    w: nat, h: nat, first: seq<bool>, second: seq<bool>,
    threads: seq<CellThread>, main: MainPc, foreground: Side,
    calls: nat, frames: seq<seq<bool>>)
  {
    function Buffer(x: Side): seq<bool> { Pick(x, first, second) }
    function Cells(): nat { w * h }
    ghost predicate AllPausing() { forall t :: 0 <= t < |threads| ==> threads[t].pc == Pausing }
  }

  datatype Label = Compute(t: nat) | Draw | Call | Kill | Swap

  ghost predicate Init(s: State) {
    && s.w > 0 && s.h > 0
    && |s.first| == s.Cells() && |s.second| == s.Cells()
    && s.threads == [] && s.main == Drawing && s.foreground == First && s.calls == 0 && s.frames == []
  }

  ghost predicate WellShaped(s: State) {
    && s.w > 0 && s.h > 0
    && |s.first| == s.Cells() && |s.second| == s.Cells()
    && |s.threads| == (if s.calls == 0 then 0 else s.Cells())
    && (s.main.Signalling? ==> s.calls > 0 && s.main.next <= s.Cells())
  }

  ghost predicate Enabled(s: State, l: Label)
    requires WellShaped(s)
  {
    match l
    case Compute(t) => t < |s.threads| && s.threads[t].pc == Computing
    case Draw => s.main == Drawing
    case Call => s.main == Calling
    case Kill => s.main.Signalling? && s.main.next < s.Cells()
    case Swap => s.main.Signalling? && s.main.next == s.Cells()
  }

  // What cell t becomes when its thread reads the buffer src.
  ghost function CellNext(w: nat, h: nat, src: seq<bool>, t: nat): bool
    requires t < w * h && |src| == w * h
  {
    Position(w, h, t);
    LiveNext(Grid(w, h, src), t / w, t % w)
  }

  function Write(s: State, x: Side, t: nat, alive: bool): State
    requires t < |s.first| && t < |s.second|
  {
    if x == First then s.(first := s.first[t := alive]) else s.(second := s.second[t := alive])
  }

  ghost function Next(s: State, l: Label): (s': State)
    requires WellShaped(s) && Enabled(s, l)
    ensures WellShaped(s')
  {
    match l
    case Compute(t) =>
      var src := s.threads[t].src;
      Write(s, Other(src), t, CellNext(s.w, s.h, s.Buffer(src), t)).(threads := s.threads[t := CellThread(src, Pausing)])
    case Draw =>
      s.(frames := s.frames + [s.Buffer(s.foreground)], main := Calling)
    case Call =>
      // Only the first call creates threads; the arguments of later calls are ignored.
      var threads := if s.calls == 0 then seq(s.Cells(), t => CellThread(s.foreground, Computing)) else s.threads;
      s.(threads := threads, calls := s.calls + 1, main := Signalling(0))
    case Kill =>
      // A signal ends the pause of a waiting thread, which swaps its pointers and goes
      // round its loop; a thread that is not yet pausing loses it.
      var i := s.main.next;
      var c := s.threads[i];
      var woken := if c.pc == Pausing then CellThread(Other(c.src), Computing) else c;
      s.(threads := s.threads[i := woken], main := Signalling(i + 1))
    case Swap =>
      s.(foreground := Other(s.foreground), main := Drawing)
  }

  ghost predicate Schedule(s: State, ls: seq<Label>)
    requires WellShaped(s)
    decreases |ls|
  {
    ls == [] || (Enabled(s, ls[0]) && Schedule(Next(s, ls[0]), ls[1..]))
  }

  ghost function After(s: State, ls: seq<Label>): (s': State)
    requires WellShaped(s) && Schedule(s, ls)
    ensures WellShaped(s')
    decreases |ls|
  {
    if ls == [] then s else After(Next(s, ls[0]), ls[1..])
  }

  // What becomes of the signals sent by the very first call: they are all lost on threads
  // that still compute, or all heard once every thread has computed, or anything goes.
  datatype FirstSignals = Swallowed | Heard | Mixed

  // main pauses between a frame and the call that follows it, so a round is complete before
  // a later call starts the next one. Between a call and the next frame there is no pause;
  // settled says that the round is complete there all the same.
  ghost predicate Timely(mode: FirstSignals, settled: bool, s: State, l: Label)
    requires WellShaped(s) && Enabled(s, l)
  {
    match l
    case Compute(_) => true
    case Draw => settled ==> s.AllPausing()
    case Call => s.AllPausing()
    case Kill =>
      s.calls > 1 || (
        match mode
        case Swallowed => s.threads[s.main.next].pc == Computing
        case Heard => s.main.next == 0 ==> s.AllPausing()
        case Mixed => true)
    case Swap => true
  }

  ghost predicate Timed(mode: FirstSignals, settled: bool, s: State, ls: seq<Label>)
    requires WellShaped(s) && Schedule(s, ls)
    decreases |ls|
  {
    ls == [] || (Timely(mode, settled, s, ls[0]) && Timed(mode, settled, Next(s, ls[0]), ls[1..]))
  }

  // ---------------------------------------------------------------- refinement

  // Which buffer holds the even and the odd generations.
  function SideOf(k: nat): Side { if k % 2 == 0 then First else Second }

  // Cells of generation k of the sequential program that starts from g.
  ghost function Cells(g: Grid, k: nat): (cells: seq<bool>)
    requires g.Valid()
    ensures |cells| == g.w * g.h
  {
    Generation(g, k).cells
  }

  // What the buffer of generation k holds before that generation is written: the one before
  // the last, or what the second buffer was allocated with.
  ghost function Older(g: Grid, junk: seq<bool>, k: nat): (cells: seq<bool>)
    requires g.Valid() && |junk| == g.w * g.h
    ensures |cells| == g.w * g.h
  {
    if k <= 1 then junk else Cells(g, k - 2)
  }

  // A round that computes the cells want from the cells have, held by the buffer at side,
  // over the cells was of the other buffer. The threads below i have joined it; the others
  // still pause after the round before.
  ghost predicate RoundOn(have: seq<bool>, want: seq<bool>, was: seq<bool>, side: Side,
                          first: seq<bool>, second: seq<bool>, threads: seq<CellThread>, i: nat)
  {
    && i <= |threads| == |first| == |second| == |have| == |want| == |was|
    && Pick(side, first, second) == have
    && (forall t :: 0 <= t < i ==> threads[t].src == side)
    && (forall t :: i <= t < |threads| ==> threads[t] == CellThread(Other(side), Pausing))
    && (forall t :: 0 <= t < |threads| ==>
          Pick(Other(side), first, second)[t] == if t < i && threads[t].pc == Pausing then want[t] else was[t])
  }

  // The round from generation gen to gen + 1.
  ghost predicate Round(g: Grid, junk: seq<bool>, first: seq<bool>, second: seq<bool>,
                        threads: seq<CellThread>, gen: nat, i: nat)
    requires g.Valid() && |junk| == g.w * g.h
  {
    RoundOn(Cells(g, gen), Cells(g, gen + 1), Older(g, junk, gen + 1), SideOf(gen), first, second, threads, i)
  }

  // The round in progress, as a function of main's position: the threads are one
  // generation further on when they heard the first signals.
  function RoundNo(mode: FirstSignals, s: State): nat
    requires s.calls > 0
  {
    if mode == Swallowed || (s.calls == 1 && s.main == Signalling(0)) then s.calls - 1 else s.calls
  }

  // The threads that have joined it.
  function Joined(mode: FirstSignals, s: State): nat
    requires s.calls > 0
  {
    if !s.main.Signalling? || (s.calls == 1 && (mode == Swallowed || s.main == Signalling(0))) then s.Cells() else s.main.next
  }

  // The threads and main are in step with each other.
  ghost predicate Lockstep(mode: FirstSignals, g: Grid, junk: seq<bool>, s: State) {
    Placed(mode, g, junk, s) && InRound(mode, g, junk, s)
  }

  ghost predicate Placed(mode: FirstSignals, g: Grid, junk: seq<bool>, s: State) {
    && mode != Mixed && WellShaped(s) && g.Valid() && g.w == s.w && g.h == s.h && |junk| == s.Cells()
    && s.foreground == SideOf(if s.main.Signalling? then s.calls - 1 else s.calls)
    && |s.frames| == (if s.main == Calling then s.calls + 1 else s.calls)
  }

  ghost predicate Inv(mode: FirstSignals, g: Grid, junk: seq<bool>, s: State) {
    Lockstep(mode, g, junk, s) && Lagging(mode, g, junk, s.frames)
  }

  ghost predicate InRound(mode: FirstSignals, g: Grid, junk: seq<bool>, s: State)
    requires g.Valid() && |junk| == g.w * g.h
  {
    if s.calls == 0 then s.first == g.cells && s.second == junk
    else Round(g, junk, s.first, s.second, s.threads, RoundNo(mode, s), Joined(mode, s))
  }

  ghost predicate Drawn(g: Grid, frames: seq<seq<bool>>)
    requires g.Valid()
  {
    forall k :: 0 <= k < |frames| ==> frames[k] == Cells(g, k)
  }

  // Every cell of frame k shows generation k, or what its buffer held before it.
  ghost predicate Lags(mode: FirstSignals, cells: seq<bool>, older: seq<bool>, frame: seq<bool>) {
    && |frame| == |cells| == |older|
    && forall t :: 0 <= t < |frame| ==> frame[t] == cells[t] || (mode == Swallowed && frame[t] == older[t])
  }

  ghost predicate Lagging(mode: FirstSignals, g: Grid, junk: seq<bool>, frames: seq<seq<bool>>)
    requires g.Valid() && |junk| == g.w * g.h
  {
    forall k :: 0 <= k < |frames| ==> FrameLags(mode, g, junk, k, frames[k])
  }

  ghost predicate FrameLags(mode: FirstSignals, g: Grid, junk: seq<bool>, k: nat, frame: seq<bool>)
    requires g.Valid() && |junk| == g.w * g.h
  {
    if k == 0 then frame == Cells(g, k) else Lags(mode, Cells(g, k), Older(g, junk, k), frame)
  }

  // A round in which every thread pauses again has produced what it wanted, and the next
  // round may start from there.
  lemma RoundOnComplete(have: seq<bool>, want: seq<bool>, was: seq<bool>, more: seq<bool>, side: Side,
                        first: seq<bool>, second: seq<bool>, threads: seq<CellThread>)
    requires RoundOn(have, want, was, side, first, second, threads, |threads|) && |more| == |have|
    requires forall t :: 0 <= t < |threads| ==> threads[t].pc == Pausing
    ensures Pick(Other(side), first, second) == want
    ensures RoundOn(want, more, have, Other(side), first, second, threads, 0)
  {
  }

  lemma RoundComplete(g: Grid, junk: seq<bool>, s: State, gen: nat)
    requires g.Valid() && WellShaped(s) && g.w == s.w && g.h == s.h && |junk| == s.Cells()
    requires Round(g, junk, s.first, s.second, s.threads, gen, s.Cells()) && s.AllPausing()
    ensures s.Buffer(SideOf(gen + 1)) == Cells(g, gen + 1)
    ensures Round(g, junk, s.first, s.second, s.threads, gen + 1, 0)
  {
    RoundOnComplete(Cells(g, gen), Cells(g, gen + 1), Older(g, junk, gen + 1), Cells(g, gen + 2), SideOf(gen),
                    s.first, s.second, s.threads);
    assert Other(SideOf(gen)) == SideOf(gen + 1) && Older(g, junk, gen + 2) == Cells(g, gen);
  }

  lemma NextCell(g: Grid, gen: nat, t: nat)
    requires g.Valid() && t < g.w * g.h
    ensures Cells(g, gen + 1)[t] == CellNext(g.w, g.h, Cells(g, gen), t)
  {
    Position(g.w, g.h, t);
  }

  lemma ComputeOn(have: seq<bool>, want: seq<bool>, was: seq<bool>, side: Side, s: State, i: nat, t: nat)
    requires WellShaped(s) && RoundOn(have, want, was, side, s.first, s.second, s.threads, i) && Enabled(s, Compute(t))
    requires |have| == s.w * s.h && want[t] == CellNext(s.w, s.h, have, t)
    ensures var s' := Next(s, Compute(t)); RoundOn(have, want, was, side, s'.first, s'.second, s'.threads, i)
  {
    assert t < i;
  }

  lemma ComputeInRound(g: Grid, junk: seq<bool>, s: State, gen: nat, i: nat, t: nat)
    requires g.Valid() && WellShaped(s) && g.w == s.w && g.h == s.h && |junk| == s.Cells()
    requires Round(g, junk, s.first, s.second, s.threads, gen, i) && Enabled(s, Compute(t))
    ensures var s' := Next(s, Compute(t)); Round(g, junk, s'.first, s'.second, s'.threads, gen, i)
  {
    NextCell(g, gen, t);
    ComputeOn(Cells(g, gen), Cells(g, gen + 1), Older(g, junk, gen + 1), SideOf(gen), s, i, t);
  }

  lemma KillOn(have: seq<bool>, want: seq<bool>, was: seq<bool>, side: Side, s: State)
    requires WellShaped(s) && Enabled(s, Kill)
    requires RoundOn(have, want, was, side, s.first, s.second, s.threads, s.main.next)
    ensures var s' := Next(s, Kill); RoundOn(have, want, was, side, s'.first, s'.second, s'.threads, s.main.next + 1)
  {
  }

  lemma KillInRound(g: Grid, junk: seq<bool>, s: State, gen: nat)
    requires g.Valid() && WellShaped(s) && g.w == s.w && g.h == s.h && |junk| == s.Cells()
    requires Enabled(s, Kill) && Round(g, junk, s.first, s.second, s.threads, gen, s.main.next)
    ensures var s' := Next(s, Kill); Round(g, junk, s'.first, s'.second, s'.threads, gen, s.main.next + 1)
  {
    KillOn(Cells(g, gen), Cells(g, gen + 1), Older(g, junk, gen + 1), SideOf(gen), s);
  }

  lemma StepLockstep(mode: FirstSignals, g: Grid, junk: seq<bool>, s: State, l: Label)
    requires Lockstep(mode, g, junk, s) && Enabled(s, l) && Timely(mode, false, s, l)
    ensures Lockstep(mode, g, junk, Next(s, l))
  {
    match l {
      case Compute(t) => ComputeInv(mode, g, junk, s, t);
      case Draw => MainOnly(mode, g, junk, s, l);
      case Call => CallInv(mode, g, junk, s);
      case Kill => KillInv(mode, g, junk, s);
      case Swap => MainOnly(mode, g, junk, s, l);
    }
  }

  lemma StepInv(mode: FirstSignals, g: Grid, junk: seq<bool>, s: State, l: Label)
    requires Inv(mode, g, junk, s) && Enabled(s, l) && Timely(mode, false, s, l)
    ensures Inv(mode, g, junk, Next(s, l))
  {
    StepLockstep(mode, g, junk, s, l);
    if l == Draw {
      ForegroundIs(mode, g, junk, s);
      if s.calls > 0 {
        ShownLags(mode, Cells(g, s.calls), Older(g, junk, s.calls), s.threads);
      }
      LaggingNext(mode, g, junk, s.frames, s.Buffer(s.foreground));
    } else {
      OnlyDrawsAdd(s, l);
    }
  }

  lemma OnlyDrawsAdd(s: State, l: Label)
    requires WellShaped(s) && Enabled(s, l) && l != Draw
    ensures Next(s, l).frames == s.frames
  {
  }

  lemma ComputeInv(mode: FirstSignals, g: Grid, junk: seq<bool>, s: State, t: nat)
    requires Lockstep(mode, g, junk, s) && Enabled(s, Compute(t))
    ensures Lockstep(mode, g, junk, Next(s, Compute(t)))
  {
    var s' := Next(s, Compute(t));
    assert s'.main == s.main && s'.calls == s.calls && s'.frames == s.frames && s'.foreground == s.foreground;
    ComputeInRound(g, junk, s, RoundNo(mode, s), Joined(mode, s), t);
    assert RoundNo(mode, s') == RoundNo(mode, s) && Joined(mode, s') == Joined(mode, s);
  }

  // The cells that a draw shows: with swallowed signals, those of threads that still compute
  // are not written yet.
  ghost function Shown(mode: FirstSignals, cells: seq<bool>, older: seq<bool>, threads: seq<CellThread>): (r: seq<bool>)
    requires |threads| == |cells| == |older|
  {
    seq(|cells|, t requires 0 <= t < |cells| => if mode == Swallowed && threads[t].pc == Computing then older[t] else cells[t])
  }

  lemma ForegroundIs(mode: FirstSignals, g: Grid, junk: seq<bool>, s: State)
    requires Lockstep(mode, g, junk, s) && s.main == Drawing
    ensures s.Buffer(s.foreground) ==
            if s.calls == 0 then Cells(g, 0) else Shown(mode, Cells(g, s.calls), Older(g, junk, s.calls), s.threads)
  {
    if s.calls > 0 {
      var gen := if mode == Swallowed then s.calls - 1 else s.calls;
      InRoundIs(mode, g, junk, s, gen, |s.threads|);
      BufferShows(mode, g, junk, s.first, s.second, s.threads, gen);
    }
  }

  // What the buffer that main looks at holds during the round from gen on.
  lemma BufferShows(mode: FirstSignals, g: Grid, junk: seq<bool>, first: seq<bool>, second: seq<bool>,
                    threads: seq<CellThread>, gen: nat)
    requires mode != Mixed && g.Valid() && |junk| == g.w * g.h && Round(g, junk, first, second, threads, gen, |threads|)
    ensures var k := if mode == Swallowed then gen + 1 else gen;
            Pick(SideOf(k), first, second) == Shown(mode, Cells(g, k), Older(g, junk, k), threads)
  {
    if mode == Swallowed {
      ShownAfter(g, junk, first, second, threads, gen);
    } else {
      ReadInRound(g, junk, first, second, threads, gen);
      HeardShows(Cells(g, gen), Older(g, junk, gen), threads);
    }
  }

  lemma ReadInRound(g: Grid, junk: seq<bool>, first: seq<bool>, second: seq<bool>, threads: seq<CellThread>, gen: nat)
    requires g.Valid() && |junk| == g.w * g.h && Round(g, junk, first, second, threads, gen, |threads|)
    ensures Pick(SideOf(gen), first, second) == Cells(g, gen)
  {
  }

  lemma ShownAfter(g: Grid, junk: seq<bool>, first: seq<bool>, second: seq<bool>, threads: seq<CellThread>, gen: nat)
    requires g.Valid() && |junk| == g.w * g.h && Round(g, junk, first, second, threads, gen, |threads|)
    ensures Pick(SideOf(gen + 1), first, second) == Shown(Swallowed, Cells(g, gen + 1), Older(g, junk, gen + 1), threads)
  {
    ShownOn(Cells(g, gen), Cells(g, gen + 1), Older(g, junk, gen + 1), SideOf(gen), first, second, threads);
    assert Other(SideOf(gen)) == SideOf(gen + 1);
  }

  lemma ShownOn(have: seq<bool>, want: seq<bool>, was: seq<bool>, side: Side,
                first: seq<bool>, second: seq<bool>, threads: seq<CellThread>)
    requires RoundOn(have, want, was, side, first, second, threads, |threads|)
    ensures Pick(Other(side), first, second) == Shown(Swallowed, want, was, threads)
  {
  }

  lemma HeardShows(cells: seq<bool>, older: seq<bool>, threads: seq<CellThread>)
    requires |threads| == |cells| == |older|
    ensures Shown(Heard, cells, older, threads) == cells
  {
  }

  // main draws or swaps.
  lemma MainOnly(mode: FirstSignals, g: Grid, junk: seq<bool>, s: State, l: Label)
    requires Lockstep(mode, g, junk, s) && Enabled(s, l) && (l == Draw || l == Swap)
    ensures Lockstep(mode, g, junk, Next(s, l))
  {
    var s' := Next(s, l);
    assert Placed(mode, g, junk, s');
    SameRound(mode, g, junk, s, s');
  }

  // A step that leaves the buffers and the threads alone stays in the round.
  lemma SameRound(mode: FirstSignals, g: Grid, junk: seq<bool>, s: State, s': State)
    requires g.Valid() && |junk| == g.w * g.h && InRound(mode, g, junk, s) && WellShaped(s')
    requires s'.first == s.first && s'.second == s.second && s'.threads == s.threads && s'.calls == s.calls
    requires s.calls > 0 ==> RoundNo(mode, s') == RoundNo(mode, s) && Joined(mode, s') == Joined(mode, s)
    ensures InRound(mode, g, junk, s')
  {
  }

  lemma ShownLags(mode: FirstSignals, cells: seq<bool>, older: seq<bool>, threads: seq<CellThread>)
    requires |threads| == |cells| == |older|
    ensures Lags(mode, cells, older, Shown(mode, cells, older, threads))
  {
  }

  lemma LaggingNext(mode: FirstSignals, g: Grid, junk: seq<bool>, frames: seq<seq<bool>>, frame: seq<bool>)
    requires g.Valid() && |junk| == g.w * g.h && Lagging(mode, g, junk, frames)
    requires FrameLags(mode, g, junk, |frames|, frame)
    ensures Lagging(mode, g, junk, frames + [frame])
  {
    var more := frames + [frame];
    forall k | 0 <= k < |more|
      ensures FrameLags(mode, g, junk, k, more[k])
    {
      assert more[k] == if k < |frames| then frames[k] else frame;
    }
  }

  lemma DrawnNext(g: Grid, frames: seq<seq<bool>>, frame: seq<bool>)
    requires g.Valid() && Drawn(g, frames) && frame == Cells(g, |frames|)
    ensures Drawn(g, frames + [frame])
  {
  }

  lemma CallInv(mode: FirstSignals, g: Grid, junk: seq<bool>, s: State)
    requires Lockstep(mode, g, junk, s) && Enabled(s, Call) && s.AllPausing()
    ensures Lockstep(mode, g, junk, Next(s, Call))
  {
    if s.calls == 0 {
      CallFirst(mode, g, junk, s);
    } else {
      CallLater(mode, g, junk, s);
    }
  }

  lemma CallFirst(mode: FirstSignals, g: Grid, junk: seq<bool>, s: State)
    requires Lockstep(mode, g, junk, s) && Enabled(s, Call) && s.calls == 0
    ensures Lockstep(mode, g, junk, Next(s, Call))
  {
    var s' := Next(s, Call);
    assert Cells(g, 0) == s'.first && Older(g, junk, 1) == s'.second;
    assert RoundNo(mode, s') == 0 && Joined(mode, s') == s.Cells();
  }

  lemma CallLater(mode: FirstSignals, g: Grid, junk: seq<bool>, s: State)
    requires Lockstep(mode, g, junk, s) && Enabled(s, Call) && s.AllPausing() && s.calls > 0
    ensures Lockstep(mode, g, junk, Next(s, Call))
  {
    NextRound(mode, g, junk, s);
    CallOn(mode, g, junk, s);
  }

  lemma CallOn(mode: FirstSignals, g: Grid, junk: seq<bool>, s: State)
    requires Placed(mode, g, junk, s) && Enabled(s, Call) && s.calls > 0
    requires Round(g, junk, s.first, s.second, s.threads, RoundNo(mode, s) + 1, 0)
    ensures Lockstep(mode, g, junk, Next(s, Call))
  {
    var s' := Next(s, Call);
    assert s' == s.(calls := s.calls + 1, main := Signalling(0));
    InRoundIs(mode, g, junk, s', RoundNo(mode, s) + 1, 0);
  }

  lemma InRoundIs(mode: FirstSignals, g: Grid, junk: seq<bool>, s: State, gen: nat, i: nat)
    requires g.Valid() && |junk| == g.w * g.h && s.calls > 0 && gen == RoundNo(mode, s) && i == Joined(mode, s)
    ensures InRound(mode, g, junk, s) <==> Round(g, junk, s.first, s.second, s.threads, gen, i)
  {
  }

  lemma NextRound(mode: FirstSignals, g: Grid, junk: seq<bool>, s: State)
    requires Lockstep(mode, g, junk, s) && s.main == Calling && s.AllPausing() && s.calls > 0
    ensures Round(g, junk, s.first, s.second, s.threads, RoundNo(mode, s) + 1, 0)
  {
    InRoundIs(mode, g, junk, s, RoundNo(mode, s), s.Cells());
    RoundComplete(g, junk, s, RoundNo(mode, s));
  }

  lemma KillInv(mode: FirstSignals, g: Grid, junk: seq<bool>, s: State)
    requires Lockstep(mode, g, junk, s) && Enabled(s, Kill) && Timely(mode, false, s, Kill)
    ensures Lockstep(mode, g, junk, Next(s, Kill))
  {
    if s.calls > 1 {
      KillLater(mode, g, junk, s);
    } else if mode == Heard {
      KillHeard(g, junk, s);
    } else {
      KillSwallowed(g, junk, s);
    }
  }

  lemma KillLater(mode: FirstSignals, g: Grid, junk: seq<bool>, s: State)
    requires Lockstep(mode, g, junk, s) && Enabled(s, Kill) && s.calls > 1
    ensures Lockstep(mode, g, junk, Next(s, Kill))
  {
    var s' := Next(s, Kill);
    KillInRound(g, junk, s, RoundNo(mode, s));
    assert s'.frames == s.frames && s'.foreground == s.foreground && s'.calls == s.calls;
    assert RoundNo(mode, s') == RoundNo(mode, s) && Joined(mode, s') == s.main.next + 1;
  }

  lemma KillHeard(g: Grid, junk: seq<bool>, s: State)
    requires Lockstep(Heard, g, junk, s) && Enabled(s, Kill) && Timely(Heard, false, s, Kill) && s.calls == 1
    ensures Lockstep(Heard, g, junk, Next(s, Kill))
  {
    var s' := Next(s, Kill);
    if s.main.next == 0 {
      RoundComplete(g, junk, s, 0);
    }
    KillInRound(g, junk, s, 1);
    assert s'.frames == s.frames && s'.foreground == s.foreground && s'.calls == s.calls;
    assert RoundNo(Heard, s') == 1 && Joined(Heard, s') == s.main.next + 1;
  }

  lemma KillSwallowed(g: Grid, junk: seq<bool>, s: State)
    requires Lockstep(Swallowed, g, junk, s) && Enabled(s, Kill) && Timely(Swallowed, false, s, Kill) && s.calls == 1
    ensures Lockstep(Swallowed, g, junk, Next(s, Kill))
  {
    var s' := Next(s, Kill);
    assert s'.threads == s.threads;
    SameRound(Swallowed, g, junk, s, s');
  }

  lemma TimelyAnyway(mode: FirstSignals, settled: bool, s: State, l: Label)
    requires WellShaped(s) && Enabled(s, l) && Timely(mode, settled, s, l)
    ensures Timely(mode, false, s, l)
  {
  }

  lemma {:induction false} RunInv(mode: FirstSignals, settled: bool, g: Grid, junk: seq<bool>, s: State, ls: seq<Label>)
    requires Inv(mode, g, junk, s) && Schedule(s, ls) && Timed(mode, settled, s, ls)
    ensures Inv(mode, g, junk, After(s, ls))
    decreases |ls|
  {
    if ls != [] {
      TimelyAnyway(mode, settled, s, ls[0]);
      StepInv(mode, g, junk, s, ls[0]);
      RunInv(mode, settled, g, junk, Next(s, ls[0]), ls[1..]);
    }
  }

  // ---------------------------------------------------------------- what main draws

  lemma InitInv(mode: FirstSignals, s: State)
    requires mode != Mixed && Init(s)
    ensures Inv(mode, Grid(s.w, s.h, s.first), s.second, s)
  {
  }

  // Each cell of frame k shows generation k of the sequential program or, when the first
  // signals were swallowed, may still show what its buffer held before: generation k - 2,
  // and for frame 1 the first contents of the second buffer.
  lemma FramesLag(mode: FirstSignals, settled: bool, s: State, ls: seq<Label>)
    requires mode != Mixed && Init(s) && Schedule(s, ls) && Timed(mode, settled, s, ls)
    ensures Grid(s.w, s.h, s.first).Valid() && Lagging(mode, Grid(s.w, s.h, s.first), s.second, After(s, ls).frames)
  {
    InitInv(mode, s);
    RunInv(mode, settled, Grid(s.w, s.h, s.first), s.second, s, ls);
  }

  // Each thread that still computes would leave its cell as it is.
  ghost predicate Unchanged(cells: seq<bool>, older: seq<bool>, threads: seq<CellThread>)
    requires |cells| == |older|
  {
    forall t :: 0 <= t < |cells| && t < |threads| && threads[t].pc == Computing ==> cells[t] == older[t]
  }

  // The frame that main is about to draw is right exactly when the first signals were heard
  // or each thread that still computes would leave its cell as it is.
  lemma FrameIsRightExactly(mode: FirstSignals, settled: bool, s: State, ls: seq<Label>)
    requires mode != Mixed && Init(s) && Schedule(s, ls) && Timed(mode, settled, s, ls) && After(s, ls).main == Drawing
    ensures var g, s' := Grid(s.w, s.h, s.first), After(s, ls);
            && g.Valid() && Next(s', Draw).frames == s'.frames + [s'.Buffer(s'.foreground)] && |s'.frames| == s'.calls
            && (s'.Buffer(s'.foreground) == Generation(g, s'.calls).cells <==>
                  mode == Heard || Unchanged(Cells(g, s'.calls), Older(g, s.second, s'.calls), s'.threads))
  {
    var g, s' := Grid(s.w, s.h, s.first), After(s, ls);
    InitInv(mode, s);
    RunInv(mode, settled, g, s.second, s, ls);
    ForegroundIs(mode, g, s.second, s');
    if s'.calls > 0 {
      ShownExactly(mode, Cells(g, s'.calls), Older(g, s.second, s'.calls), s'.threads);
    }
  }

  lemma ShownExactly(mode: FirstSignals, cells: seq<bool>, older: seq<bool>, threads: seq<CellThread>)
    requires mode != Mixed && |threads| == |cells| == |older|
    ensures Shown(mode, cells, older, threads) == cells <==> mode == Heard || Unchanged(cells, older, threads)
  {
    var shown := Shown(mode, cells, older, threads);
    if shown == cells && mode == Swallowed {
      forall t | 0 <= t < |threads| && threads[t].pc == Computing
        ensures cells[t] == older[t]
      {
        assert shown[t] == older[t];
      }
    }
  }

  lemma DrawnStep(mode: FirstSignals, settled: bool, g: Grid, junk: seq<bool>, s: State, l: Label)
    requires Lockstep(mode, g, junk, s) && Drawn(g, s.frames) && (mode == Heard || settled)
    requires Enabled(s, l) && Timely(mode, settled, s, l)
    ensures Drawn(g, Next(s, l).frames)
  {
    if l == Draw {
      ForegroundIs(mode, g, junk, s);
      if s.calls > 0 {
        ShownExactly(mode, Cells(g, s.calls), Older(g, junk, s.calls), s.threads);
      }
      DrawnNext(g, s.frames, s.Buffer(s.foreground));
    } else {
      OnlyDrawsAdd(s, l);
    }
  }

  lemma {:induction false} DrawnRun(mode: FirstSignals, settled: bool, g: Grid, junk: seq<bool>, s: State, ls: seq<Label>)
    requires Lockstep(mode, g, junk, s) && Drawn(g, s.frames) && (mode == Heard || settled)
    requires Schedule(s, ls) && Timed(mode, settled, s, ls)
    ensures Drawn(g, After(s, ls).frames)
    decreases |ls|
  {
    if ls != [] {
      DrawnStep(mode, settled, g, junk, s, ls[0]);
      TimelyAnyway(mode, settled, s, ls[0]);
      StepLockstep(mode, g, junk, s, ls[0]);
      DrawnRun(mode, settled, g, junk, Next(s, ls[0]), ls[1..]);
    }
  }

  // Frame k that main draws is the k-th generation of the sequential program: always when
  // the first signals are heard, and when rounds are complete at each draw if they are
  // swallowed.
  lemma FramesAreGenerations(mode: FirstSignals, settled: bool, s: State, ls: seq<Label>)
    requires mode != Mixed && (mode == Heard || settled) && Init(s) && Schedule(s, ls) && Timed(mode, settled, s, ls)
    ensures var g, frames := Grid(s.w, s.h, s.first), After(s, ls).frames;
            g.Valid() && forall k :: 0 <= k < |frames| ==> frames[k] == Generation(g, k).cells
  {
    InitInv(mode, s);
    DrawnRun(mode, settled, Grid(s.w, s.h, s.first), s.second, s, ls);
  }

  // ---------------------------------------------------------------- any order inside a round

  function Computes(order: seq<nat>): seq<Label> {
    if order == [] then [] else [Compute(order[0])] + Computes(order[1..])
  }

  lemma {:induction false} ComputeInOrder(s: State, order: seq<nat>)
    requires WellShaped(s) && forall k :: 0 <= k < |order| ==> order[k] < |s.threads| && s.threads[order[k]].pc == Computing
    requires forall j, k :: 0 <= j < k < |order| ==> order[j] != order[k]
    ensures Schedule(s, Computes(order))
    decreases |order|
  {
    if order != [] {
      assert order[0] < |s.threads|;
      assert Computes(order)[0] == Compute(order[0]) && Computes(order)[1..] == Computes(order[1..]);
      ComputeInOrder(Next(s, Compute(order[0])), order[1..]);
    }
  }

  // Once they are created the threads can compute in any order.
  lemma AnyOrder(s: State, order: seq<nat>)
    requires Init(s) && forall k :: 0 <= k < |order| ==> order[k] < s.Cells()
    requires forall j, k :: 0 <= j < k < |order| ==> order[j] != order[k]
    ensures Schedule(s, [Draw, Call] + Computes(order))
  {
    var s1 := Next(s, Draw);
    var s2 := Next(s1, Call);
    ComputeInOrder(s2, order);
    var rest := [Call] + Computes(order);
    assert rest[1..] == Computes(order);
    assert ([Draw, Call] + Computes(order))[1..] == rest;
  }

  // ---------------------------------------------------------------- wrong frames

  lemma Prepend(mode: FirstSignals, settled: bool, s: State, l: Label, rest: seq<Label>) returns (ls: seq<Label>)
    requires WellShaped(s) && Enabled(s, l) && Timely(mode, settled, s, l)
    requires Schedule(Next(s, l), rest) && Timed(mode, settled, Next(s, l), rest)
    ensures Schedule(s, ls) && Timed(mode, settled, s, ls) && After(s, ls) == After(Next(s, l), rest)
  {
    ls := [l] + rest;
    assert ls[1..] == rest;
  }

  lemma {:induction false} Concat(mode: FirstSignals, settled: bool, s: State, a: seq<Label>, b: seq<Label>)
    requires WellShaped(s) && Schedule(s, a) && Timed(mode, settled, s, a)
    requires Schedule(After(s, a), b) && Timed(mode, settled, After(s, a), b)
    ensures Schedule(s, a + b) && Timed(mode, settled, s, a + b) && After(s, a + b) == After(After(s, a), b)
    decreases |a|
  {
    if a == [] {
      assert a + b == b;
    } else {
      assert (a + b)[1..] == a[1..] + b;
      Concat(mode, settled, Next(s, a[0]), a[1..], b);
    }
  }

  function Signalled(c: CellThread): CellThread {
    if c.pc == Pausing then CellThread(Other(c.src), Computing) else c
  }

  // The rest of the first call's signals.
  lemma {:induction false} KillRest(mode: FirstSignals, settled: bool, s: State) returns (ls: seq<Label>)
    requires WellShaped(s) && s.calls == 1 && s.main.Signalling? && mode != Heard
    requires mode == Swallowed ==> forall t :: 0 <= t < |s.threads| ==> s.threads[t].pc == Computing
    ensures Schedule(s, ls) && Timed(mode, settled, s, ls)
    ensures var s' := After(s, ls);
            && s' == s.(main := Signalling(s.Cells()), threads := s'.threads) && |s'.threads| == |s.threads|
            && forall t :: 0 <= t < |s.threads| ==>
                 s'.threads[t] == if t < s.main.next then s.threads[t] else Signalled(s.threads[t])
    decreases s.Cells() - s.main.next
  {
    if s.main.next == s.Cells() {
      ls := [];
    } else {
      ls := KillRest(mode, settled, Next(s, Kill));
      ls := Prepend(mode, settled, s, Kill, ls);
    }
  }

  // Every round is complete before the next call, and yet a frame is not its generation.
  ghost predicate Strays(mode: FirstSignals, settled: bool, w: nat, h: nat, s: State, ls: seq<Label>) {
    && Init(s) && s.w == w && s.h == h && Schedule(s, ls) && Timed(mode, settled, s, ls)
    && !Drawn(Grid(w, h, s.first), After(s, ls).frames)
  }

  // Nobody has computed when main draws for the second time.
  lemma ReachEarlyDraw(mode: FirstSignals, s: State) returns (ls: seq<Label>)
    requires mode != Heard && Init(s)
    ensures Schedule(s, ls) && Timed(mode, false, s, ls) && After(s, ls).frames == [s.first, s.second]
  {
    var s1 := Next(s, Draw);
    var s2 := Next(s1, Call);
    var kills := KillRest(mode, false, s2);
    var s3 := After(s2, kills);
    var s4 := Next(s3, Swap);
    ls := Prepend(mode, false, s4, Draw, []);
    ls := Prepend(mode, false, s3, Swap, ls);
    Concat(mode, false, s2, kills, ls);
    ls := Prepend(mode, false, s1, Call, kills + ls);
    ls := Prepend(mode, false, s, Draw, ls);
  }

  // Without a pause between call and draw, some run draws a wrong frame, whatever the board,
  // exactly when the first signals need not all be heard.
  lemma EarlyDrawExactly(mode: FirstSignals, w: nat, h: nat)
    requires w > 0 && h > 0
    ensures (exists s, ls :: Strays(mode, false, w, h, s, ls)) <==> mode != Heard
  {
    if mode != Heard {
      var first := seq(w * h, t => false);
      var g := Grid(w, h, first);
      var second := seq(w * h, t requires 0 <= t < w * h => !Cells(g, 1)[t]);
      var s := State(w, h, first, second, [], Drawing, First, 0, []);
      MulMono(w, 1, h);
      var ls := ReachEarlyDraw(mode, s);
      assert second[0] != Cells(g, 1)[0];
      assert After(s, ls).frames[1] != Cells(g, 1);
      assert Strays(mode, false, w, h, s, ls);
    } else {
      forall s, ls | Init(s) && s.w == w && s.h == h && Schedule(s, ls) && Timed(mode, false, s, ls)
        ensures !Strays(mode, false, w, h, s, ls)
      {
        FramesAreGenerations(mode, false, s, ls);
      }
    }
  }

  // ---------------------------------------------------------------- mixed first signals

  // ---- boards of one or two cells: everything dies at once

  lemma AtMostOne(s: set<(int, int)>, x: (int, int))
    requires s <= {x}
    ensures |s| <= 1
  {
    if x in s {
      assert s == {x};
    } else {
      assert s == {};
    }
  }

  lemma SmallBoard(w: nat, h: nat)
    requires 0 < w * h <= 2
    ensures (w == 1 && h <= 2) || (w == 2 && h == 1)
  {
    if w >= 3 {
      MulMono(w, 1, h);
    } else if w == 2 && h >= 2 {
      MulMono(w, 2, h);
    }
  }

  lemma NobodySurvives(w: nat, h: nat, src: seq<bool>, t: nat)
    requires 0 < w * h <= 2 && t < w * h && |src| == w * h
    ensures !CellNext(w, h, src, t)
  {
    SmallBoard(w, h);
    Position(w, h, t);
    AtMostOne(LiveNeighbours(Grid(w, h, src), t / w, t % w), (h - 1 - t / w, w - 1 - t % w));
  }

  lemma DeadGeneration(g: Grid, k: nat)
    requires g.Valid() && 0 < g.w * g.h <= 2 && k > 0
    ensures forall t :: 0 <= t < g.w * g.h ==> !Cells(g, k)[t]
  {
    forall t | 0 <= t < g.w * g.h
      ensures !Cells(g, k)[t]
    {
      NextCell(g, k - 1, t);
      NobodySurvives(g.w, g.h, Cells(g, k - 1), t);
    }
  }

  // Thread t has been woken by the second call or a later one.
  ghost predicate Rejoined(s: State, t: nat) {
    s.calls > 2 || (s.calls == 2 && (s.main.Signalling? ==> t < s.main.next))
  }

  // What thread t has written is dead: its target when it pauses, the second buffer once it
  // has left the first one, and its source once it has been through two rounds.
  ghost predicate WroteDead(s: State, t: nat)
    requires t < |s.threads| == |s.first| == |s.second|
  {
    var c := s.threads[t];
    && (c.pc == Pausing ==> !s.Buffer(Other(c.src))[t])
    && (c.src == Second ==> !s.second[t])
    && (Rejoined(s, t) ==> !s.Buffer(c.src)[t])
    && (s.calls > 1 && s.main.Signalling? && t >= s.main.next ==> c.pc == Pausing)
  }

  ghost predicate Dying(g: Grid, s: State) {
    && WellShaped(s) && g.Valid() && g.w == s.w && g.h == s.h && s.Cells() <= 2
    && (s.calls == 0 ==> s.first == g.cells)
    && (forall t :: 0 <= t < |s.threads| ==> WroteDead(s, t))
    && s.foreground == SideOf(if s.main.Signalling? then s.calls - 1 else s.calls)
    && |s.frames| == (if s.main == Calling then s.calls + 1 else s.calls)
    && Drawn(g, s.frames)
  }

  lemma DyingDraw(g: Grid, s: State)
    requires Dying(g, s) && Enabled(s, Draw) && s.AllPausing()
    ensures s.Buffer(s.foreground) == Cells(g, s.calls)
  {
    if s.calls > 0 {
      DeadGeneration(g, s.calls);
      forall t | 0 <= t < s.Cells()
        ensures !s.Buffer(s.foreground)[t]
      {
        assert WroteDead(s, t);
      }
    }
  }

  lemma DyingCompute(g: Grid, s: State, t: nat)
    requires Dying(g, s) && Enabled(s, Compute(t))
    ensures Dying(g, Next(s, Compute(t)))
  {
    var s' := Next(s, Compute(t));
    NobodySurvives(s.w, s.h, s.Buffer(s.threads[t].src), t);
    forall u | 0 <= u < |s'.threads|
      ensures WroteDead(s', u)
    {
      assert WroteDead(s, u);
    }
  }

  lemma DyingStep(g: Grid, s: State, l: Label)
    requires Dying(g, s) && Enabled(s, l) && Timely(Mixed, true, s, l)
    ensures Dying(g, Next(s, l))
  {
    match l {
      case Compute(t) => DyingCompute(g, s, t);
      case Draw =>
        DyingDraw(g, s);
        DrawnNext(g, s.frames, s.Buffer(s.foreground));
        KeepsDead(s, l);
      case _ => KeepsDead(s, l);
    }
  }

  lemma KeepsDead(s: State, l: Label)
    requires WellShaped(s) && Enabled(s, l) && Timely(Mixed, true, s, l) && !l.Compute?
    requires s.calls == 0 ==> s.foreground == First
    requires forall t :: 0 <= t < |s.threads| ==> WroteDead(s, t)
    ensures var s' := Next(s, l); forall t :: 0 <= t < |s'.threads| ==> WroteDead(s', t)
  {
    var s' := Next(s, l);
    forall t | 0 <= t < |s'.threads|
      ensures WroteDead(s', t)
    {
      assert s.calls > 0 ==> WroteDead(s, t);
    }
  }

  lemma {:induction false} DyingRun(g: Grid, s: State, ls: seq<Label>)
    requires Dying(g, s) && Schedule(s, ls) && Timed(Mixed, true, s, ls)
    ensures Dying(g, After(s, ls))
    decreases |ls|
  {
    if ls != [] {
      DyingStep(g, s, ls[0]);
      DyingRun(g, Next(s, ls[0]), ls[1..]);
    }
  }

  // ---- larger boards: one thread overwrites what another has still to read

  // Every thread from i on that still computes does so; cells of threads that pause stay.
  lemma {:induction false} ComputeRest(s: State, i: nat) returns (ls: seq<Label>)
    requires WellShaped(s) && i <= |s.threads| && forall t :: 0 <= t < i ==> s.threads[t].pc == Pausing
    ensures Schedule(s, ls) && Timed(Mixed, true, s, ls)
    ensures var s' := After(s, ls);
            && s' == s.(first := s'.first, second := s'.second, threads := s'.threads) && s'.AllPausing()
            && |s'.second| == |s.second|
            && forall t :: 0 <= t < |s.threads| && s.threads[t].pc == Pausing ==> s'.second[t] == s.second[t]
    decreases |s.threads| - i
  {
    if i == |s.threads| {
      ls := [];
    } else if s.threads[i].pc == Pausing {
      ls := ComputeRest(s, i + 1);
    } else {
      ls := ComputeRest(Next(s, Compute(i)), i + 1);
      ls := Prepend(Mixed, true, s, Compute(i), ls);
    }
  }

  // The board on which just the cells of live are alive.
  function Only(w: nat, h: nat, live: set<(int, int)>): (cells: seq<bool>)
    ensures |cells| == w * h
  {
    seq(w * h, k requires 0 <= k < w * h => Position(w, h, k); (k / w, k % w) in live)
  }

  lemma OnlyAt(w: nat, h: nat, live: set<(int, int)>, r: int, c: int)
    ensures At(Grid(w, h, Only(w, h, live)), r, c) <==> InBounds(w, h, r, c) && (r, c) in live
  {
    if InBounds(w, h, r, c) {
      Index(w, h, r, c);
    }
  }

  lemma OnlyNext(w: nat, h: nat, live: set<(int, int)>, r: int, c: int, near: set<(int, int)>)
    requires InBounds(w, h, r, c)
    requires forall i, j :: (i, j) in near <==> (i, j) in live && InBounds(w, h, i, j) && Near(r, c, i, j)
    ensures w * r + c < w * h
    ensures CellNext(w, h, Only(w, h, live), w * r + c) <==> |near| == 3 || (|near| == 2 && (r, c) in live)
  {
    var g := Grid(w, h, Only(w, h, live));
    Index(w, h, r, c);
    OnlyAt(w, h, live, r, c);
    forall x: (int, int)
      ensures x in LiveNeighbours(g, r, c) <==> x in near
    {
      OnlyAt(w, h, live, x.0, x.1);
      assert x == (x.0, x.1);
    }
    assert LiveNeighbours(g, r, c) == near;
  }

  lemma OnlyUpdate(w: nat, h: nat, live: set<(int, int)>, r: int, c: int, alive: bool)
    requires InBounds(w, h, r, c)
    ensures w * r + c < w * h
    ensures Only(w, h, live)[w * r + c := alive] == Only(w, h, if alive then live + {(r, c)} else live - {(r, c)})
  {
    Index(w, h, r, c);
    forall k | 0 <= k < w * h && k != w * r + c
      ensures (k / w, k % w) != (r, c)
    {
      Position(w, h, k);
    }
  }

  // Three cells of a board, two of them neighbours of the middle one.
  ghost predicate Triple(w: nat, h: nat, a: (int, int), m: (int, int), u: (int, int)) {
    && InBounds(w, h, a.0, a.1) && InBounds(w, h, m.0, m.1) && InBounds(w, h, u.0, u.1)
    && Near(m.0, m.1, a.0, a.1) && Near(m.0, m.1, u.0, u.1) && a != u
  }

  lemma FindTriple(w: nat, h: nat) returns (a: (int, int), m: (int, int), u: (int, int))
    requires w * h >= 3
    ensures Triple(w, h, a, m, u)
  {
    if w >= 3 {
      a, m, u := (0, 0), (0, 1), (0, 2);
    } else if h >= 3 {
      a, m, u := (0, 0), (1, 0), (2, 0);
    } else {
      a, m, u := (0, 1), (0, 0), (1, 0);
    }
  }

  // The middle cell survives by its two neighbours and dies when a is taken away; a itself,
  // alone on a board, dies.
  lemma TripleRule(w: nat, h: nat, a: (int, int), m: (int, int), u: (int, int), alive: bool)
    requires Triple(w, h, a, m, u)
    ensures 0 <= w * a.0 + a.1 < w * h && 0 <= w * m.0 + m.1 < w * h && w * a.0 + a.1 != w * m.0 + m.1
    ensures var i, j, full, none := w * a.0 + a.1, w * m.0 + m.1, Only(w, h, {a, m, u}), Only(w, h, {});
            && CellNext(w, h, full, j) && !CellNext(w, h, full[i := false], j) && !CellNext(w, h, none[i := alive], i)
  {
    Index(w, h, a.0, a.1);
    Index(w, h, m.0, m.1);
    OnlyNext(w, h, {a, m, u}, m.0, m.1, {a, u});
    OnlyUpdate(w, h, {a, m, u}, a.0, a.1, false);
    OnlyNext(w, h, {a, m, u} - {a}, m.0, m.1, {u});
    AloneDies(w, h, a, alive);
  }

  lemma AloneDies(w: nat, h: nat, a: (int, int), alive: bool)
    requires InBounds(w, h, a.0, a.1)
    ensures 0 <= w * a.0 + a.1 < w * h
    ensures !CellNext(w, h, Only(w, h, {})[w * a.0 + a.1 := alive], w * a.0 + a.1)
  {
    Index(w, h, a.0, a.1);
    OnlyUpdate(w, h, {}, a.0, a.1, alive);
    OnlyNext(w, h, if alive then {} + {a} else {} - {a}, a.0, a.1, {});
  }

  // The state in which the first call has woken thread i and missed all the others: thread i
  // is about to compute a second time.
  ghost predicate HalfWoken(s: State, i: nat, full: seq<bool>) {
    && WellShaped(s) && s.calls == 1 && s.main == Drawing && s.foreground == Second
    && i < s.Cells() && s.first == full && s.frames == [full]
    && s.threads[i] == CellThread(Second, Computing)
    && forall t :: 0 <= t < s.Cells() && t != i ==> s.threads[t] == CellThread(First, Computing)
  }

  lemma ReachHalfWoken(s: State, i: nat) returns (ls: seq<Label>)
    requires Init(s) && i < s.Cells()
    ensures Schedule(s, ls) && Timed(Mixed, true, s, ls)
    ensures var s' := After(s, ls);
            && HalfWoken(s', i, s.first) && s'.w == s.w && s'.h == s.h
            && s'.second == s.second[i := CellNext(s.w, s.h, s.first, i)]
  {
    var s1 := Next(s, Draw);
    var s2 := Next(s1, Call);
    var s3 := Next(s2, Compute(i));
    var kills := KillRest(Mixed, true, s3);
    var s4 := After(s3, kills);
    ls := Prepend(Mixed, true, s4, Swap, []);
    Concat(Mixed, true, s3, kills, ls);
    ls := Prepend(Mixed, true, s2, Compute(i), kills + ls);
    ls := Prepend(Mixed, true, s1, Call, ls);
    ls := Prepend(Mixed, true, s, Draw, ls);
  }

  // From there thread i kills its cell in the board that thread j has still to read.
  lemma FromHalfWoken(s: State, i: nat, j: nat, full: seq<bool>) returns (ls: seq<Label>)
    requires HalfWoken(s, i, full) && j < s.Cells() && i != j
    requires !CellNext(s.w, s.h, s.second, i) && !CellNext(s.w, s.h, full[i := false], j)
    ensures Schedule(s, ls) && Timed(Mixed, true, s, ls)
    ensures var frames := After(s, ls).frames; |frames| == 2 && |frames[1]| == s.Cells() && !frames[1][j]
  {
    var s1 := Next(s, Compute(i));
    var s2 := Next(s1, Compute(j));
    var rest := ComputeRest(s2, 0);
    var s3 := After(s2, rest);
    ls := Prepend(Mixed, true, s3, Draw, []);
    Concat(Mixed, true, s2, rest, ls);
    ls := Prepend(Mixed, true, s1, Compute(j), rest + ls);
    ls := Prepend(Mixed, true, s, Compute(i), ls);
  }

  lemma ReachStray(w: nat, h: nat) returns (s: State, ls: seq<Label>)
    requires w > 0 && h > 0 && w * h >= 3
    ensures Strays(Mixed, true, w, h, s, ls)
  {
    var a, m, u := FindTriple(w, h);
    var full, none := Only(w, h, {a, m, u}), Only(w, h, {});
    TripleRule(w, h, a, m, u, false);
    var i, j := w * a.0 + a.1, w * m.0 + m.1;
    TripleRule(w, h, a, m, u, CellNext(w, h, full, i));
    s := State(w, h, full, none, [], Drawing, First, 0, []);
    var first := ReachHalfWoken(s, i);
    var s' := After(s, first);
    var more := FromHalfWoken(s', i, j, full);
    Concat(Mixed, true, s, first, more);
    ls := first + more;
    WrongAt(Grid(w, h, full), After(s, ls).frames, j);
  }

  lemma WrongAt(g: Grid, frames: seq<seq<bool>>, j: nat)
    requires g.Valid() && |frames| == 2 && j < |frames[1]| == g.w * g.h
    requires !frames[1][j] && CellNext(g.w, g.h, g.cells, j)
    ensures !Drawn(g, frames)
  {
    NextCell(g, 0, j);
    assert Cells(g, 0) == g.cells;
    assert frames[1] != Cells(g, 1);
  }

  // When the first call may wake some threads and lose the signals of others, a frame drawn
  // after a complete round can be wrong exactly on boards of three cells or more.
  lemma MixedSignalsExactly(w: nat, h: nat)
    requires w > 0 && h > 0
    ensures (exists s, ls :: Strays(Mixed, true, w, h, s, ls)) <==> w * h >= 3
  {
    if w * h >= 3 {
      var s, ls := ReachStray(w, h);
      assert Strays(Mixed, true, w, h, s, ls);
    } else {
      forall s, ls | Init(s) && s.w == w && s.h == h && Schedule(s, ls) && Timed(Mixed, true, s, ls)
        ensures !Strays(Mixed, true, w, h, s, ls)
      {
        MulMono(w, 1, h);
        DyingRun(Grid(w, h, s.first), s, ls);
      }
    }
  }
}
