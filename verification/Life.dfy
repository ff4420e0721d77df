// Conway's Game of Life on a bounded board.
// Source: lab8/zad01/lib/grid.c
module Life {

  // cells holds the rows one after another, as the C buffers do.
  datatype Grid = Grid(w: nat, h: nat, cells: seq<bool>) {
    ghost predicate Valid() { |cells| == w * h }
  }

  predicate InBounds(w: nat, h: nat, r: int, c: int) { 0 <= r < h && 0 <= c < w }

  // Every in-bounds cell has its own index, and every index its cell.
  lemma Index(w: nat, h: nat, r: int, c: int)
    requires InBounds(w, h, r, c)
    ensures 0 <= w * r + c < w * h && (w * r + c) / w == r && (w * r + c) % w == c
  {
    assert w * (r + 1) <= w * h by { MulMono(w, r + 1, h); }
    DivModUnique(w, r, c);
  }

  lemma MulMono(w: nat, a: nat, b: nat)
    requires a <= b
    ensures w * a <= w * b
  {
  }

  lemma DivModUnique(w: nat, q: nat, c: nat)
    requires c < w
    ensures (w * q + c) / w == q && (w * q + c) % w == c
  {
    var n := w * q + c;
    var d := n / w - q;
    assert w * (n / w) + n % w == n;
    assert w * d == c - n % w;
    MulSign(w, d);
  }

  lemma MulSign(w: int, d: int)
    requires w >= 0
    ensures d >= 1 ==> w * d >= w
    ensures d <= -1 ==> w * d + w <= 0
  {
  }

  lemma Position(w: nat, h: nat, k: nat)
    requires k < w * h
    ensures w > 0 && InBounds(w, h, k / w, k % w) && w * (k / w) + k % w == k
  {
    if k / w >= h {
      MulMono(w, h, k / w);
    }
  }

  // A cell off the board counts as dead.
  ghost predicate At(g: Grid, r: int, c: int)
    requires g.Valid()
  {
    InBounds(g.w, g.h, r, c) && (Index(g.w, g.h, r, c); g.cells[g.w * r + c])
  }

  lemma AtIndex(w: nat, h: nat, cells: seq<bool>, r: int, c: int)
    requires |cells| == w * h && InBounds(w, h, r, c)
    ensures w * r + c == r * w + c
    ensures 0 <= w * r + c < |cells| && (At(Grid(w, h, cells), r, c) <==> cells[w * r + c])
  {
    Index(w, h, r, c);
  }

  // ---------------------------------------------------------------- the rule

  ghost function LiveNeighbours(g: Grid, r: int, c: int): set<(int, int)>
    requires g.Valid()
  {
    set i, j | r - 1 <= i <= r + 1 && c - 1 <= j <= c + 1 && (i, j) != (r, c) && At(g, i, j) :: (i, j)
  }

  ghost predicate LiveNext(g: Grid, r: int, c: int)
    requires g.Valid()
  {
    var n := |LiveNeighbours(g, r, c)|;
    n == 3 || (n == 2 && At(g, r, c))
  }

  ghost function Step(g: Grid): (g': Grid)
    requires g.Valid()
    ensures g'.Valid() && g'.w == g.w && g'.h == g.h
  {
    Grid(g.w, g.h, seq(g.w * g.h, k requires 0 <= k < g.w * g.h => Position(g.w, g.h, k); LiveNext(g, k / g.w, k % g.w)))
  }

  ghost function Generation(g: Grid, k: nat): (g': Grid)
    requires g.Valid()
    ensures g'.Valid() && g'.w == g.w && g'.h == g.h
  {
    if k == 0 then g else Step(Generation(g, k - 1))
  }

  lemma StepAt(g: Grid, r: int, c: int)
    requires g.Valid()
    ensures At(Step(g), r, c) <==> InBounds(g.w, g.h, r, c) && LiveNext(g, r, c)
  {
    if InBounds(g.w, g.h, r, c) {
      Index(g.w, g.h, r, c);
    }
  }

  lemma GridExtensional(a: Grid, b: Grid)
    requires a.Valid() && b.Valid() && a.w == b.w && a.h == b.h
    requires forall r, c :: InBounds(a.w, a.h, r, c) ==> At(a, r, c) == At(b, r, c)
    ensures a == b
  {
    forall k | 0 <= k < a.w * a.h
      ensures a.cells[k] == b.cells[k]
    {
      Position(a.w, a.h, k);
      assert At(a, k / a.w, k % a.w) == At(b, k / a.w, k % a.w);
    }
  }

  // The live cells of the three-by-three block around a cell, the cell included.
  ghost function LiveBlock(g: Grid, r: int, c: int): set<(int, int)>
    requires g.Valid()
  {
    set i, j | r - 1 <= i <= r + 1 && c - 1 <= j <= c + 1 && At(g, i, j) :: (i, j)
  }

  // Conway's rule told by whole blocks: three live cells give life, four keep it as it is,
  // any other number takes it.
  lemma BlockRule(g: Grid, r: int, c: int)
    requires g.Valid() && InBounds(g.w, g.h, r, c)
    ensures At(Step(g), r, c) <==> |LiveBlock(g, r, c)| == 3 || (|LiveBlock(g, r, c)| == 4 && At(g, r, c))
  {
    StepAt(g, r, c);
    var others, block := LiveNeighbours(g, r, c), LiveBlock(g, r, c);
    forall x: (int, int)
      ensures x in block <==> x in others || (x == (r, c) && At(g, r, c))
    {
      assert x == (x.0, x.1);
    }
    assert block == if At(g, r, c) then others + {(r, c)} else others;
  }

  // ---------------------------------------------------------------- is_alive and update_grid

  ghost function Board(w: nat, h: nat, buf: array<bool>): Grid
    reads buf
  {
    Grid(w, h, buf[..])
  }

  // The live neighbours met before the double loop reaches offset (i, j).
  ghost function LiveBefore(g: Grid, r: int, c: int, i: int, j: int): set<(int, int)>
    requires g.Valid()
  {
    set x | x in LiveNeighbours(g, r, c) && (x.0 < r + i || (x.0 == r + i && x.1 < c + j))
  }

  lemma LiveBeforeNext(g: Grid, r: int, c: int, i: int, j: int)
    requires g.Valid() && -1 <= i <= 1 && -1 <= j <= 1
    ensures |LiveBefore(g, r, c, i, j + 1)| == |LiveBefore(g, r, c, i, j)| + if (i, j) != (0, 0) && At(g, r + i, c + j) then 1 else 0
  {
    var x := (r + i, c + j);
    var before, after := LiveBefore(g, r, c, i, j), LiveBefore(g, r, c, i, j + 1);
    forall y | y != x
      ensures y in after <==> y in before
    {
    }
    assert x in after <==> (i, j) != (0, 0) && At(g, x.0, x.1);
    assert x !in before;
    assert after == if x in after then before + {x} else before;
  }

  lemma LiveBeforeRow(g: Grid, r: int, c: int, i: int)
    requires g.Valid()
    ensures LiveBefore(g, r, c, i, 2) == LiveBefore(g, r, c, i + 1, -1)
  {
  }

  lemma LiveBeforeEnds(g: Grid, r: int, c: int)
    requires g.Valid()
    ensures LiveBefore(g, r, c, -1, -1) == {} && LiveBefore(g, r, c, 2, -1) == LiveNeighbours(g, r, c)
  {
  }

  // The places that the loop body skips do not count, the others by their cell.
  lemma LiveBeforePlace(w: nat, h: nat, cells: seq<bool>, row: int, col: int, i: int, j: int)
    requires |cells| == w * h && -1 <= i <= 1 && -1 <= j <= 1
    ensures var g, r, c := Grid(w, h, cells), row + i, col + j;
            if (i, j) == (0, 0) || !InBounds(w, h, r, c)
            then |LiveBefore(g, row, col, i, j + 1)| == |LiveBefore(g, row, col, i, j)|
            else && 0 <= w * r + c < |cells|
                 && |LiveBefore(g, row, col, i, j + 1)| == |LiveBefore(g, row, col, i, j)| + if cells[w * r + c] then 1 else 0
  {
    LiveBeforeNext(Grid(w, h, cells), row, col, i, j);
    if InBounds(w, h, row + i, col + j) {
      AtIndex(w, h, cells, row + i, col + j);
    }
  }

  method IsAlive(w: nat, h: nat, row: nat, col: nat, grid: array<bool>) returns (alive: bool)
    requires grid.Length == w * h && InBounds(w, h, row, col)
    ensures alive == LiveNext(Board(w, h, grid), row, col)
  {
    ghost var g := Board(w, h, grid);
    var count := 0;
    LiveBeforeEnds(g, row, col);
    for i := -1 to 2
      invariant count == |LiveBefore(g, row, col, i, -1)|
    {
      for j := -1 to 2
        invariant count == |LiveBefore(g, row, col, i, j)|
      {
        LiveBeforePlace(w, h, grid[..], row, col, i, j);
        if i == 0 && j == 0 {
          continue;
        }
        var r, c := row + i, col + j;
        if r < 0 || r >= h || c < 0 || c >= w {
          continue;
        }
        if grid[w * r + c] {
          count := count + 1;
        }
      }
      LiveBeforeRow(g, row, col, i);
    }
    AtIndex(w, h, grid[..], row, col);
    if grid[row * w + col] {
      alive := count == 2 || count == 3;
    } else {
      alive := count == 3;
    }
  }

  method UpdateGrid(w: nat, h: nat, src: array<bool>, dst: array<bool>)
    requires src != dst && src.Length == w * h && dst.Length == w * h
    modifies dst
    ensures Board(w, h, dst) == Step(old(Board(w, h, src)))
  {
    ghost var g := Board(w, h, src);
    ghost var next := Step(g).cells;
    for i := 0 to h
      invariant w * i <= w * h
      invariant src[..] == g.cells
      invariant forall k :: 0 <= k < w * i ==> dst[k] == next[k]
    {
      MulMono(w, i + 1, h);
      for j := 0 to w
        invariant src[..] == g.cells
        invariant forall k :: 0 <= k < w * i + j ==> dst[k] == next[k]
      {
        var alive := IsAlive(w, h, i, j, src);
        Index(w, h, i, j);
        dst[i * w + j] := alive;
        assert w * i + j == i * w + j;
      }
    }
    assert dst[..] == next;
  }

  // ---------------------------------------------------------------- locality

  ghost predicate SameAt(a: Grid, b: Grid, r: int, c: int)
    requires a.Valid() && b.Valid()
  {
    At(a, r, c) == At(b, r, c)
  }

  // Agreement on the square of radius k around (r, c).
  ghost predicate AgreeNear(a: Grid, b: Grid, r: int, c: int, k: nat)
    requires a.Valid() && b.Valid()
  {
    forall i, j :: r - k <= i <= r + k && c - k <= j <= c + k ==> SameAt(a, b, i, j)
  }

  lemma StepLocal(a: Grid, b: Grid, r: int, c: int)
    requires a.Valid() && b.Valid() && a.w == b.w && a.h == b.h && AgreeNear(a, b, r, c, 1)
    ensures At(Step(a), r, c) == At(Step(b), r, c)
  {
    StepAt(a, r, c);
    StepAt(b, r, c);
    forall i, j | r - 1 <= i <= r + 1 && c - 1 <= j <= c + 1
      ensures (i, j) in LiveNeighbours(a, r, c) <==> (i, j) in LiveNeighbours(b, r, c)
    {
      assert SameAt(a, b, i, j);
    }
    assert LiveNeighbours(a, r, c) == LiveNeighbours(b, r, c);
    assert SameAt(a, b, r, c);
  }

  // Nothing travels faster than one cell per generation.
  lemma {:induction false} Locality(a: Grid, b: Grid, r: int, c: int, k: nat)
    requires a.Valid() && b.Valid() && a.w == b.w && a.h == b.h && AgreeNear(a, b, r, c, k)
    ensures SameAt(Generation(a, k), Generation(b, k), r, c)
    decreases k
  {
    if k > 0 {
      var a', b' := Generation(a, k - 1), Generation(b, k - 1);
      forall i, j | r - 1 <= i <= r + 1 && c - 1 <= j <= c + 1
        ensures SameAt(a', b', i, j)
      {
        Locality(a, b, i, j, k - 1);
      }
      StepLocal(a', b', r, c);
    } else {
      assert SameAt(a, b, r, c);
    }
  }

  // ---------------------------------------------------------------- symmetry

  // The eight symmetries of a board: exchange rows and columns, then mirror.
  datatype Symmetry = Symmetry(flipRows: bool, flipCols: bool, swap: bool)

  // Where the cell that the image shows at (r, c) comes from in a board of w x h.
  function Origin(s: Symmetry, w: nat, h: nat, r: int, c: int): (int, int) {
    var (a, b) := if s.swap then (c, r) else (r, c);
    (if s.flipRows then h - 1 - a else a, if s.flipCols then w - 1 - b else b)
  }

  ghost function Image(s: Symmetry, g: Grid): (g': Grid)
    requires g.Valid()
    ensures g'.Valid()
  {
    var w, h := if s.swap then g.h else g.w, if s.swap then g.w else g.h;
    Grid(w, h, seq(w * h, k requires 0 <= k < w * h =>
      Position(w, h, k); var o := Origin(s, g.w, g.h, k / w, k % w); At(g, o.0, o.1)))
  }

  lemma ImageAt(s: Symmetry, g: Grid, r: int, c: int)
    requires g.Valid()
    ensures var o := Origin(s, g.w, g.h, r, c); At(Image(s, g), r, c) == At(g, o.0, o.1)
  {
    var g' := Image(s, g);
    if InBounds(g'.w, g'.h, r, c) {
      Index(g'.w, g'.h, r, c);
    }
  }

  predicate Near(r: int, c: int, i: int, j: int) {
    r - 1 <= i <= r + 1 && c - 1 <= j <= c + 1 && (i, j) != (r, c)
  }

  lemma OriginNear(s: Symmetry, w: nat, h: nat, r: int, c: int, i: int, j: int)
    ensures var o, p := Origin(s, w, h, r, c), Origin(s, w, h, i, j); Near(r, c, i, j) <==> Near(o.0, o.1, p.0, p.1)
  {
  }

  // The cell of the image that shows the cell (a, b) of the board.
  function Destination(s: Symmetry, w: nat, h: nat, a: int, b: int): (int, int) {
    var x, y := if s.flipRows then h - 1 - a else a, if s.flipCols then w - 1 - b else b;
    if s.swap then (y, x) else (x, y)
  }

  lemma LiveImage(s: Symmetry, g: Grid, r: int, c: int, i: int, j: int)
    requires g.Valid()
    ensures var o := Origin(s, g.w, g.h, r, c);
            (i, j) in LiveNeighbours(Image(s, g), r, c) <==> Origin(s, g.w, g.h, i, j) in LiveNeighbours(g, o.0, o.1)
  {
    var o, p := Origin(s, g.w, g.h, r, c), Origin(s, g.w, g.h, i, j);
    ImageAt(s, g, i, j);
    OriginNear(s, g.w, g.h, r, c, i, j);
    assert (i, j) in LiveNeighbours(Image(s, g), r, c) <==> Near(r, c, i, j) && At(Image(s, g), i, j);
    assert (p.0, p.1) in LiveNeighbours(g, o.0, o.1) <==> Near(o.0, o.1, p.0, p.1) && At(g, p.0, p.1);
  }

  // From the image to the board, or back.
  function Carry(back: bool, s: Symmetry, w: nat, h: nat, x: (int, int)): (int, int) {
    if back then Destination(s, w, h, x.0, x.1) else Origin(s, w, h, x.0, x.1)
  }

  lemma CarryInverse(back: bool, s: Symmetry, w: nat, h: nat, x: (int, int))
    ensures Carry(!back, s, w, h, Carry(back, s, w, h, x)) == x
  {
  }

  // Neither direction sends two cells to the same cell.
  lemma {:induction false} CarrySize(back: bool, s: Symmetry, w: nat, h: nat, from: set<(int, int)>, to: set<(int, int)>)
    requires forall x :: x in from ==> Carry(back, s, w, h, x) in to
    ensures |from| <= |to|
    decreases from
  {
    if from != {} {
      var p :| p in from;
      var q := Carry(back, s, w, h, p);
      forall x | x in from - {p}
        ensures Carry(back, s, w, h, x) in to - {q}
      {
        CarryInverse(back, s, w, h, x);
        CarryInverse(back, s, w, h, p);
      }
      CarrySize(back, s, w, h, from - {p}, to - {q});
    }
  }

  // A symmetry carries the live neighbours of a cell one to one onto those of its origin.
  lemma NeighboursImage(s: Symmetry, g: Grid, r: int, c: int)
    requires g.Valid()
    ensures var o := Origin(s, g.w, g.h, r, c);
            |LiveNeighbours(Image(s, g), r, c)| == |LiveNeighbours(g, o.0, o.1)|
  {
    var o := Origin(s, g.w, g.h, r, c);
    var there, here := LiveNeighbours(Image(s, g), r, c), LiveNeighbours(g, o.0, o.1);
    forall x | x in there
      ensures Carry(false, s, g.w, g.h, x) in here
    {
      LiveImage(s, g, r, c, x.0, x.1);
    }
    CarrySize(false, s, g.w, g.h, there, here);
    forall y | y in here
      ensures Carry(true, s, g.w, g.h, y) in there
    {
      CarryInverse(true, s, g.w, g.h, y);
      var d := Destination(s, g.w, g.h, y.0, y.1);
      LiveImage(s, g, r, c, d.0, d.1);
    }
    CarrySize(true, s, g.w, g.h, here, there);
  }

  lemma StepImage(s: Symmetry, g: Grid)
    requires g.Valid()
    ensures Step(Image(s, g)) == Image(s, Step(g))
  {
    var a, b := Step(Image(s, g)), Image(s, Step(g));
    forall r, c | InBounds(a.w, a.h, r, c)
      ensures At(a, r, c) == At(b, r, c)
    {
      var o := Origin(s, g.w, g.h, r, c);
      StepAt(Image(s, g), r, c);
      ImageAt(s, Step(g), r, c);
      StepAt(g, o.0, o.1);
      ImageAt(s, g, r, c);
      NeighboursImage(s, g, r, c);
    }
    GridExtensional(a, b);
  }

  // Any number of generations commutes with every symmetry of the board.
  lemma {:induction false} GenerationImage(s: Symmetry, g: Grid, k: nat)
    requires g.Valid()
    ensures Generation(Image(s, g), k) == Image(s, Generation(g, k))
  {
    if k > 0 {
      GenerationImage(s, g, k - 1);
      StepImage(s, Generation(g, k - 1));
    }
  }
}
