// The integral of 4 / (x^2 + 1) over [0, 1] by rectangles, split among n workers. Doubles
// are exact reals here.
// Source: lab5/zad2/program.c, lab5/zad3/program.c, lab5/zad3/calculate.c
module Riemann {

  function FunctionValue(x: real): real {
    4.0 / (x * x + 1.0)
  }

  // The C conversion to int: truncation towards zero.
  function Trunc(x: real): int {
    if x >= 0.0 then x.Floor else -((-x).Floor)
  }

  // The least whole number that is not below x.
  function Ceil(x: real): int {
    if x == x.Floor as real then x.Floor else x.Floor + 1
  }

  // k steps of width w, as the loops take them.
  function Times(k: nat, w: real): real {
    if k == 0 then 0.0 else Times(k - 1, w) + w
  }

  lemma {:induction false} TimesIs(k: nat, w: real)
    ensures Times(k, w) == k as real * w
  {
    if k > 0 {
      TimesIs(k - 1, w);
    }
  }

  lemma {:induction false} TimesNotNegative(k: nat, w: real)
    requires w >= 0.0
    ensures Times(k, w) >= 0.0
  {
    if k > 0 {
      TimesNotNegative(k - 1, w);
    }
  }

  lemma {:induction false} TimesAdd(m: nat, n: nat, w: real)
    ensures Times(m + n, w) == Times(m, w) + Times(n, w)
  {
    if n > 0 {
      TimesAdd(m, n - 1, w);
    }
  }

  // g summed over the n points a, a + w, ...
  function Sum(g: real -> real, a: real, n: nat, w: real): real {
    if n == 0 then 0.0 else Sum(g, a, n - 1, w) + g(a + Times(n - 1, w))
  }

  // The rectangle of width w that stands at x.
  function Slab(w: real): real -> real {
    x => FunctionValue(x) * w
  }

  // n rectangles of width w, the first one at a.
  function Rectangles(a: real, n: nat, w: real): real {
    Sum(Slab(w), a, n, w)
  }

  lemma RectanglesNext(a: real, k: nat, w: real, x: real)
    requires x == a + Times(k, w)
    ensures Rectangles(a, k + 1, w) == Rectangles(a, k, w) + FunctionValue(x) * w
  {
  }

  // ---------------------------------------------------------------- the loops

  lemma Strict(a: real, b: real, w: real)
    requires a < b && w > 0.0
    ensures a * w < b * w
  {
    assert (b - a) * w > 0.0;
  }

  lemma Weak(a: real, b: real, w: real)
    requires a <= b && w >= 0.0
    ensures a * w <= b * w
  {
    assert (b - a) * w >= 0.0;
  }

  // A quotient by a positive width, compared with a whole number.
  lemma Quotient(x: real, w: real, k: int)
    requires w > 0.0
    ensures k as real * w <= x <==> k as real <= x / w
    ensures x <= k as real * w <==> x / w <= k as real
  {
    var q := x / w;
    assert q * w == x;
    if q < k as real {
      Strict(q, k as real, w);
    }
    if k as real < q {
      Strict(k as real, q, w);
    }
  }

  lemma FloorBetween(x: real, w: real, k: int)
    requires w > 0.0 && k as real * w <= x < (k + 1) as real * w
    ensures (x / w).Floor == k
  {
    Quotient(x, w, k);
    Quotient(x, w, k + 1);
  }

  function NotNegative(n: int): nat { if n < 0 then 0 else n }

  // How often calculate's loop turns: whole rectangles that fit.
  function CalculateSteps(a: real, b: real, w: real): nat
    requires w > 0.0
  {
    NotNegative(((b - a) / w).Floor)
  }

  // How often test's loop turns: rectangles it takes to reach b.
  function TestSteps(a: real, b: real, w: real): nat
    requires w > 0.0
  {
    NotNegative(Ceil((b - a) / w))
  }

  lemma DivNonNeg(x: real, w: real)
    requires x >= 0.0 && w > 0.0
    ensures x / w >= 0.0
  {
    Quotient(x, w, 0);
  }

  method Calculate(a: real, b: real, w: real) returns (result: real)
    requires w > 0.0
    ensures result == Rectangles(a, CalculateSteps(a, b, w), w)
  {
    result := 0.0;
    var i := a;
    ghost var k: nat := 0;
    while i + w <= b
      invariant i == a + Times(k, w) && result == Rectangles(a, k, w)
      invariant k == 0 || i <= b
      invariant k <= CalculateSteps(a, b, w)
      decreases CalculateSteps(a, b, w) - k
    {
      RectanglesNext(a, k, w, i);
      result := result + FunctionValue(i) * w;
      i := i + w;
      k := k + 1;
      StepsBound(a, b, w, k);
    }
    StepsExact(a, b, w, k);
  }

  lemma StepsBound(a: real, b: real, w: real, k: nat)
    requires w > 0.0 && a + Times(k, w) <= b
    ensures k <= CalculateSteps(a, b, w)
  {
    TimesIs(k, w);
    Quotient(b - a, w, k);
  }

  lemma StepsExact(a: real, b: real, w: real, k: nat)
    requires w > 0.0
    requires (k == 0 || a + Times(k, w) <= b) && b < a + Times(k, w) + w
    ensures k == CalculateSteps(a, b, w)
  {
    TimesIs(k, w);
    TimesIs(k + 1, w);
    Quotient(b - a, w, k);
    Quotient(b - a, w, k + 1);
  }

  method Test(a: real, b: real, w: real) returns (result: real)
    requires w > 0.0
    ensures result == Rectangles(a, TestSteps(a, b, w), w)
  {
    result := 0.0;
    var i := a;
    ghost var k: nat := 0;
    while i < b
      invariant i == a + Times(k, w) && result == Rectangles(a, k, w)
      invariant k == 0 || a + Times(k - 1, w) < b
      invariant k <= TestSteps(a, b, w)
      decreases TestSteps(a, b, w) - k
    {
      TestStepsBound(a, b, w, k);
      RectanglesNext(a, k, w, i);
      result := result + FunctionValue(i) * w;
      i := i + w;
      k := k + 1;
    }
    TestStepsExact(a, b, w, k);
  }

  lemma TestStepsBound(a: real, b: real, w: real, k: nat)
    requires w > 0.0 && a + Times(k, w) < b
    ensures k < TestSteps(a, b, w)
  {
    TimesIs(k, w);
    Quotient(b - a, w, k);
    CeilAbove((b - a) / w, k);
  }

  lemma CeilAbove(q: real, k: int)
    ensures Ceil(q) > k <==> q > k as real
  {
  }

  lemma TestStepsExact(a: real, b: real, w: real, k: nat)
    requires w > 0.0
    requires b <= a + Times(k, w) && (k == 0 || a + Times(k - 1, w) < b)
    ensures k == TestSteps(a, b, w)
  {
    TimesIs(k, w);
    Quotient(b - a, w, k);
    CeilAbove((b - a) / w, k);
    if k > 0 {
      TimesIs(k - 1, w);
      Quotient(b - a, w, k - 1);
      CeilAbove((b - a) / w, k - 1);
    }
  }

  // The numbers of turns, told by the guards: the last point from which a whole rectangle
  // fits, and the first point that is not before b.
  lemma LoopTurnsExactly(a: real, b: real, w: real, k: nat)
    requires w > 0.0
    ensures k == CalculateSteps(a, b, w) <==> (k == 0 || a + Times(k, w) <= b) && b < a + Times(k, w) + w
    ensures k == TestSteps(a, b, w) <==> b <= a + Times(k, w) && (k == 0 || a + Times(k - 1, w) < b)
  {
    var q := (b - a) / w;
    TimesIs(k, w);
    TimesIs(k + 1, w);
    Quotient(b - a, w, k);
    Quotient(b - a, w, k + 1);
    CeilAbove(q, k);
    if k > 0 {
      TimesIs(k - 1, w);
      Quotient(b - a, w, k - 1);
      CeilAbove(q, k - 1);
    }
  }

  // On ends that are multiples of w the two guards agree.
  lemma GuardsAgree(p: nat, q: nat, a: real, b: real, w: real)
    requires w > 0.0 && p <= q && a == Times(p, w) && b == Times(q, w)
    ensures CalculateSteps(a, b, w) == TestSteps(a, b, w) == q - p
  {
    TimesAdd(p, q - p, w);
    assert p + (q - p) == q;
    StepsExact(a, b, w, q - p);
    TestStepsExact(a, b, w, q - p);
  }

  // ---------------------------------------------------------------- the ranges

  // Blocks that lie wholly in the first i of n equal parts of [0, 1].
  function Blocks(n: nat, w: real, i: nat): nat
    requires n > 0 && w > 0.0
  {
    DivNonNeg(i as real / n as real, w);
    (i as real / n as real / w).Floor
  }

  // The last point of the block grid that the first i workers cover.
  function Edge(n: nat, w: real, i: nat): real
    requires n > 0 && w > 0.0
  {
    Times(Blocks(n, w, i), w)
  }

  lemma EdgeIsFloor(n: nat, w: real, i: nat)
    requires n > 0 && w > 0.0
    ensures n as real * w > 0.0
    ensures Edge(n, w, i) == (i as real / (n as real * w)).Floor as real * w
  {
    TimesIs(Blocks(n, w, i), w);
    Strict(0.0, n as real, w);
    NestedQuotient(i as real, n as real, w, n as real * w);
  }

  lemma NestedQuotient(x: real, n: real, w: real, nw: real)
    requires n > 0.0 && w > 0.0 && nw == n * w && nw > 0.0
    ensures x / n / w == x / nw
  {
    var y := x / n;
    var q := y / w;
    assert y * n == x;
    assert q * w == y;
    SameFactors(n, q * w, y);
    SameFactors(q, nw, n * w);
    var d := x / nw;
    assert d * nw == x;
    SameFactor(d, q, nw);
  }

  lemma EdgeNext(n: nat, w: real, i: nat)
    requires n > 0 && w > 0.0
    ensures Blocks(n, w, i) <= Blocks(n, w, i + 1)
    ensures Edge(n, w, i + 1) == Edge(n, w, i) + Trunc(((i + 1) as real * (1.0 / n as real) - Edge(n, w, i)) / w) as real * w
  {
    var y := (i + 1) as real / n as real;
    var k, m := Blocks(n, w, i), Blocks(n, w, i + 1);
    assert (i + 1) as real * (1.0 / n as real) == y;
    DivMono(i as real, (i + 1) as real, n as real);
    DivMono(i as real / n as real, y, w);
    TruncGap(y, Edge(n, w, i), k, m, w);
    TimesIs(m - k, w);
    TimesAdd(k, m - k, w);
    assert k + (m - k) == m;
  }

  lemma TruncGap(y: real, edge: real, k: nat, m: int, w: real)
    requires w > 0.0 && (y / w).Floor == m && k <= m && edge == Times(k, w)
    ensures Trunc((y - edge) / w) == m - k
  {
    TimesIs(k, w);
    DivMinus(y, k, w);
  }

  lemma DivMono(x: real, y: real, w: real)
    requires x <= y && w > 0.0
    ensures x / w <= y / w
  {
    var d := y / w - x / w;
    assert d * w == y - x;
    if d < 0.0 {
      Strict(d, 0.0, w);
    }
  }

  lemma DivMinus(y: real, k: int, w: real)
    requires w > 0.0
    ensures (y - k as real * w) / w == y / w - k as real
  {
    var d := (y - k as real * w) / w;
    assert d * w == y - k as real * w;
    assert (y / w - k as real) * w == y - k as real * w;
    SameFactor(d, y / w - k as real, w);
  }

  lemma SameFactor(a: real, b: real, w: real)
    requires w > 0.0 && a * w == b * w
    ensures a == b
  {
    assert (a - b) * w == 0.0;
  }

  method SplitArray(points: array<real>, n: nat, w: real)
    requires points.Length > n && w > 0.0
    modifies points
    ensures points[0] == 0.0
    ensures n > 0 ==> forall i :: 0 <= i <= n ==> points[i] == Edge(n, w, i)
    ensures forall i :: n < i < points.Length ==> points[i] == old(points[i])
  {
    points[0] := 0.0;
    if n > 0 {
      FloorBetween(0.0, w, 0);
    }
    for i := 0 to n
      invariant points[0] == 0.0
      invariant n > 0 ==> forall k :: 0 <= k <= i ==> points[k] == Edge(n, w, k)
      invariant forall k :: n < k < points.Length ==> points[k] == old(points[k])
    {
      EdgeNext(n, w, i);
      points[i + 1] := points[i] + Trunc(((i + 1) as real * (1.0 / n as real) - points[i]) / w) as real * w;
    }
  }

  // ---------------------------------------------------------------- splitting

  function SumOf(s: seq<real>): real {
    if s == [] then 0.0 else SumOf(s[..|s| - 1]) + s[|s| - 1]
  }

  // What each of the first k workers computes.
  function Partials(n: nat, w: real, k: nat): seq<real>
    requires w > 0.0 && (k > 0 ==> n > 0)
  {
    if k == 0 then []
    else EdgeNext(n, w, k - 1); Partials(n, w, k - 1) + [Rectangles(Edge(n, w, k - 1), Blocks(n, w, k) - Blocks(n, w, k - 1), w)]
  }

  lemma {:induction false} Join(g: real -> real, a: real, m: nat, n: nat, w: real)
    ensures Sum(g, a, m + n, w) == Sum(g, a, m, w) + Sum(g, a + Times(m, w), n, w)
  {
    if n > 0 {
      Join(g, a, m, n - 1, w);
      TimesAdd(m, n - 1, w);
      assert m + n - 1 == m + (n - 1);
    }
  }

  lemma {:induction false} PartialsSum(n: nat, w: real, k: nat)
    requires n > 0 && w > 0.0
    ensures SumOf(Partials(n, w, k)) == Rectangles(0.0, Blocks(n, w, k), w)
  {
    if k == 0 {
      assert 0 as real / n as real == 0.0;
      FloorBetween(0.0, w, 0);
    } else {
      PartialsSum(n, w, k - 1);
      PartialsLast(n, w, k);
      JoinAtEdge(n, w, k);
    }
  }

  lemma JoinAtEdge(n: nat, w: real, k: nat)
    requires n > 0 && w > 0.0 && k > 0
    ensures Blocks(n, w, k - 1) <= Blocks(n, w, k)
    ensures Rectangles(0.0, Blocks(n, w, k), w) ==
            Rectangles(0.0, Blocks(n, w, k - 1), w) +
            Rectangles(Edge(n, w, k - 1), Blocks(n, w, k) - Blocks(n, w, k - 1), w)
  {
    EdgeNext(n, w, k - 1);
    var p, q := Blocks(n, w, k - 1), Blocks(n, w, k);
    Join(Slab(w), 0.0, p, q - p, w);
    assert p + (q - p) == q;
    assert 0.0 + Times(p, w) == Edge(n, w, k - 1);
  }

  lemma PartialsLast(n: nat, w: real, k: nat)
    requires n > 0 && w > 0.0 && k > 0
    ensures Blocks(n, w, k - 1) <= Blocks(n, w, k)
    ensures SumOf(Partials(n, w, k)) ==
            SumOf(Partials(n, w, k - 1)) + Rectangles(Edge(n, w, k - 1), Blocks(n, w, k) - Blocks(n, w, k - 1), w)
  {
    EdgeNext(n, w, k - 1);
    SumAppend(Partials(n, w, k - 1), Rectangles(Edge(n, w, k - 1), Blocks(n, w, k) - Blocks(n, w, k - 1), w));
  }

  // Worker k - 1, run by either program on its range.
  lemma WorkerResult(n: nat, w: real, k: nat, a: real, b: real)
    requires n > 0 && w > 0.0 && k > 0 && a == Edge(n, w, k - 1) && b == Edge(n, w, k)
    ensures Partials(n, w, k) == Partials(n, w, k - 1) + [Rectangles(a, CalculateSteps(a, b, w), w)]
    ensures Partials(n, w, k) == Partials(n, w, k - 1) + [Rectangles(a, TestSteps(a, b, w), w)]
  {
    var p, q := Blocks(n, w, k - 1), Blocks(n, w, k);
    assert p <= q by { EdgeNext(n, w, k - 1); }
    GuardsAgree(p, q, a, b, w);
  }

  // The whole computation in one piece: calculate(0, 1, w).
  function Unsplit(w: real): real
    requires w > 0.0
  {
    Rectangles(0.0, CalculateSteps(0.0, 1.0, w), w)
  }

  // Any number of workers computes what one computes.
  lemma SplitEqualsUnsplit(n: nat, w: real)
    requires n > 0 && w > 0.0
    ensures SumOf(Partials(n, w, n)) == Unsplit(w)
  {
    PartialsSum(n, w, n);
    LastBlocks(n, w);
  }

  lemma LastBlocks(n: nat, w: real)
    requires n > 0 && w > 0.0
    ensures Blocks(n, w, n) == CalculateSteps(0.0, 1.0, w)
  {
    assert n as real / n as real == 1.0;
    assert 1.0 - 0.0 == 1.0;
  }

  lemma {:induction false} RectanglesPositive(a: real, n: nat, w: real)
    requires w > 0.0
    ensures Rectangles(a, n, w) >= 0.0 && (n > 0 ==> Rectangles(a, n, w) > 0.0)
  {
    if n > 0 {
      RectanglesPositive(a, n - 1, w);
      var x := a + Times(n - 1, w);
      ValuePositive(x);
      Strict(0.0, FunctionValue(x), w);
    }
  }

  lemma ValuePositive(x: real)
    ensures FunctionValue(x) > 0.0
  {
    var v, d := FunctionValue(x), x * x + 1.0;
    assert v * d == 4.0;
    if v <= 0.0 {
      Weak(v, 0.0, d);
    }
  }

  // With no worker at all the result is 0, which is right only when no rectangle fits.
  lemma SplitExactly(n: nat, w: real)
    requires w > 0.0
    ensures SumOf(Partials(n, w, n)) == Unsplit(w) <==> n > 0 || w > 1.0
  {
    if n > 0 {
      SplitEqualsUnsplit(n, w);
    } else if w > 1.0 {
      FloorBetween(1.0, w, 0);
    } else {
      assert Times(1, w) == w;
      StepsBound(0.0, 1.0, w, 1);
      RectanglesPositive(0.0, CalculateSteps(0.0, 1.0, w), w);
    }
  }

  ghost predicate HoldsEdges(range: array<real>, n: nat, w: real)
    requires w > 0.0
    reads range
  {
    range.Length == n + 1 && (n > 0 ==> forall i :: 0 <= i <= n ==> range[i] == Edge(n, w, i))
  }

  // A child process of zad2: worker i on its range.
  method ChildProcess(range: array<real>, n: nat, i: nat, w: real) returns (out: real)
    requires i < n && w > 0.0 && HoldsEdges(range, n, w)
    ensures Partials(n, w, i + 1) == Partials(n, w, i) + [out]
    ensures SumOf(Partials(n, w, i + 1)) == SumOf(Partials(n, w, i)) + out
  {
    WorkerResult(n, w, i + 1, range[i], range[i + 1]);
    out := Calculate(range[i], range[i + 1], w);
    SumAppend(Partials(n, w, i), out);
  }

  // zad2: the parent adds the workers' results in the order of their ranges.
  method SplitCalculation(n: nat, w: real) returns (result: real)
    requires w > 0.0
    ensures result == SumOf(Partials(n, w, n))
    ensures result == Unsplit(w) <==> n > 0 || w > 1.0
  {
    var range := new real[n + 1];
    SplitArray(range, n, w);
    result := 0.0;
    for i := 0 to n
      invariant HoldsEdges(range, n, w)
      invariant result == SumOf(Partials(n, w, i))
    {
      var out := ChildProcess(range, n, i, w);
      result := result + out;
    }
    SplitExactly(n, w);
  }

  // ---------------------------------------------------------------- zad3: a shared FIFO

  // A worker program of zad3: worker i on its range.
  method WorkerProgram(range: array<real>, n: nat, i: nat, w: real) returns (out: real)
    requires i < n && w > 0.0 && HoldsEdges(range, n, w)
    ensures Partials(n, w, i + 1) == Partials(n, w, i) + [out]
  {
    WorkerResult(n, w, i + 1, range[i], range[i + 1]);
    out := Test(range[i], range[i + 1], w);
  }

  // What the n worker programs write, in the order of their ranges.
  method RunWorkers(n: nat, w: real) returns (results: seq<real>)
    requires w > 0.0
    ensures results == Partials(n, w, n)
  {
    var range := new real[n + 1];
    SplitArray(range, n, w);
    results := [];
    for i := 0 to n
      invariant HoldsEdges(range, n, w)
      invariant results == Partials(n, w, i)
    {
      var out := WorkerProgram(range, n, i, w);
      results := results + [out];
    }
  }

  // The parent adds the tokens in the order in which they were written.
  method AddTokens(tokens: seq<real>) returns (result: real)
    ensures result == SumOf(tokens)
  {
    result := 0.0;
    for i := 0 to |tokens|
      invariant result == SumOf(tokens[..i])
    {
      result := result + tokens[i];
      assert tokens[..i + 1][..i] == tokens[..i];
    }
    assert tokens[..|tokens|] == tokens;
  }

  lemma {:induction false} SumRemove(s: seq<real>, i: nat)
    requires i < |s|
    ensures SumOf(s) == s[i] + SumOf(s[..i] + s[i + 1..])
  {
    var n := |s| - 1;
    var rest := s[..i] + s[i + 1..];
    if i < n {
      var shorter := s[..n][..i] + s[..n][i + 1..];
      SumRemove(s[..n], i);
      assert rest == shorter + [s[n]];
      SumAppend(shorter, s[n]);
    } else {
      assert rest == s[..n];
    }
  }

  lemma SumAppend(s: seq<real>, x: real)
    ensures SumOf(s + [x]) == SumOf(s) + x
  {
    assert (s + [x])[..|s|] == s;
  }

  lemma {:induction false} SumAnyOrder(s: seq<real>, t: seq<real>)
    requires multiset(s) == multiset(t)
    ensures SumOf(s) == SumOf(t)
    decreases |s|
  {
    if s == [] {
      assert |multiset(t)| == 0;
    } else {
      var n := |s| - 1;
      var x := s[n];
      assert x in multiset(t);
      var i :| 0 <= i < |t| && t[i] == x;
      var rest := t[..i] + t[i + 1..];
      assert t == t[..i] + [x] + t[i + 1..];
      assert s == s[..n] + [x];
      assert multiset(s[..n]) == multiset(s) - multiset{x};
      assert multiset(rest) == multiset(t) - multiset{x};
      SumAnyOrder(s[..n], rest);
      SumRemove(t, i);
    }
  }

  // Whatever order the workers' results arrive in, their sum is the unsplit result.
  lemma ArrivalOrder(n: nat, w: real, tokens: seq<real>)
    requires w > 0.0 && multiset(tokens) == multiset(Partials(n, w, n))
    ensures SumOf(tokens) == Unsplit(w) <==> n > 0 || w > 1.0
  {
    SumAnyOrder(tokens, Partials(n, w, n));
    SplitExactly(n, w);
  }

  // ---- workers that finish in any order

  ghost predicate Indices(order: seq<nat>, n: nat) {
    forall i :: 0 <= i < |order| ==> order[i] < n
  }

  ghost predicate Permutes(order: seq<nat>, n: nat) {
    multiset(order) == multiset(InOrder(n))
  }

  function InOrder(n: nat): (s: seq<nat>)
    ensures |s| == n && forall i :: 0 <= i < n ==> s[i] == i
  {
    seq(n, i requires 0 <= i < n => i)
  }

  // The elements of s that order names, in its order.
  ghost function Chosen(s: seq<real>, order: seq<nat>): (r: seq<real>)
    requires Indices(order, |s|)
    ensures |r| == |order| && forall i :: 0 <= i < |r| ==> r[i] == s[order[i]]
  {
    seq(|order|, i requires 0 <= i < |order| => s[order[i]])
  }

  // Taking one index out takes its element out.
  lemma ChosenRemove(s: seq<real>, a: seq<nat>, i: nat)
    requires Indices(a, |s|) && i < |a|
    ensures multiset(Chosen(s, a)) == multiset(Chosen(s, a[..i] + a[i + 1..])) + multiset{s[a[i]]}
  {
    var front, back := Chosen(s, a[..i]), Chosen(s, a[i + 1..]);
    assert Chosen(s, a) == front + [s[a[i]]] + back;
    assert Chosen(s, a[..i] + a[i + 1..]) == front + back;
  }

  lemma WithoutOne(a: seq<nat>, i: nat)
    requires i < |a|
    ensures multiset(a[..i] + a[i + 1..]) == multiset(a) - multiset{a[i]}
  {
    assert a == a[..i] + [a[i]] + a[i + 1..];
  }

  lemma {:induction false} ChosenAnyOrder(s: seq<real>, a: seq<nat>, b: seq<nat>)
    requires Indices(a, |s|) && Indices(b, |s|) && multiset(a) == multiset(b)
    ensures multiset(Chosen(s, a)) == multiset(Chosen(s, b))
    decreases |a|
  {
    if a == [] {
      assert |multiset(b)| == 0;
    } else {
      var i := IndexOf(b, a[0]);
      WithoutOne(a, 0);
      WithoutOne(b, i);
      ChosenAnyOrder(s, a[..0] + a[1..], b[..i] + b[i + 1..]);
      ChosenBack(s, a, b, i);
    }
  }

  lemma IndexOf(b: seq<nat>, x: nat) returns (i: nat)
    requires x in multiset(b)
    ensures i < |b| && b[i] == x
  {
    i :| i < |b| && b[i] == x;
  }

  lemma ChosenBack(s: seq<real>, a: seq<nat>, b: seq<nat>, i: nat)
    requires Indices(a, |s|) && Indices(b, |s|) && a != [] && i < |b| && b[i] == a[0]
    requires multiset(Chosen(s, a[..0] + a[1..])) == multiset(Chosen(s, b[..i] + b[i + 1..]))
    ensures multiset(Chosen(s, a)) == multiset(Chosen(s, b))
  {
    ChosenRemove(s, a, 0);
    ChosenRemove(s, b, i);
  }

  lemma PermutedIndices(order: seq<nat>, n: nat)
    requires Permutes(order, n)
    ensures |order| == n && Indices(order, n)
  {
    assert |multiset(order)| == |order|;
    assert |multiset(InOrder(n))| == n;
    forall i | 0 <= i < |order|
      ensures order[i] < n
    {
      assert order[i] in multiset(InOrder(n));
    }
  }

  lemma ChosenAll(s: seq<real>, order: seq<nat>)
    requires Permutes(order, |s|)
    ensures Indices(order, |s|) && multiset(Chosen(s, order)) == multiset(s)
  {
    PermutedIndices(order, |s|);
    ChosenAnyOrder(s, order, InOrder(|s|));
    assert Chosen(s, InOrder(|s|)) == s;
  }

  lemma {:induction false} PartialsPrefix(n: nat, w: real, k: nat, m: nat)
    requires n > 0 && w > 0.0 && k <= m
    ensures |Partials(n, w, m)| == m && Partials(n, w, m)[..k] == Partials(n, w, k)
    decreases m
  {
    if k < m {
      PartialsPrefix(n, w, k, m - 1);
      assert Partials(n, w, m)[..m - 1] == Partials(n, w, m - 1);
    } else if k > 0 {
      PartialsPrefix(n, w, k - 1, k - 1);
    }
  }

  // What worker i of zad3 writes is its entry of the partial results.
  lemma PartialsEntry(n: nat, w: real, i: nat, out: real)
    requires n > 0 && w > 0.0 && i < n && Partials(n, w, i + 1) == Partials(n, w, i) + [out]
    ensures |Partials(n, w, n)| == n && Partials(n, w, n)[i] == out
  {
    PartialsPrefix(n, w, i + 1, n);
    PartialsPrefix(n, w, i, i);
    assert Partials(n, w, n)[..i + 1][i] == out;
  }

  // zad3: the workers run and write in any order; the parent adds what arrives.
  method SplitCalculationFifo(n: nat, w: real, order: seq<nat>) returns (result: real)
    requires w > 0.0 && Permutes(order, n)
    ensures result == Unsplit(w) <==> n > 0 || w > 1.0
  {
    PermutedIndices(order, n);
    var range := new real[n + 1];
    SplitArray(range, n, w);
    var fifo := [];
    if n > 0 {
      PartialsPrefix(n, w, n, n);
    }
    for i := 0 to n
      invariant HoldsEdges(range, n, w) && |fifo| == i && |Partials(n, w, n)| == n
      invariant forall k :: 0 <= k < i ==> fifo[k] == Partials(n, w, n)[order[k]]
    {
      var out := WorkerProgram(range, n, order[i], w);
      PartialsEntry(n, w, order[i], out);
      fifo := fifo + [out];
    }
    ChosenAll(Partials(n, w, n), order);
    assert fifo == Chosen(Partials(n, w, n), order);
    result := AddTokens(fifo);
    ArrivalOrder(n, w, fifo);
  }

  // ---------------------------------------------------------------- accuracy

  lemma SquareGrows(x: real, y: real)
    requires 0.0 <= x <= y
    ensures x * x <= y * y
  {
    Weak(x, y, x);
    Weak(x, y, y);
  }

  lemma QuotientFalls(c: real, d: real)
    requires 0.0 < c <= d
    ensures 4.0 / d <= 4.0 / c
  {
    var u, v := 4.0 / c, 4.0 / d;
    assert u * c == 4.0 && v * d == 4.0;
    if v > u {
      Strict(u, v, d);
      Weak(c, d, u) by { assert u >= 0.0 by { DivNonNeg(4.0, c); } }
    }
  }

  lemma ValueDecreases(x: real, y: real)
    requires 0.0 <= x <= y
    ensures FunctionValue(y) <= FunctionValue(x)
  {
    SquareGrows(x, y);
    Weak(0.0, x, x);
    QuotientFalls(x * x + 1.0, y * y + 1.0);
  }

  ghost predicate Decreasing(g: real -> real) {
    forall x, y :: 0.0 <= x <= y ==> g(y) <= g(x)
  }

  lemma SlabDecreasing(w: real)
    requires w > 0.0
    ensures Decreasing(Slab(w))
  {
    forall x, y | 0.0 <= x <= y
      ensures Slab(w)(y) <= Slab(w)(x)
    {
      ValueDecreases(x, y);
      Weak(FunctionValue(y), FunctionValue(x), w);
    }
  }

  // The sum at the left ends exceeds the sum at the right ends by the drop of g.
  lemma {:induction false} LeftMinusRight(g: real -> real, n: nat, w: real)
    ensures Sum(g, 0.0, n, w) - Sum(g, w, n, w) == g(0.0) - g(Times(n, w))
  {
    if n > 0 {
      LeftMinusRight(g, n - 1, w);
      assert 0.0 + Times(n - 1, w) == Times(n - 1, w);
      assert w + Times(n - 1, w) == Times(n, w);
    }
  }

  lemma DropBound(x: real, w: real)
    requires w > 0.0 && 0.0 <= x <= 1.0
    ensures Slab(w)(0.0) - Slab(w)(x) <= 2.0 * w
  {
    ValueDecreases(x, 1.0);
    assert FunctionValue(1.0) == 2.0;
    assert FunctionValue(0.0) == 4.0;
    Weak(2.0, FunctionValue(x), w);
  }

  // n values taken inside [a, b] lie between the values at its ends.
  lemma {:induction false} BlockBounds(g: real -> real, a: real, b: real, n: nat, h: real)
    requires Decreasing(g) && h > 0.0 && a >= 0.0 && a + Times(n, h) <= b
    ensures Times(n, g(b)) <= Sum(g, a, n, h) <= Times(n, g(a))
  {
    if n > 0 {
      TimesNotNegative(n - 1, h);
      BlockBounds(g, a, b, n - 1, h);
      var x := a + Times(n - 1, h);
      assert g(b) <= g(x) <= g(a);
    }
  }

  lemma {:induction false} Regroup(k: nat, m: nat, h: real)
    ensures Times(k * m, h) == Times(k, Times(m, h))
  {
    if k > 0 {
      Regroup(k - 1, m, h);
      TimesAdd((k - 1) * m, m, h);
      assert (k - 1) * m + m == k * m;
    }
  }

  // One wide rectangle, and the m thin ones that replace it.
  lemma BracketNext(thin: real -> real, n: nat, w: real, p: nat, m: nat, h: real)
    requires Decreasing(thin) && w > 0.0 && h > 0.0 && Times(m, h) == w && Times(p, h) == Times(n, w)
    ensures Times(m, thin(Times(n, w) + w)) <= Sum(thin, 0.0, p + m, h) - Sum(thin, 0.0, p, h) <= Times(m, thin(Times(n, w)))
  {
    var a := Times(n, w);
    var sum := Sum(thin, a, m, h);
    assert Times(m, thin(a + w)) <= sum <= Times(m, thin(a)) by {
      TimesNotNegative(n, w);
      BlockBounds(thin, a, a + w, m, h);
    }
    assert Sum(thin, 0.0, p + m, h) - Sum(thin, 0.0, p, h) == sum by {
      Join(thin, 0.0, p, m, h);
      assert 0.0 + Times(p, h) == a;
    }
  }

  // Wide rectangles, each made of m slabs that stand at its left end.
  function ThickSum(g: real -> real, m: nat, a: real, n: nat, w: real): real {
    if n == 0 then 0.0 else ThickSum(g, m, a, n - 1, w) + Times(m, g(a + Times(n - 1, w)))
  }

  // Block k of m thin rectangles against the wide ones at its ends.
  ghost predicate BlockOk(thin: real -> real, k: nat, w: real, m: nat, h: real) {
    var x, sum := Times(k, w), Sum(thin, 0.0, k * m + m, h) - Sum(thin, 0.0, k * m, h);
    Times(m, thin(x + w)) <= sum <= Times(m, thin(x))
  }

  lemma AllBlocks(thin: real -> real, w: real, m: nat, h: real)
    requires Decreasing(thin) && w > 0.0 && h > 0.0 && Times(m, h) == w
    ensures forall k: nat :: BlockOk(thin, k, w, m, h)
  {
    forall k: nat
      ensures BlockOk(thin, k, w, m, h)
    {
      Regroup(k, m, h);
      BracketNext(thin, k, w, k * m, m, h);
    }
  }

  lemma {:induction false} Bracket(thin: real -> real, n: nat, w: real, m: nat, h: real)
    requires forall k: nat :: BlockOk(thin, k, w, m, h)
    ensures ThickSum(thin, m, w, n, w) <= Sum(thin, 0.0, n * m, h) <= ThickSum(thin, m, 0.0, n, w)
  {
    if n > 0 {
      var x := Times(n - 1, w);
      Bracket(thin, n - 1, w, m, h);
      assert BlockOk(thin, n - 1, w, m, h);
      MulStep(n, m);
      assert 0.0 + x == x && w + x == x + w;
    }
  }

  lemma MulStep(n: nat, m: nat)
    requires n > 0
    ensures (n - 1) * m + m == n * m
  {
  }

  lemma ThinSlab(m: nat, v: real, h: real, w: real, u: real)
    requires m as real * h == w && u == v * h
    ensures Times(m, u) == v * w
  {
    TimesIs(m, u);
    SameFactors(m as real, u, v * h);
    SameFactors(v, m as real * h, w);
  }

  lemma SameFactors(v: real, a: real, b: real)
    requires a == b
    ensures v * a == v * b
  {
  }

  // Cutting every rectangle into m keeps the sum between the right and the left sum.
  lemma RefinementBracket(n: nat, w: real, m: nat)
    requires w > 0.0 && m > 0
    ensures Rectangles(w, n, w) <= Rectangles(0.0, n * m, w / m as real) <= Rectangles(0.0, n, w)
  {
    var h := w / m as real;
    DivPositive(w, m as real);
    TimesIs(m, h);
    SlabDecreasing(h);
    AllBlocks(Slab(h), w, m, h);
    Bracket(Slab(h), n, w, m, h);
    ThickSlab(w, m, h, 0.0, n);
    ThickSlab(w, m, h, w, n);
  }

  lemma {:induction false} ThickSlab(w: real, m: nat, h: real, a: real, n: nat)
    requires m as real * h == w
    ensures ThickSum(Slab(h), m, a, n, w) == Rectangles(a, n, w)
  {
    if n > 0 {
      ThickSlab(w, m, h, a, n - 1);
      SlabOfSlabs(w, m, h, a + Times(n - 1, w));
    }
  }

  lemma SlabOfSlabs(w: real, m: nat, h: real, x: real)
    requires m as real * h == w
    ensures Times(m, Slab(h)(x)) == Slab(w)(x)
  {
    ThinSlab(m, FunctionValue(x), h, w, Slab(h)(x));
  }

  lemma DivPositive(x: real, y: real)
    requires x > 0.0 && y > 0.0
    ensures x / y > 0.0
  {
    Quotient(x, y, 0);
  }

  lemma StepsFit(w: real)
    requires w > 0.0
    ensures 0.0 <= Times(CalculateSteps(0.0, 1.0, w), w) <= 1.0
  {
    var n := CalculateSteps(0.0, 1.0, w);
    TimesIs(n, w);
    TimesNotNegative(n, w);
    DivNonNeg(1.0, w);
    Quotient(1.0, w, n);
  }

  // The computed sum exceeds the sum at the right ends by w * (f(0) - f(n * w)), at most 2w,
  // and every refinement of the same rectangles lies between the two.
  lemma Accuracy(w: real, m: nat)
    requires w > 0.0 && m > 0
    ensures var n := CalculateSteps(0.0, 1.0, w);
            && Unsplit(w) - Rectangles(w, n, w) == Slab(w)(0.0) - Slab(w)(Times(n, w)) <= 2.0 * w
            && Rectangles(w, n, w) <= Rectangles(0.0, n * m, w / m as real) <= Unsplit(w)
  {
    var n := CalculateSteps(0.0, 1.0, w);
    StepsFit(w);
    DropBound(Times(n, w), w);
    LeftMinusRight(Slab(w), n, w);
    RefinementBracket(n, w, m);
  }

  // ---- the integrand and the value of its integral

  // The height of every rectangle, told without the quotient.
  lemma IntegrandExactly(x: real, v: real)
    ensures v == FunctionValue(x) <==> v * (x * x + 1.0) == 4.0
  {
    var d := x * x + 1.0;
    assert x * x >= 0.0 by { SquareNotNegative(x); }
    assert FunctionValue(x) * d == 4.0;
    if v * d == 4.0 {
      SameFactor(v, FunctionValue(x), d);
    }
  }

  lemma SquareNotNegative(x: real)
    ensures x * x >= 0.0
  {
    if x >= 0.0 {
      Weak(0.0, x, x);
    } else {
      Weak(0.0, -x, -x);
    }
  }

  lemma Tenth(k: nat, v: real)
    requires k <= 10 && v * (k * k + 100) as real == 40.0
    ensures FunctionValue(k as real / 10.0) * 0.1 == v
  {
    var x := k as real / 10.0;
    assert x * x * 100.0 == (k * k) as real;
    var u := 10.0 * v;
    assert u * (x * x + 1.0) * 100.0 == 400.0;
    IntegrandExactly(x, u);
  }

  lemma NextTenth(a: real, i: nat, k: nat, v: real)
    requires i <= 10 && a == (i - k) as real / 10.0 && v * (i * i + 100) as real == 40.0
    ensures Rectangles(a, k + 1, 0.1) == Rectangles(a, k, 0.1) + v
  {
    TimesIs(k, 0.1);
    Tenth(i, v);
    RectanglesNext(a, k, 0.1, i as real / 10.0);
  }

  // The sums of ten rectangles at the left and at the right ends.
  lemma TenAtTheLeft()
    ensures Rectangles(0.0, 10, 0.1) < 3.24
  {
    NextTenth(0.0, 0, 0, 40.0 / 100.0);
    NextTenth(0.0, 1, 1, 40.0 / 101.0);
    NextTenth(0.0, 2, 2, 40.0 / 104.0);
    NextTenth(0.0, 3, 3, 40.0 / 109.0);
    NextTenth(0.0, 4, 4, 40.0 / 116.0);
    NextTenth(0.0, 5, 5, 40.0 / 125.0);
    NextTenth(0.0, 6, 6, 40.0 / 136.0);
    NextTenth(0.0, 7, 7, 40.0 / 149.0);
    NextTenth(0.0, 8, 8, 40.0 / 164.0);
    NextTenth(0.0, 9, 9, 40.0 / 181.0);
    assert Rectangles(0.0, 0, 0.1) == 0.0;
  }

  lemma TenAtTheRight()
    ensures Rectangles(0.1, 10, 0.1) > 3.03
  {
    NextTenth(0.1, 1, 0, 40.0 / 101.0);
    NextTenth(0.1, 2, 1, 40.0 / 104.0);
    NextTenth(0.1, 3, 2, 40.0 / 109.0);
    NextTenth(0.1, 4, 3, 40.0 / 116.0);
    NextTenth(0.1, 5, 4, 40.0 / 125.0);
    NextTenth(0.1, 6, 5, 40.0 / 136.0);
    NextTenth(0.1, 7, 6, 40.0 / 149.0);
    NextTenth(0.1, 8, 7, 40.0 / 164.0);
    NextTenth(0.1, 9, 8, 40.0 / 181.0);
    NextTenth(0.1, 10, 9, 40.0 / 200.0);
    assert Rectangles(0.1, 0, 0.1) == 0.0;
  }

  // Every refinement of ten rectangles computes a value within 0.11 of pi.
  lemma NearPi(m: nat)
    requires m > 0
    ensures 0.1 / m as real > 0.0 && 3.03 < Unsplit(0.1 / m as real) < 3.24
  {
    var h := 0.1 / m as real;
    DivPositive(0.1, m as real);
    TenthsFit(m, h);
    StepsExact(0.0, 1.0, h, 10 * m);
    RefinementBracket(10, 0.1, m);
    TenAtTheLeft();
    TenAtTheRight();
  }

  lemma TenthsFit(m: nat, h: real)
    requires h > 0.0 && m > 0 && h == 0.1 / m as real
    ensures Times(10 * m, h) == 1.0
  {
    TimesIs(m, h);
    Regroup(10, m, h);
    assert m as real * h == 0.1;
    TimesIs(10, 0.1);
  }
}
