// Sums of a weight over a sequence of process states. The protocols use them to
// count the processes that sit between two program points.
module Totals {

  function Total<T>(s: seq<T>, f: T -> nat): nat {
    if s == [] then 0 else f(s[0]) + Total(s[1..], f)
  }

  // Moving one process from s[i] to x changes the sum by f(x) - f(s[i]).
  lemma {:induction false} TotalUpdate<T>(s: seq<T>, i: nat, x: T, f: T -> nat)
    requires i < |s|
    ensures Total(s[i := x], f) + f(s[i]) == Total(s, f) + f(x)
  {
    if i > 0 {
      assert s[i := x][1..] == s[1..][i - 1 := x];
      TotalUpdate(s[1..], i - 1, x, f);
    } else {
      assert s[i := x][1..] == s[1..];
    }
  }

  lemma {:induction false} TotalWitness<T>(s: seq<T>, f: T -> nat) returns (i: nat)
    requires Total(s, f) > 0
    ensures i < |s| && f(s[i]) > 0
  {
    if f(s[0]) > 0 {
      i := 0;
    } else {
      var j := TotalWitness(s[1..], f);
      i := j + 1;
    }
  }

  lemma {:induction false} TotalAtLeast<T>(s: seq<T>, i: nat, f: T -> nat)
    requires i < |s|
    ensures f(s[i]) <= Total(s, f)
  {
    if i > 0 {
      TotalAtLeast(s[1..], i - 1, f);
    }
  }

  lemma {:induction false} TotalMono<T(!new)>(s: seq<T>, f: T -> nat, g: T -> nat)
    requires forall x :: f(x) <= g(x)
    ensures Total(s, f) <= Total(s, g)
  {
    if s != [] {
      TotalMono(s[1..], f, g);
    }
  }

  lemma {:induction false} TotalSum<T(!new)>(s: seq<T>, f: T -> nat, g: T -> nat, h: T -> nat)
    requires forall x :: h(x) == f(x) + g(x)
    ensures Total(s, h) == Total(s, f) + Total(s, g)
  {
    if s != [] {
      TotalSum(s[1..], f, g, h);
    }
  }

  lemma {:induction false} TotalConstant<T>(s: seq<T>, f: T -> nat, c: nat)
    requires forall i :: 0 <= i < |s| ==> f(s[i]) == c
    ensures Total(s, f) == c * |s|
  {
    if s != [] {
      TotalConstant(s[1..], f, c);
    }
  }

  lemma {:induction false} TotalAtMostLength<T(!new)>(s: seq<T>, f: T -> nat)
    requires forall x :: f(x) <= 1
    ensures Total(s, f) <= |s|
  {
    if s != [] {
      TotalAtMostLength(s[1..], f);
    }
  }
}
