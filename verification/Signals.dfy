// A signal handler that raises its own signal, with and without SA_NODEFER.
// Source: lab4/zad2/zadanie2.c; blocking and pending signals follow section 2.4 of
// POSIX.1-2017 System Interfaces.
module Signals {

  // A line that the handler prints: its call id and the depth it sees.
  datatype Line = Start(id: nat, depth: int) | End(id: nat, depth: int)

  // START 0..n-1 at depths 0..n-1, each followed by the nested rest, then END n-1..0.
  function NestedTrace(id: nat, depth: nat, n: nat): seq<Line>
    decreases n
  {
    if n == 0 then [] else Wrap(id, depth, NestedTrace(id + 1, depth + 1, n - 1))
  }

  function Wrap(id: nat, depth: nat, inner: seq<Line>): seq<Line> {
    [Start(id, depth)] + inner + [End(id, depth)]
  }

  // One run of the handler when n calls are left: the nested signals run inside it, the
  // deferred one after it.
  function Handled(nodefer: bool, id: nat, depth: nat, n: nat): seq<Line>
    requires n > 0
  {
    Wrap(id, depth, if nodefer then NestedTrace(id + 1, depth + 1, n - 1) else [])
  }

  lemma WrapAt(id: nat, depth: nat, inner: seq<Line>, k: nat)
    requires k < |inner|
    ensures |Wrap(id, depth, inner)| == |inner| + 2 && Wrap(id, depth, inner)[k + 1] == inner[k]
  {
  }

  lemma WrapAppended(before: seq<Line>, id: nat, depth: nat, inner: seq<Line>)
    ensures before + [Start(id, depth)] + inner + [End(id, depth)] == before + Wrap(id, depth, inner)
  {
  }

  // START k, END k at depth 0, one call after the other.
  function FlatTrace(id: nat, n: nat): seq<Line>
    decreases n
  {
    if n == 0 then [] else [Start(id, 0), End(id, 0)] + FlatTrace(id + 1, n - 1)
  }

  lemma FlatAppended(before: seq<Line>, id: nat, n: nat)
    requires n > 0
    ensures before + Handled(false, id, 0, n) == before + [Start(id, 0), End(id, 0)]
    ensures before + Handled(false, id, 0, n) + FlatTrace(id + 1, n - 1) == before + FlatTrace(id, n)
  {
  }

  lemma NestedAppended(before: seq<Line>, id: nat, depth: nat, n: nat)
    requires n > 0
    ensures before + Handled(true, id, depth, n) == before + NestedTrace(id, depth, n)
  {
  }

  // In the nested trace START id + k is line k and its END stands k lines before the last.
  lemma {:induction false} NestedLines(id: nat, depth: nat, n: nat, k: nat)
    requires k < n
    ensures |NestedTrace(id, depth, n)| == 2 * n
    ensures NestedTrace(id, depth, n)[k] == Start(id + k, depth + k)
    ensures NestedTrace(id, depth, n)[2 * n - 1 - k] == End(id + k, depth + k)
    decreases n
  {
    var inner := NestedTrace(id + 1, depth + 1, n - 1);
    if n > 1 {
      NestedLines(id + 1, depth + 1, n - 1, if k > 0 then k - 1 else 0);
      if k > 0 {
        WrapAt(id, depth, inner, k - 1);
        WrapAt(id, depth, inner, 2 * (n - 1) - 1 - (k - 1));
      }
    }
  }

  // In the flat trace START id + k and END id + k follow each other at depth 0.
  lemma {:induction false} FlatLines(id: nat, n: nat, k: nat)
    requires k < n
    ensures |FlatTrace(id, n)| == 2 * n
    ensures FlatTrace(id, n)[2 * k] == Start(id + k, 0) && FlatTrace(id, n)[2 * k + 1] == End(id + k, 0)
    decreases n
  {
    if n > 1 {
      FlatLines(id + 1, n - 1, if k > 0 then k - 1 else 0);
    }
  }

  // Calls made when MAX_CALLS is maxCalls: the handler tests after it has counted itself.
  function Calls(maxCalls: int): nat { if maxCalls <= 1 then 1 else maxCalls }

  // The depth of a trace: handlers entered and not left.
  function Nesting(lines: seq<Line>): int {
    if lines == [] then 0 else Nesting(lines[..|lines| - 1]) + if lines[|lines| - 1].Start? then 1 else -1
  }

  // Line k shows the number of handlers that are really active around it.
  ghost predicate ShowsDepth(lines: seq<Line>, k: nat)
    requires k < |lines|
  {
    lines[k].depth == Nesting(if lines[k].Start? then lines[..k] else lines[..k + 1])
  }

  // Every line does, told from the last line on.
  predicate DepthsAreTrue(lines: seq<Line>) {
    lines == [] || (
      var before, last := lines[..|lines| - 1], lines[|lines| - 1];
      DepthsAreTrue(before) && last.depth == Nesting(if last.Start? then before else lines))
  }

  lemma {:induction false} DepthsAreTrueAt(lines: seq<Line>, k: nat)
    requires DepthsAreTrue(lines) && k < |lines|
    ensures ShowsDepth(lines, k)
    decreases |lines|
  {
    var before := lines[..|lines| - 1];
    if k < |before| {
      DepthsAreTrueAt(before, k);
      assert before[..k] == lines[..k] && before[..k + 1] == lines[..k + 1];
    } else {
      assert lines[..k + 1] == lines;
    }
  }

  lemma AllDepthsAreTrue(lines: seq<Line>)
    requires DepthsAreTrue(lines)
    ensures forall k :: 0 <= k < |lines| ==> ShowsDepth(lines, k)
  {
    forall k | 0 <= k < |lines|
      ensures ShowsDepth(lines, k)
    {
      DepthsAreTrueAt(lines, k);
    }
  }

  lemma Printed(before: seq<Line>, line: Line)
    ensures Nesting(before + [line]) == Nesting(before) + if line.Start? then 1 else -1
    ensures DepthsAreTrue(before + [line]) <==>
            DepthsAreTrue(before) && line.depth == Nesting(if line.Start? then before else before + [line])
  {
    assert (before + [line])[..|before|] == before;
  }

  // The nested trace shows the true depths and leaves as many handlers as it found.
  lemma {:induction false} NestedDepths(before: seq<Line>, id: nat, depth: nat, n: nat)
    requires DepthsAreTrue(before) && Nesting(before) == depth
    ensures DepthsAreTrue(before + NestedTrace(id, depth, n)) && Nesting(before + NestedTrace(id, depth, n)) == depth
    decreases n
  {
    if n == 0 {
      assert before + [] == before;
    } else {
      var inner := NestedTrace(id + 1, depth + 1, n - 1);
      Printed(before, Start(id, depth));
      NestedDepths(before + [Start(id, depth)], id + 1, depth + 1, n - 1);
      Printed(before + [Start(id, depth)] + inner, End(id, depth));
      WrapAppended(before, id, depth, inner);
    }
  }

  lemma FlatPair(before: seq<Line>, id: nat)
    requires DepthsAreTrue(before) && Nesting(before) == 0
    ensures var after := before + [Start(id, 0), End(id, 0)]; DepthsAreTrue(after) && Nesting(after) == 0
  {
    var begun := before + [Start(id, 0)];
    Printed(before, Start(id, 0));
    Printed(begun, End(id, 0));
    assert begun + [End(id, 0)] == before + [Start(id, 0), End(id, 0)];
  }

  // So does the flat one.
  lemma {:induction false} FlatDepths(before: seq<Line>, id: nat, n: nat)
    requires DepthsAreTrue(before) && Nesting(before) == 0
    ensures DepthsAreTrue(before + FlatTrace(id, n)) && Nesting(before + FlatTrace(id, n)) == 0
    decreases n
  {
    if n == 0 {
      assert before + [] == before;
    } else {
      FlatPair(before, id);
      FlatDepths(before + [Start(id, 0), End(id, 0)], id + 1, n - 1);
      FlatAppended(before, id, n);
    }
  }

  class Process {
    const maxCalls: int
    const nodefer: bool
    var callId: nat
    var callDepth: int
    var blocked: bool
    var pending: bool
    var lines: seq<Line>

    // set_nodefer or set_restart: the counters are reset.
    constructor (maxCalls: int, nodefer: bool)
      ensures this.maxCalls == maxCalls && this.nodefer == nodefer
      ensures callId == 0 && callDepth == 0 && !blocked && !pending && lines == []
    {
      this.maxCalls, this.nodefer := maxCalls, nodefer;
      callId, callDepth, blocked, pending, lines := 0, 0, false, false, [];
    }

    // Handlers still to come when callId of them have started.
    function Left(): nat
      reads this`callId
    {
      Calls(maxCalls) - if callId < Calls(maxCalls) then callId else Calls(maxCalls)
    }

    // depth_handler
    method DepthHandler()
      requires callId < Calls(maxCalls) && blocked == !nodefer && !pending && callDepth >= 0
      modifies this
      ensures blocked == !nodefer && callDepth == old(callDepth)
      ensures nodefer ==> !pending && callId == Calls(maxCalls)
      ensures !nodefer ==> pending == (callId < Calls(maxCalls)) && callId == old(callId) + 1
      ensures lines == old(lines) + Handled(nodefer, old(callId), old(callDepth), Calls(maxCalls) - old(callId))
      decreases Left(), 0
    {
      var currentId := callId;
      ghost var before, rest := lines, Calls(maxCalls) - callId - 1;
      lines := lines + [Start(currentId, callDepth)];
      callId := callId + 1;
      callDepth := callDepth + 1;
      ghost var inner := if nodefer then NestedTrace(callId, callDepth, rest) else [];
      if callId < maxCalls {
        Raise();
      }
      assert lines == before + [Start(currentId, callDepth - 1)] + inner;
      callDepth := callDepth - 1;
      lines := lines + [End(currentId, callDepth)];
      WrapAppended(before, currentId, callDepth, inner);
    }

    // raise(SIGUSR1): a blocked signal stays pending; otherwise the handler runs at once, with
    // the signal blocked unless SA_NODEFER is set, and again while the signal is pending.
    method Raise()
      requires callId < Calls(maxCalls) && !pending && callDepth >= 0
      requires nodefer ==> !blocked
      requires blocked ==> callId > 0
      modifies this
      ensures blocked == old(blocked) && callDepth == old(callDepth)
      ensures old(blocked) ==> pending && callId == old(callId) && lines == old(lines)
      ensures nodefer ==> !pending && callId == Calls(maxCalls)
      ensures nodefer ==> lines == old(lines) + NestedTrace(old(callId), old(callDepth), Calls(maxCalls) - old(callId))
      ensures !nodefer && !old(blocked) && callDepth == 0 ==> !pending && callId == Calls(maxCalls)
      ensures !nodefer && !old(blocked) && callDepth == 0 ==>
                lines == old(lines) + FlatTrace(old(callId), Calls(maxCalls) - old(callId))
      decreases Left(), 1
    {
      if blocked {
        pending := true;
        return;
      }
      ghost var before, id, n := lines, callId, Calls(maxCalls) - callId;
      blocked := !nodefer;
      DepthHandler();
      blocked := false;
      if nodefer {
        NestedAppended(before, id, callDepth, n);
      } else {
        FlatAppended(before, id, n);
      }
      if pending {
        pending := false;
        Raise();
      }
    }
  }

  // What a run of n handlers prints when each one runs inside the one before ...
  ghost predicate PrintsNested(lines: seq<Line>, n: nat) {
    |lines| == 2 * n && forall k :: 0 <= k < 2 * n ==>
      lines[k] == if k < n then Start(k, k) else End(2 * n - 1 - k, 2 * n - 1 - k)
  }

  // ... and when each one runs after the one before.
  ghost predicate PrintsFlat(lines: seq<Line>, n: nat) {
    |lines| == 2 * n && forall k :: 0 <= k < 2 * n ==>
      lines[k] == if k % 2 == 0 then Start(k / 2, 0) else End(k / 2, 0)
  }

  lemma NestedPrints(n: nat)
    ensures PrintsNested(NestedTrace(0, 0, n), n)
  {
    if n > 0 {
      NestedLines(0, 0, n, 0);
    }
    forall k | 0 <= k < 2 * n
      ensures NestedTrace(0, 0, n)[k] == if k < n then Start(k, k) else End(2 * n - 1 - k, 2 * n - 1 - k)
    {
      NestedLines(0, 0, n, if k < n then k else 2 * n - 1 - k);
    }
  }

  lemma FlatPrints(n: nat)
    ensures PrintsFlat(FlatTrace(0, n), n)
  {
    if n > 0 {
      FlatLines(0, n, 0);
    }
    forall k | 0 <= k < 2 * n
      ensures FlatTrace(0, n)[k] == if k % 2 == 0 then Start(k / 2, 0) else End(k / 2, 0)
    {
      FlatLines(0, n, k / 2);
    }
  }

  ghost function Trace(maxCalls: int, nodefer: bool): seq<Line> {
    if nodefer then NestedTrace(0, 0, Calls(maxCalls)) else FlatTrace(0, Calls(maxCalls))
  }

  // One raise prints a pair of lines for every call ...
  lemma TracePrints(maxCalls: int, nodefer: bool, lines: seq<Line>)
    requires lines == Trace(maxCalls, nodefer)
    ensures maxCalls >= 1 ==> if nodefer then PrintsNested(lines, maxCalls) else PrintsFlat(lines, maxCalls)
    ensures maxCalls < 1 ==> lines == [Start(0, 0), End(0, 0)]
  {
    if maxCalls < 1 {
      assert NestedTrace(1, 1, 0) == [] && FlatTrace(1, 0) == [];
    } else if nodefer {
      NestedPrints(maxCalls);
    } else {
      FlatPrints(maxCalls);
    }
  }

  // ... and every line tells the truth.
  lemma TraceIsTrue(maxCalls: int, nodefer: bool, lines: seq<Line>)
    requires lines == Trace(maxCalls, nodefer)
    ensures Nesting(lines) == 0
    ensures forall k :: 0 <= k < |lines| ==> ShowsDepth(lines, k)
  {
    if nodefer {
      NestedDepths([], 0, 0, Calls(maxCalls));
    } else {
      FlatDepths([], 0, Calls(maxCalls));
    }
    assert [] + lines == lines;
    AllDepthsAreTrue(lines);
  }

  method RaiseOnce(maxCalls: int, nodefer: bool) returns (lines: seq<Line>, depth: int)
    ensures depth == 0 && lines == Trace(maxCalls, nodefer)
  {
    var p := new Process(maxCalls, nodefer);
    p.Raise();
    lines, depth := p.lines, p.callDepth;
  }

  // main: one raise prints the whole trace of its flag and leaves the depth at 0.
  method RunScenario(maxCalls: int, nodefer: bool) returns (lines: seq<Line>, depth: int)
    ensures depth == 0
    ensures lines == Trace(maxCalls, nodefer)
    ensures maxCalls >= 1 ==> if nodefer then PrintsNested(lines, maxCalls) else PrintsFlat(lines, maxCalls)
    ensures maxCalls < 1 ==> lines == [Start(0, 0), End(0, 0)]
    ensures Nesting(lines) == 0
    ensures forall k :: 0 <= k < |lines| ==> ShowsDepth(lines, k)
  {
    lines, depth := RaiseOnce(maxCalls, nodefer);
    TracePrints(maxCalls, nodefer, lines);
    TraceIsTrue(maxCalls, nodefer, lines);
  }
}
