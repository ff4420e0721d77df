// The shared haircut queue: a NUL-terminated C string kept in a fixed buffer.
// Source: lab7/zad1/v1/queue.c
module StringQueue {

  type CChar = x: int | -128 <= x < 128

  // ---------------------------------------------------------------- bytes

  // C's strlen: the position of the first NUL.
  function StrLen(s: seq<CChar>): (n: nat)
    requires 0 in s
    ensures n < |s| && s[n] == 0 && forall i :: 0 <= i < n ==> s[i] != 0
  {
    if s[0] == 0 then 0 else 1 + StrLen(s[1..])
  }

  // What the buffer stores: the bytes before the first NUL.
  function Text(s: seq<CChar>): seq<CChar>
    requires 0 in s
  {
    s[..StrLen(s)]
  }

  predicate Full(s: seq<CChar>)
    requires 0 in s
  {
    StrLen(s) + 1 == |s|
  }

  // queue_pop copies strlen + 1 bytes starting at index 1; the last one read is at
  // index strlen + 1, which lies in the buffer unless the buffer is full.
  predicate PopInBounds(s: seq<CChar>)
    requires 0 in s
  {
    StrLen(s) == 0 || StrLen(s) + 1 < |s|
  }

  function PopByte(s: seq<CChar>): CChar
    requires 0 in s
  {
    if StrLen(s) == 0 then 0 else s[0]
  }

  // The buffer after queue_pop: everything up to one byte past the NUL slides down; stray is
  // the byte that memory holds behind the buffer.
  function Popped(s: seq<CChar>, stray: CChar): seq<CChar>
    requires 0 in s
  {
    var n := StrLen(s);
    if n == 0 then s else (s + [stray])[1..n + 2] + s[n + 1..]
  }

  function Pushed(s: seq<CChar>, b: CChar): seq<CChar>
    requires 0 in s
  {
    var n := StrLen(s);
    if Full(s) then s else s[n := b][n + 1 := 0]
  }

  lemma StrLenUnique(s: seq<CChar>, n: nat)
    requires n < |s| && s[n] == 0 && forall i :: 0 <= i < n ==> s[i] != 0
    ensures 0 in s && StrLen(s) == n
  {
    assert s[n] in s;
    var m := StrLen(s);
    assert !(m < n) && !(n < m);
  }

  // Popping removes the head of the text and keeps the buffer terminated: even a stray byte
  // from behind the buffer only lands behind the new NUL.
  lemma PopText(s: seq<CChar>, stray: CChar)
    requires 0 in s
    ensures |Popped(s, stray)| == |s| && 0 in Popped(s, stray)
    ensures Text(s) == [] ==> PopByte(s) == 0 && Text(Popped(s, stray)) == []
    ensures Text(s) != [] ==> [PopByte(s)] + Text(Popped(s, stray)) == Text(s) && PopByte(s) != 0
  {
    var n := StrLen(s);
    if n > 0 {
      var t := Popped(s, stray);
      forall i | 0 <= i < n
        ensures t[i] == s[i + 1]
      {
        assert (s + [stray])[1..n + 2][i] == (s + [stray])[i + 1];
      }
      StrLenUnique(t, n - 1);
      assert [s[0]] + t[..n - 1] == s[..n];
    }
  }

  // Pushing appends, except that a NUL byte is not stored and a full buffer refuses.
  lemma PushText(s: seq<CChar>, b: CChar)
    requires 0 in s
    ensures |Pushed(s, b)| == |s| && 0 in Pushed(s, b)
    ensures Text(Pushed(s, b)) == if Full(s) || b == 0 then Text(s) else Text(s) + [b]
  {
    var n := StrLen(s);
    if !Full(s) {
      var t := Pushed(s, b);
      if b == 0 {
        StrLenUnique(t, n);
        assert t[..n] == s[..n];
      } else {
        StrLenUnique(t, n + 1);
        assert t[..n + 1] == s[..n] + [b];
      }
    }
  }

  // ---------------------------------------------------------------- arrays

  method StrLenOf(buf: array<CChar>) returns (n: nat)
    requires 0 in buf[..]
    ensures n == StrLen(buf[..])
  {
    n := 0;
    while buf[n] != 0
      invariant n < buf.Length
      invariant forall i :: 0 <= i < n ==> buf[i] != 0
      decreases buf.Length - n
    {
      if n + 1 == buf.Length {
        assert forall i :: 0 <= i < buf.Length ==> buf[i] != 0;
        assert false;
      }
      n := n + 1;
    }
    StrLenUnique(buf[..], n);
  }

  method QueueFull(buf: array<CChar>) returns (full: bool)
    requires 0 in buf[..]
    ensures full <==> |Text(buf[..])| == buf.Length - 1
  {
    var n := StrLenOf(buf);
    full := n + 1 == buf.Length;
  }

  method QueueEmpty(buf: array<CChar>) returns (empty: bool)
    requires 0 in buf[..]
    ensures empty <==> Text(buf[..]) == []
  {
    var n := StrLenOf(buf);
    empty := n == 0;
  }

  method QueuePush(buf: array<CChar>, b: CChar)
    requires 0 in buf[..]
    modifies buf
    ensures buf[..] == Pushed(old(buf[..]), b) && 0 in buf[..]
    ensures Text(buf[..]) == if |old(Text(buf[..]))| == buf.Length - 1 || b == 0 then old(Text(buf[..]))
                             else old(Text(buf[..])) + [b]
  {
    PushText(buf[..], b);
    var full := QueueFull(buf);
    if full {
      return;
    }
    var size := StrLenOf(buf);
    buf[size] := b;
    buf[size + 1] := 0;
  }

  // The copy of n bytes from index 1 to index 0, lowest index first; the last one read may be
  // the byte behind the buffer.
  method CopyDown(buf: array<CChar>, n: nat, stray: CChar)
    requires n <= buf.Length
    modifies buf
    ensures buf[..] == (old(buf[..]) + [stray])[1..n + 1] + old(buf[..])[n..]
  {
    ghost var was := buf[..] + [stray];
    var k := 0;
    while k < n
      invariant k <= n
      invariant forall i :: 0 <= i < k ==> buf[i] == was[i + 1]
      invariant forall i :: k <= i < buf.Length ==> buf[i] == was[i]
    {
      buf[k] := if k + 1 < buf.Length then buf[k + 1] else stray;
      k := k + 1;
    }
  }

  method QueuePop(buf: array<CChar>, stray: CChar) returns (b: CChar)
    requires 0 in buf[..]
    modifies buf
    ensures b == PopByte(old(buf[..])) && buf[..] == Popped(old(buf[..]), stray) && 0 in buf[..]
    ensures old(Text(buf[..])) == if b == 0 then [] else [b] + Text(buf[..])
    ensures b == 0 ==> buf[..] == old(buf[..])
  {
    PopText(buf[..], stray);
    var empty := QueueEmpty(buf);
    if empty {
      return 0;
    }
    b := buf[0];
    var n := StrLenOf(buf);
    CopyDown(buf, n + 1, stray);
  }

  // ---------------------------------------------------------------- FIFO refinement

  datatype Op = Push(byte: CChar) | Pop(stray: CChar)

  // A FIFO of bounded capacity that drops NUL bytes and reports 0 when empty.
  function FifoNext(cap: nat, q: seq<CChar>, op: Op): (seq<CChar>, seq<CChar>) {
    match op
    case Push(b) => (if |q| == cap || b == 0 then q else q + [b], [])
    case Pop(_) => if q == [] then (q, [0]) else (q[1..], [q[0]])
  }

  // Contents after a script, and everything the script's pops returned.
  function FifoContents(cap: nat, q: seq<CChar>, ops: seq<Op>): seq<CChar>
    decreases |ops|
  {
    if ops == [] then q else FifoContents(cap, FifoNext(cap, q, ops[0]).0, ops[1..])
  }

  function FifoOutputs(cap: nat, q: seq<CChar>, ops: seq<Op>): seq<CChar>
    decreases |ops|
  {
    if ops == [] then [] else FifoNext(cap, q, ops[0]).1 + FifoOutputs(cap, FifoNext(cap, q, ops[0]).0, ops[1..])
  }

  // One operation on the byte buffer is one operation on the FIFO.
  method Perform(buf: array<CChar>, op: Op) returns (out: seq<CChar>)
    requires 0 in buf[..]
    modifies buf
    ensures 0 in buf[..]
    ensures (Text(buf[..]), out) == FifoNext(buf.Length - 1, old(Text(buf[..])), op)
  {
    match op {
      case Push(b) =>
        QueuePush(buf, b);
        out := [];
      case Pop(stray) =>
        PopText(buf[..], stray);
        var b := QueuePop(buf, stray);
        out := [b];
    }
  }

  // Any mixed script of pushes and pops on the byte buffer behaves as the bounded FIFO.
  method RunScript(buf: array<CChar>, ops: seq<Op>) returns (outs: seq<CChar>)
    requires 0 in buf[..]
    modifies buf
    ensures 0 in buf[..]
    ensures Text(buf[..]) == FifoContents(buf.Length - 1, old(Text(buf[..])), ops)
    ensures outs == FifoOutputs(buf.Length - 1, old(Text(buf[..])), ops)
    decreases |ops|
  {
    if ops == [] {
      return [];
    }
    var first := Perform(buf, ops[0]);
    var rest := RunScript(buf, ops[1..]);
    outs := first + rest;
  }
}
