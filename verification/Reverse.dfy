// Reversing a file by stepping its cursor backwards.
// Source: lab2/zad2/reverse.c
module Reverse {

  type Byte = x: int | 0 <= x < 256

  // A stdio stream on a file that is read.
  class InputFile {
    const data: seq<Byte>
    var pos: nat

    constructor (data: seq<Byte>)
      ensures this.data == data && pos == 0
    {
      this.data, pos := data, 0;
    }

    // fseek relative to the end or to the cursor: a target before the start fails and leaves
    // the cursor alone.
    method SeekEnd(offset: int)
      modifies this
      ensures pos == if |data| + offset >= 0 then |data| + offset else old(pos)
    {
      if |data| + offset >= 0 {
        pos := |data| + offset;
      }
    }

    method SeekCur(offset: int)
      modifies this
      ensures pos == if old(pos) + offset >= 0 then old(pos) + offset else old(pos)
    {
      if pos + offset >= 0 {
        pos := pos + offset;
      }
    }

    // fread of one byte: at the end of the file c keeps its value.
    method ReadByte(c: Byte) returns (c': Byte)
      modifies this
      ensures c' == if old(pos) < |data| then data[old(pos)] else c
      ensures pos == if old(pos) < |data| then old(pos) + 1 else old(pos)
    {
      c' := c;
      if pos < |data| {
        c' := data[pos];
        pos := pos + 1;
      }
    }
  }

  function Reversed(s: seq<Byte>): (r: seq<Byte>)
    ensures |r| == |s| && forall k :: 0 <= k < |r| ==> r[k] == s[|s| - 1 - k]
  {
    seq(|s|, k requires 0 <= k < |s| => s[|s| - 1 - k])
  }

  // What one run appends; junk is the byte that the uninitialised variable c holds.
  function Appended(input: seq<Byte>, junk: Byte): seq<Byte> {
    if input == [] then [junk] else Reversed(input)
  }

  // reverse: the output file is opened for appending.
  method ReverseFile(input: seq<Byte>, before: seq<Byte>, junk: Byte) returns (output: seq<Byte>)
    ensures output == before + Appended(input, junk)
  {
    output := before;
    var file := new InputFile(input);
    var c := junk;
    file.SeekEnd(-1);
    ghost var n := |input|;
    while file.pos != 0
      invariant file.data == input && (n > 0 ==> file.pos < n) && (n == 0 ==> file.pos == 0)
      invariant n > 0 ==> output == before + Reversed(input[file.pos + 1..])
      invariant n == 0 ==> output == before && c == junk
      decreases file.pos
    {
      ghost var p := file.pos;
      c := file.ReadByte(c);
      output := output + [c];
      file.SeekCur(-2);
      assert Reversed(input[p..]) == Reversed(input[p + 1..]) + [input[p]];
    }
    c := file.ReadByte(c);
    output := output + [c];
    assert n > 0 ==> Reversed(input) == Reversed(input[1..]) + [input[0]];
  }

  // Reversing through fresh outputs twice gives the file back exactly when it is not empty.
  lemma RoundTripExactly(input: seq<Byte>, junk: Byte, junk': Byte)
    ensures Appended(Appended(input, junk), junk') == input <==> input != []
  {
    if input != [] {
      assert Reversed(Reversed(input)) == input;
    }
  }
}
