/** Byte strings and their division into lines. */
module Bytes {
  type Byte = b: int | 0 <= b < 256

  const NEWLINE: Byte := 10
  const CARRIAGE_RETURN: Byte := 13

  /** The length of the first line with its newline, or of everything when there is no newline. */
  function LineLength(s: seq<int>): (n: nat)
    ensures n <= |s| && (s != [] ==> n > 0)
    ensures forall i | 0 <= i < n - 1 :: s[i] != NEWLINE
    ensures n < |s| || NEWLINE in s ==> n > 0 && s[n - 1] == NEWLINE
  {
    if s == [] then 0
    else if s[0] == NEWLINE then 1
    else 1 + LineLength(s[1..])
  }

  lemma LineLengthIs(line: seq<int>, rest: seq<int>)
    requires NEWLINE !in line
    ensures LineLength(line + [NEWLINE] + rest) == |line| + 1
  {
    var s := line + [NEWLINE] + rest;
    assert s[|line|] == NEWLINE;
    assert forall i | 0 <= i < |line| :: s[i] == line[i];
  }

  function Lines(s: seq<Byte>): seq<seq<Byte>>
    decreases |s|
  {
    if s == [] then [] else [s[..LineLength(s)]] + Lines(s[LineLength(s)..])
  }

  function Concat(parts: seq<seq<Byte>>): seq<Byte> {
    if parts == [] then [] else parts[0] + Concat(parts[1..])
  }

  lemma {:induction false} LinesPartition(s: seq<Byte>)
    ensures Concat(Lines(s)) == s
    decreases |s|
  {
    if s != [] {
      LinesPartition(s[LineLength(s)..]);
    }
  }

  lemma {:induction false} ConcatAppend(a: seq<seq<Byte>>, b: seq<seq<Byte>>)
    ensures Concat(a + b) == Concat(a) + Concat(b)
  {
    if a == [] {
      assert a + b == b;
    } else {
      assert (a + b)[1..] == a[1..] + b;
      ConcatAppend(a[1..], b);
    }
  }
}
