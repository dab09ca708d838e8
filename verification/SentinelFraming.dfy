/**
 * Handing code to the sandbox: the harness writes it between two sentinel lines, and the runner
 * reads lines of its standard input, which end at newlines alone, up to the second one.
 */
module SentinelFraming {
  import opened Bytes
  import opened Sequences
  import opened Utf8
  import opened Wrappers

  /** Decoded text; only its encoded size depends on the characters being scalar values. */
  type Chars = seq<int>

  const MAX_CODE_SIZE: nat := 1024 * 1024
  /** `__HARNESS_END_` */
  const RESERVED: Chars := [95, 95, 72, 65, 82, 78, 69, 83, 83, 95, 69, 78, 68, 95]
  const UNDERSCORE: int := 95

  datatype CodeError = EmptyCode | CodeTooLarge | ReservedPattern

  // ----- The harness's side -----

  ghost predicate Contains(text: Chars, pattern: Chars) {
    exists i: nat :: i <= |text| && pattern <= text[i..]
  }

  function Terminated(code: Chars): Chars {
    if code != [] && code[|code| - 1] == NEWLINE then code else code + [NEWLINE]
  }

  function Sentinel(uuid: Chars): Chars {
    RESERVED + uuid + [UNDERSCORE, UNDERSCORE]
  }

  /** A UUID is spelled with hexadecimal digits and hyphens. */
  predicate IsUuid(uuid: Chars) {
    forall c | c in uuid :: 48 <= c <= 57 || 97 <= c <= 102 || c == 45
  }

  function Framed(code: Chars, sentinel: Chars): Chars {
    sentinel + [NEWLINE] + (Terminated(code) + (sentinel + [NEWLINE]))
  }

  ghost predicate Acceptable(code: Text) {
    code != [] && |Encode(code)| <= MAX_CODE_SIZE && !Contains(code, RESERVED)
  }

  method SubmitCode(code: Text, uuid: Chars) returns (r: Result<Chars, CodeError>)
    ensures r.Success? <==> Acceptable(code)
    ensures r.Success? ==> r.value == Framed(code, Sentinel(uuid))
    ensures r == Failure(EmptyCode) <==> code == []
    ensures r == Failure(ReservedPattern) ==> |Encode(code)| <= MAX_CODE_SIZE
  {
    if code == [] {
      return Failure(EmptyCode);
    }
    if |Encode(code)| > MAX_CODE_SIZE {
      return Failure(CodeTooLarge);
    }
    var reserved := FindPattern(code, RESERVED);
    if reserved {
      return Failure(ReservedPattern);
    }
    var sentinel := Sentinel(uuid);
    var body: Chars := code;
    if code[|code| - 1] != NEWLINE {
      body := body + [NEWLINE];
    }
    r := Success(sentinel + [NEWLINE] + (body + (sentinel + [NEWLINE])));
  }

  method FindPattern(text: Chars, pattern: Chars) returns (found: bool)
    ensures found <==> Contains(text, pattern)
  {
    for i := 0 to |text| + 1
      invariant forall k: nat | k < i :: !(pattern <= text[k..])
    {
      if pattern <= text[i..] {
        return true;
      }
    }
    found := false;
  }

  // ----- The runner's side -----

  predicate Whitespace(c: int) {
    || 9 <= c <= 13 || 28 <= c <= 32 || c in {0x85, 0xA0, 0x1680, 0x2028, 0x2029, 0x202F, 0x205F, 0x3000}
    || 0x2000 <= c <= 0x200A
  }

  function StripLeft(text: Chars): (r: Chars)
    ensures |r| <= |text| && r == text[|text| - |r|..]
  {
    if text != [] && Whitespace(text[0]) then StripLeft(text[1..]) else text
  }

  function StripRight(text: Chars): (r: Chars)
    ensures r <= text
  {
    if text != [] && Whitespace(text[|text| - 1]) then StripRight(text[..|text| - 1]) else text
  }

  function Strip(text: Chars): Chars {
    StripRight(StripLeft(text))
  }

  predicate Blank(text: Chars) {
    forall c | c in text :: Whitespace(c)
  }

  lemma {:induction false} LeftStripped(text: Chars)
    ensures Blank(text[..|text| - |StripLeft(text)|])
    ensures StripLeft(text) != [] ==> !Whitespace(StripLeft(text)[0])
  {
    if text != [] && Whitespace(text[0]) {
      LeftStripped(text[1..]);
      var n := |text| - |StripLeft(text)|;
      assert text[..n] == [text[0]] + text[1..][..n - 1];
    }
  }

  lemma {:induction false} RightStripped(text: Chars)
    ensures Blank(text[|StripRight(text)|..])
    ensures StripRight(text) != [] ==> !Whitespace(StripRight(text)[|StripRight(text)| - 1])
  {
    if text != [] && Whitespace(text[|text| - 1]) {
      var front := text[..|text| - 1];
      RightStripped(front);
      assert text[|StripRight(text)|..] == front[|StripRight(text)|..] + [text[|text| - 1]];
    }
  }

  /** Stripping takes exactly the whitespace at both ends of a line. */
  lemma StripsBothEnds(text: Chars) returns (left: Chars, right: Chars)
    ensures text == left + (Strip(text) + right) && Blank(left) && Blank(right)
    ensures Strip(text) != [] ==> !Whitespace(Strip(text)[0]) && !Whitespace(Strip(text)[|Strip(text)| - 1])
  {
    var tail := StripLeft(text);
    left, right := text[..|text| - |tail|], tail[|StripRight(tail)|..];
    LeftStripped(text);
    RightStripped(tail);
    assert tail == StripRight(tail) + right;
    assert text == left + tail;
  }

  /** The program taken in, and the input left unread. */
  datatype Intake = Intake(code: Chars, rest: Chars)

  /** The lines before one that strips to the sentinel, joined, and what follows that line. */
  function Collect(input: Chars, sentinel: Chars): Intake
    decreases |input|
  {
    if input == [] then Intake([], [])
    else
      var n := LineLength(input);
      if Strip(input[..n]) == sentinel then Intake([], input[n..])
      else
        var more := Collect(input[n..], sentinel);
        more.(code := input[..n] + more.code)
  }

  /** The runner's standard input, whose carriage returns are characters like any other. */
  class TextInput {
    var rest: Chars

    constructor (text: Chars)
      ensures rest == text
    {
      rest := text;
    }

    method ReadLine() returns (line: Chars)
      modifies this
      ensures line == old(rest)[..LineLength(old(rest))] && rest == old(rest)[LineLength(old(rest))..]
    {
      var n := LineLength(rest);
      line, rest := rest[..n], rest[n..];
    }
  }

  method ReceiveCode(stdin: TextInput) returns (code: Chars)
    modifies stdin
    ensures var n := LineLength(old(stdin.rest));
            Intake(code, stdin.rest) == Collect(old(stdin.rest)[n..], Strip(old(stdin.rest)[..n]))
  {
    var line := stdin.ReadLine();
    var sentinel := Strip(line);
    ghost var all := Collect(stdin.rest, sentinel);
    code := [];
    assert [] + all.code == all.code;
    while true
      invariant all == Intake(code + Collect(stdin.rest, sentinel).code, Collect(stdin.rest, sentinel).rest)
      decreases |stdin.rest|
    {
      ghost var more := Collect(stdin.rest, sentinel);
      line := stdin.ReadLine();
      if line == [] || Strip(line) == sentinel {
        assert more == Intake([], stdin.rest) && code + [] == code;
        break;
      }
      Assoc(code, line, Collect(stdin.rest, sentinel).code);
      code := code + line;
    }
  }

  // ----- Lines and the sentinel -----

  predicate OneLine(pattern: Chars) {
    pattern != [] && NEWLINE !in pattern
  }

  lemma ContainsLater(text: Chars, pattern: Chars, n: nat)
    requires n <= |text| && Contains(text[n..], pattern)
    ensures Contains(text, pattern)
  {
    var i: nat :| i <= |text[n..]| && pattern <= text[n..][i..];
    assert text[n..][i..] == text[n + i..];
  }

  /** Some line strips to the sentinel. */
  predicate HasSentinelLine(input: Chars, sentinel: Chars)
    decreases |input|
  {
    if input == [] then false
    else
      var n := LineLength(input);
      Strip(input[..n]) == sentinel || HasSentinelLine(input[n..], sentinel)
  }

  lemma {:induction false} SentinelLineContains(input: Chars, sentinel: Chars)
    requires HasSentinelLine(input, sentinel)
    ensures Contains(input, sentinel)
    decreases |input|
  {
    var n := LineLength(input);
    var line := input[..n];
    if Strip(line) == sentinel {
      var k := |line| - |StripLeft(line)|;
      assert sentinel <= line[k..] <= input[k..];
    } else {
      SentinelLineContains(input[n..], sentinel);
      ContainsLater(input, sentinel, n);
    }
  }

  /** One line of text with no space at either end. */
  predicate IsSentinel(s: Chars) {
    OneLine(s) && !Whitespace(s[0]) && !Whitespace(s[|s| - 1])
  }

  lemma SentinelStrips(s: Chars)
    requires IsSentinel(s)
    ensures Strip(s + [NEWLINE]) == s
  {
    assert (s + [NEWLINE])[..|s|] == s;
    assert StripRight(s) == s;
  }

  lemma CollectStops(sentinel: Chars, later: Chars)
    requires IsSentinel(sentinel)
    ensures Collect(sentinel + [NEWLINE] + later, sentinel) == Intake([], later)
  {
    var tail := sentinel + [NEWLINE] + later;
    LineLengthIs(sentinel, later);
    SentinelStrips(sentinel);
    assert tail[..|sentinel| + 1] == sentinel + [NEWLINE] && tail[|sentinel| + 1..] == later;
  }

  lemma {:induction false} CollectLine(line: Chars, rest: Chars, sentinel: Chars)
    requires IsLine(line)
    ensures var more := Collect(rest, sentinel);
            Collect(line + rest, sentinel) == if Strip(line) == sentinel then Intake([], rest)
               else more.(code := line + more.code)
  {
    LineLengthIs(line[..|line| - 1], rest);
    assert line == line[..|line| - 1] + [NEWLINE];
    assert (line + rest)[..|line|] == line && (line + rest)[|line|..] == rest;
  }

  predicate IsLine(line: Chars) {
    line != [] && line[|line| - 1] == NEWLINE && NEWLINE !in line[..|line| - 1]
  }

  lemma HasLine(line: Chars, rest: Chars, sentinel: Chars)
    requires IsLine(line)
    ensures HasSentinelLine(line + rest, sentinel) <==> Strip(line) == sentinel || HasSentinelLine(rest, sentinel)
  {
    LineLengthIs(line[..|line| - 1], rest);
    assert line == line[..|line| - 1] + [NEWLINE];
    assert (line + rest)[..|line|] == line && (line + rest)[|line|..] == rest;
  }

  /** What precedes the sentinel line is collected whole exactly when it hides no sentinel line of its own. */
  lemma {:induction false} CollectedWhole(body: Chars, sentinel: Chars, tail: Chars, later: Chars)
    requires body == [] || body[|body| - 1] == NEWLINE
    requires Collect(tail, sentinel) == Intake([], later)
    ensures Collect(body + tail, sentinel) == Intake(body, later) <==> !HasSentinelLine(body, sentinel)
    decreases |body|
  {
    if body == [] {
      assert body + tail == tail;
    } else {
      var line, rest := CutLine(body);
      CollectedWhole(rest, sentinel, tail, later);
      CollectedOnce(line, rest, sentinel, tail, later);
      Assoc(line, rest, tail);
    }
  }

  lemma CutLine(body: Chars) returns (line: Chars, rest: Chars)
    requires body != [] && body[|body| - 1] == NEWLINE
    ensures body == line + rest && IsLine(line) && |rest| < |body|
    ensures rest == [] || rest[|rest| - 1] == NEWLINE
  {
    var n := LineLength(body);
    line, rest := body[..n], body[n..];
    assert forall i | 0 <= i < n - 1 :: line[i] == body[i];
  }

  lemma CollectedOnce(line: Chars, rest: Chars, sentinel: Chars, tail: Chars, later: Chars)
    requires IsLine(line)
    requires Collect(rest + tail, sentinel) == Intake(rest, later) <==> !HasSentinelLine(rest, sentinel)
    ensures Collect(line + (rest + tail), sentinel) == Intake(line + rest, later)
            <==> !HasSentinelLine(line + rest, sentinel)
  {
    HasLine(line, rest, sentinel);
    CollectLine(line, rest + tail, sentinel);
    SamePrefix(line, Collect(rest + tail, sentinel).code, rest);
  }

  lemma SamePrefix(a: Chars, b: Chars, c: Chars)
    ensures a + b == a + c <==> b == c
  {
    if a + b == a + c {
      assert b == (a + b)[|a|..] && c == (a + c)[|a|..];
    }
  }

  lemma SentinelIsItsLine(uuid: Chars)
    requires IsUuid(uuid)
    ensures IsSentinel(Sentinel(uuid)) && RESERVED <= Sentinel(uuid)
  {
    var s := Sentinel(uuid);
    assert s == RESERVED + (uuid + [UNDERSCORE, UNDERSCORE]);
    assert s[|s| - 1] == UNDERSCORE && s[0] == UNDERSCORE;
  }

  /** Code without some pattern holds no line that strips to a sentinel beginning with it. */
  lemma CleanHasNoSentinel(code: Chars, pattern: Chars, s: Chars)
    requires !Contains(code, pattern) && OneLine(pattern) && pattern <= s
    ensures !HasSentinelLine(Terminated(code), s)
  {
    var body := Terminated(code);
    if HasSentinelLine(body, s) {
      SentinelLineContains(body, s);
      var i: nat :| i <= |body| && s <= body[i..];
      assert pattern <= body[i..];
      TerminatedContains(code, pattern);
    }
  }

  lemma TerminatedContains(code: Chars, pattern: Chars)
    requires OneLine(pattern) && Contains(Terminated(code), pattern)
    ensures Contains(code, pattern)
  {
    var text := Terminated(code);
    var i: nat :| i <= |text| && pattern <= text[i..];
    if text != code {
      var last := |text| - 1;
      assert text[last] == NEWLINE;
      assert forall k | 0 <= k < |pattern| :: pattern[k] == text[i + k];
      assert i + |pattern| <= last;
      assert pattern <= code[i..];
    }
  }

  /** What the runner makes of a framed program and the bytes after it. */
  function Received(input: Chars): Intake {
    var n := LineLength(input);
    Collect(input[n..], Strip(input[..n]))
  }

  lemma ReceivedAfterSentinel(s: Chars, rest: Chars)
    requires IsSentinel(s)
    ensures Received(s + [NEWLINE] + rest) == Collect(rest, s)
  {
    LineLengthIs(s, rest);
    SentinelStrips(s);
    assert (s + [NEWLINE] + rest)[..|s| + 1] == s + [NEWLINE] && (s + [NEWLINE] + rest)[|s| + 1..] == rest;
  }

  /**
   * Main result: the runner recovers the program, with a final newline and every other character as it
   * was, and leaves what follows unread, exactly when no line of it strips to the sentinel.
   */
  lemma FramedProgramIsRecovered(code: Chars, s: Chars, later: Chars)
    requires IsSentinel(s)
    ensures var body := if code != [] && code[|code| - 1] == NEWLINE then code else code + [NEWLINE];
            Received(Framed(code, s) + later) == Intake(body, later) <==> !HasSentinelLine(body, s)
  {
    var body, closing := Terminated(code), s + [NEWLINE];
    Assoc(closing, body + closing, later);
    Assoc(body, closing, later);
    ReceivedAfterSentinel(s, body + (closing + later));
    CollectStops(s, later);
    CollectedWhole(body, s, closing + later, later);
  }

  /** Main result: every accepted program arrives verbatim, and what follows it is left unread. */
  lemma AcceptedProgramArrives(code: Text, uuid: Chars, later: Chars)
    requires Acceptable(code) && IsUuid(uuid)
    ensures Received(Framed(code, Sentinel(uuid)) + later)
            == Intake(if code[|code| - 1] == NEWLINE then code else code + [NEWLINE], later)
  {
    SentinelIsItsLine(uuid);
    ReservedIsOneLine();
    CleanHasNoSentinel(code, RESERVED, Sentinel(uuid));
    FramedProgramIsRecovered(code, Sentinel(uuid), later);
  }

  lemma ReservedIsOneLine()
    ensures OneLine(RESERVED)
  {
  }
}
