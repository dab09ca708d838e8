/**
 * How a captured output reaches the harness: the runner writes it as a JSON string in ASCII, inside
 * its final line, and the harness reads the line up to a limit and parses it strictly. So an output
 * that was captured may still be lost, by the size of its escapes or by a lone surrogate.
 */
module OutputDelivery {
  import opened Bytes
  import opened Sequences
  import opened Truncation
  import opened Utf8
  import opened Wrappers
  import LR = LineReader
  import TI = ToolIpc

  const MAX_CAPTURE_BYTES: nat := 128 * 1024
  const QUOTE: Scalar := 34
  const BACKSLASH: Scalar := 92
  /** `{"type": "done", "output": "` */
  const HEAD: Text := [
    123, 34, 116, 121, 112, 101, 34, 58, 32, 34, 100, 111, 110, 101, 34, 44, 32, 34, 111, 117, 116, 112, 117, 116, 34,
    58, 32, 34]
  /** `, "error": ` */
  const MIDDLE: Text := [44, 32, 34, 101, 114, 114, 111, 114, 34, 58, 32]
  /** `null` */
  const NULL: Text := [110, 117, 108, 108]
  /** `}` */
  const CLOSE: Text := [125]

  // ----- The runner's escapes -----

  predicate High(c: int) {
    0xD800 <= c < 0xDC00
  }

  predicate Low(c: int) {
    0xDC00 <= c < 0xE000
  }

  function HexDigit(n: nat): (c: Scalar)
    requires n < 16
    ensures 32 <= c <= 126
  {
    if n < 10 then 48 + n else 87 + n
  }

  function Hex4(u: nat): Text
    requires u < 0x10000
  {
    [BACKSLASH, 117, HexDigit(u / 4096), HexDigit(u / 256 % 16), HexDigit(u / 16 % 16), HexDigit(u % 16)]
  }

  /** The letter after the backslash of a short escape. */
  function ShortEscape(u: nat): Option<Scalar> {
    if u == 34 || u == 92 then Some(u)
    else if u == 8 then Some(98)
    else if u == 9 then Some(116)
    else if u == 10 then Some(110)
    else if u == 12 then Some(102)
    else if u == 13 then Some(114)
    else None
  }

  function EscapeUnit(u: nat): Text
    requires u < 0x10000
  {
    if ShortEscape(u).Some? then [BACKSLASH, ShortEscape(u).value]
    else if 32 <= u <= 126 then [u]
    else Hex4(u)
  }

  function EscapeChar(c: PyChar): Text {
    if c < 0x10000 then EscapeUnit(c)
    else Hex4(0xD800 + (c - 0x10000) / 1024) + Hex4(0xDC00 + (c - 0x10000) % 1024)
  }

  function Escape(text: seq<PyChar>): Text {
    if text == [] then [] else EscapeChar(text[0]) + Escape(text[1..])
  }

  function ErrorText(error: Option<seq<PyChar>>): Text {
    if error.None? then NULL else [QUOTE] + (Escape(error.value) + [QUOTE])
  }

  /** The final line, without its newline. */
  function DoneText(output: seq<PyChar>, error: Option<seq<PyChar>>): Text {
    HEAD + (Escape(output) + ([QUOTE] + (MIDDLE + (ErrorText(error) + CLOSE))))
  }

  // ----- The harness's parser -----

  function HexValue(c: Scalar): (v: Option<nat>)
    ensures v.Some? ==> v.value < 16
  {
    if 48 <= c <= 57 then Some(c - 48)
    else if 97 <= c <= 102 then Some(c - 87)
    else if 65 <= c <= 70 then Some(c - 55)
    else None
  }

  function Quad(s: Text): (u: Option<nat>)
    ensures u.Some? ==> u.value < 0x10000
  {
    if |s| < 4 then None
    else
      var a, b, c, d := HexValue(s[0]), HexValue(s[1]), HexValue(s[2]), HexValue(s[3]);
      if a.None? || b.None? || c.None? || d.None? then None
      else Some(((a.value * 16 + b.value) * 16 + c.value) * 16 + d.value)
  }

  function Combine(high: int, low: int): Scalar
    requires High(high) && Low(low)
  {
    0x10000 + (high - 0xD800) * 1024 + (low - 0xDC00)
  }

  /** After `\u`: one unit, or two that form a surrogate pair; a lone surrogate is refused. */
  function ParseUnits(s: Text): (r: Option<(Scalar, Text)>)
    ensures r.Some? ==> |r.value.1| < |s|
  {
    var u := Quad(s);
    if u.None? || Low(u.value) then None
    else if !High(u.value) then Some((u.value, s[4..]))
    else
      var low := if |s| >= 10 && s[4] == BACKSLASH && s[5] == 117 then Quad(s[6..]) else None;
      if low.None? || !Low(low.value) then None else Some((Combine(u.value, low.value), s[10..]))
  }

  /** After a backslash. */
  function ParseEscape(s: Text): (r: Option<(Scalar, Text)>)
    ensures r.Some? ==> |r.value.1| < |s|
  {
    if s == [] then None
    else if s[0] == 34 || s[0] == 92 || s[0] == 47 then Some((s[0], s[1..]))
    else if s[0] == 98 then Some((8, s[1..]))
    else if s[0] == 102 then Some((12, s[1..]))
    else if s[0] == 110 then Some((10, s[1..]))
    else if s[0] == 114 then Some((13, s[1..]))
    else if s[0] == 116 then Some((9, s[1..]))
    else if s[0] == 117 then ParseUnits(s[1..])
    else None
  }

  function Prepend(c: Scalar, r: Option<(Text, Text)>): Option<(Text, Text)> {
    if r.None? then None else Some(([c] + r.value.0, r.value.1))
  }

  /** What a string comes to whose opening quote was read, and what follows its closing one. */
  function ParseString(s: Text): (r: Option<(Text, Text)>)
    decreases |s|
  {
    if s == [] then None
    else if s[0] == QUOTE then Some(([], s[1..]))
    else if s[0] == BACKSLASH then
      var e := ParseEscape(s[1..]);
      if e.None? then None else Prepend(e.value.0, ParseString(e.value.1))
    else if s[0] < 32 then None
    else Prepend(s[0], ParseString(s[1..]))
  }

  function ParseError(s: Text): Option<Option<Text>> {
    if s == NULL + CLOSE then Some(None)
    else if s != [] && s[0] == QUOTE then
      var e := ParseString(s[1..]);
      if e.Some? && e.value.1 == CLOSE then Some(Some(e.value.0)) else None
    else None
  }

  /** The final line, in the layout the runner writes. */
  function ParseDone(line: Text): Option<TI.Line> {
    if !(HEAD <= line) then None
    else
      var output := ParseString(line[|HEAD|..]);
      if output.None? || !(MIDDLE <= output.value.1) then None
      else
        var error := ParseError(output.value.1[|MIDDLE|..]);
        if error.None? then None else Some(TI.DoneLine(output.value.0, error.value))
  }

  /** A read of the sandbox's output as the harness's loop takes it. */
  function Arrived(r: LR.Read): TI.Incoming {
    match r
    case Line(text) =>
      var m := if text != [] then ParseDone(text[..|text| - 1]) else None;
      if m.Some? then TI.Message(m.value, TI.Interrupted, true) else TI.Garbage
    case End => TI.Failed(TI.StdoutClosed)
    case _ => TI.Failed(TI.ReadFailed)
  }

  // ----- What arrives of a string -----

  /** Adjacent halves of a surrogate pair arrive as one character; any other surrogate is refused. */
  function Merge(text: seq<PyChar>): Option<Text> {
    if text == [] then Some([])
    else if !Surrogate(text[0]) then
      var rest := Merge(text[1..]);
      if rest.None? then None else Some([text[0]] + rest.value)
    else if High(text[0]) && |text| > 1 && Low(text[1]) then
      var rest := Merge(text[2..]);
      if rest.None? then None else Some([Combine(text[0], text[1])] + rest.value)
    else None
  }

  lemma HexDigitValue(n: nat)
    requires n < 16
    ensures HexValue(HexDigit(n)) == Some(n)
  {
  }

  lemma QuadOfHex4(u: nat, tail: Text)
    requires u < 0x10000
    ensures Quad((Hex4(u) + tail)[2..]) == Some(u) && (Hex4(u) + tail)[6..] == tail
  {
    HexDigitValue(u / 4096);
    HexDigitValue(u / 256 % 16);
    HexDigitValue(u / 16 % 16);
    HexDigitValue(u % 16);
    FourDigits(u);
  }

  lemma FourDigits(u: nat)
    requires u < 0x10000
    ensures u / 4096 < 16 && u == ((u / 4096 * 16 + u / 256 % 16) * 16 + u / 16 % 16) * 16 + u % 16
  {
    assert u / 16 == u / 256 * 16 + u / 16 % 16 && u / 256 == u / 4096 * 16 + u / 256 % 16;
  }

  /** A long escape is read as its unit and what the parser makes of that. */
  lemma ParseHex4(u: nat, tail: Text)
    requires u < 0x10000
    ensures var s, e := Hex4(u) + tail, ParseUnits((Hex4(u) + tail)[2..]);
            ParseString(s) == if e.None? then None else Prepend(e.value.0, ParseString(e.value.1))
  {
    var s := Hex4(u) + tail;
    assert s[0] == BACKSLASH && s[1..][0] == 117 && s[1..][1..] == s[2..];
  }

  lemma UnitArrives(u: nat, tail: Text)
    requires u < 0x10000 && !Surrogate(u)
    ensures ParseString(Hex4(u) + tail) == Prepend(u, ParseString(tail))
  {
    QuadOfHex4(u, tail);
    ParseHex4(u, tail);
    assert (Hex4(u) + tail)[2..][4..] == tail;
  }

  lemma PairArrives(high: nat, low: nat, tail: Text)
    requires High(high) && Low(low)
    ensures ParseString(Hex4(high) + (Hex4(low) + tail)) == Prepend(Combine(high, low), ParseString(tail))
  {
    var rest := Hex4(low) + tail;
    var s := (Hex4(high) + rest)[2..];
    QuadOfHex4(high, rest);
    QuadOfHex4(low, tail);
    ParseHex4(high, rest);
    assert s[4..] == rest && s[6..] == rest[2..] && s[10..] == rest[6..];
  }

  lemma LowIsRefused(low: nat, tail: Text)
    requires Low(low)
    ensures ParseString(Hex4(low) + tail).None?
  {
    QuadOfHex4(low, tail);
    ParseHex4(low, tail);
  }

  predicate StartsLow(s: Text) {
    |s| >= 6 && s[0] == BACKSLASH && s[1] == 117 && Quad(s[2..]).Some? && Low(Quad(s[2..]).value)
  }

  lemma HighIsRefused(high: nat, tail: Text)
    requires High(high) && !StartsLow(tail)
    ensures ParseString(Hex4(high) + tail).None?
  {
    var s := (Hex4(high) + tail)[2..];
    QuadOfHex4(high, tail);
    ParseHex4(high, tail);
    assert s[4..] == tail && (|tail| >= 2 ==> s[6..] == tail[2..]);
  }

  lemma ShortArrives(u: nat, tail: Text)
    requires ShortEscape(u).Some?
    ensures ParseString([BACKSLASH, ShortEscape(u).value] + tail) == Prepend(u, ParseString(tail))
  {
    var s := [BACKSLASH, ShortEscape(u).value] + tail;
    assert s[1..][0] == ShortEscape(u).value && s[1..][1..] == tail;
  }

  lemma CharArrives(c: PyChar, tail: Text)
    requires !Surrogate(c)
    ensures ParseString(EscapeChar(c) + tail) == Prepend(c, ParseString(tail))
  {
    if c >= 0x10000 {
      var high, low := 0xD800 + (c - 0x10000) / 1024, 0xDC00 + (c - 0x10000) % 1024;
      Assoc(Hex4(high), Hex4(low), tail);
      PairArrives(high, low, tail);
    } else if ShortEscape(c).Some? {
      ShortArrives(c, tail);
    } else if 32 <= c <= 126 {
      assert ([c] + tail)[1..] == tail;
    } else {
      UnitArrives(c, tail);
    }
  }

  /** What follows a string does not look like the second half of a pair, unless it is one. */
  lemma EscapeStartsLow(c: PyChar, tail: Text)
    requires !Low(c)
    ensures !StartsLow(EscapeChar(c) + tail)
  {
    if c >= 0x10000 {
      var high, low := 0xD800 + (c - 0x10000) / 1024, 0xDC00 + (c - 0x10000) % 1024;
      Assoc(Hex4(high), Hex4(low), tail);
      QuadOfHex4(high, Hex4(low) + tail);
    } else if ShortEscape(c).None? && !(32 <= c <= 126) {
      QuadOfHex4(c, tail);
    }
  }

  lemma NextStartsLow(text: seq<PyChar>, rest: Text)
    requires text == [] || !Low(text[0])
    ensures !StartsLow(Escape(text) + ([QUOTE] + rest))
  {
    if text != [] {
      Assoc(EscapeChar(text[0]), Escape(text[1..]), [QUOTE] + rest);
      EscapeStartsLow(text[0], Escape(text[1..]) + ([QUOTE] + rest));
    }
  }

  lemma EscapeHead(text: seq<PyChar>, rest: Text)
    requires text != []
    ensures Escape(text) + rest == EscapeChar(text[0]) + (Escape(text[1..]) + rest)
  {
    Assoc(EscapeChar(text[0]), Escape(text[1..]), rest);
  }

  function Ended(r: Option<Text>, rest: Text): Option<(Text, Text)> {
    if r.None? then None else Some((r.value, rest))
  }

  lemma LowFirst(text: seq<PyChar>, tail: Text)
    requires text != [] && Low(text[0])
    ensures ParseString(Escape(text) + tail).None?
  {
    EscapeHead(text, tail);
    LowIsRefused(text[0], Escape(text[1..]) + tail);
  }

  lemma LoneHighFirst(text: seq<PyChar>, rest: Text)
    requires text != [] && High(text[0]) && (|text| > 1 ==> !Low(text[1]))
    ensures ParseString(Escape(text) + ([QUOTE] + rest)).None?
  {
    var after := Escape(text[1..]) + ([QUOTE] + rest);
    EscapeHead(text, [QUOTE] + rest);
    NextStartsLow(text[1..], rest);
    assert Escape(text) + ([QUOTE] + rest) == Hex4(text[0]) + after;
    HighIsRefused(text[0], after);
  }

  lemma PairFirst(text: seq<PyChar>, tail: Text)
    requires |text| > 1 && High(text[0]) && Low(text[1])
    ensures ParseString(Escape(text) + tail)
            == Prepend(Combine(text[0], text[1]), ParseString(Escape(text[2..]) + tail))
  {
    var after := Escape(text[2..]) + tail;
    EscapeHead(text, tail);
    NextIsLow(text, tail);
    assert Escape(text) + tail == Hex4(text[0]) + (Hex4(text[1]) + after);
    PairArrives(text[0], text[1], after);
  }

  lemma NextIsLow(text: seq<PyChar>, tail: Text)
    requires |text| > 1 && Low(text[1])
    ensures Escape(text[1..]) + tail == Hex4(text[1]) + (Escape(text[2..]) + tail)
  {
    EscapeHead(text[1..], tail);
    assert text[1..][1..] == text[2..];
  }

  /** Main result: a string written by the runner arrives merged, and is refused exactly when it cannot be. */
  lemma {:induction false} StringArrives(text: seq<PyChar>, rest: Text)
    ensures ParseString(Escape(text) + ([QUOTE] + rest)) == Ended(Merge(text), rest)
    decreases |text|
  {
    var tail := [QUOTE] + rest;
    if text == [] {
      assert Escape(text) + tail == tail && tail[1..] == rest;
    } else {
      EscapeHead(text, tail);
      if !Surrogate(text[0]) {
        CharArrives(text[0], Escape(text[1..]) + tail);
        StringArrives(text[1..], rest);
      } else if Low(text[0]) {
        LowFirst(text, tail);
      } else if |text| > 1 && Low(text[1]) {
        PairFirst(text, tail);
        StringArrives(text[2..], rest);
      } else {
        LoneHighFirst(text, rest);
      }
    }
  }

  // ----- Which strings arrive -----

  /** Every surrogate is next to its other half. */
  ghost predicate Paired(text: seq<PyChar>) {
    && (forall i | 0 <= i < |text| && High(text[i]) :: i + 1 < |text| && Low(text[i + 1]))
    && (forall i | 0 <= i < |text| && Low(text[i]) :: i > 0 && High(text[i - 1]))
  }

  lemma PairedFrom(text: seq<PyChar>, n: nat)
    requires 0 < n <= |text| && !High(text[n - 1]) && Paired(text[..n])
    ensures Paired(text) <==> Paired(text[n..])
  {
    var first, rest := text[..n], text[n..];
    assert forall i | 0 <= i < n :: first[i] == text[i];
    assert forall i | 0 <= i < |rest| :: rest[i] == text[n + i];
    assert Paired(rest) ==> Paired(text) by {
      assert forall i | n <= i < |text| :: text[i] == rest[i - n];
    }
    if Paired(text) {
      forall i | 0 <= i < |rest| && Low(rest[i]) ensures i > 0 && High(rest[i - 1]) {
        assert Low(text[n + i]) && High(text[n + i - 1]);
      }
    }
  }

  /** Main result: a string arrives exactly when its surrogates are paired, and verbatim exactly when it has none. */
  lemma MergesExactly(text: seq<PyChar>)
    ensures Merge(text).Some? <==> Paired(text)
    ensures Merge(text) == Some(text) <==> forall c | c in text :: !Surrogate(c)
  {
    MergesPaired(text);
    MergeShrinks(text);
  }

  lemma {:induction false} MergesPaired(text: seq<PyChar>)
    ensures Merge(text).Some? <==> Paired(text)
    decreases |text|
  {
    if text == [] {
    } else if !Surrogate(text[0]) {
      MergesPaired(text[1..]);
      PairedFrom(text, 1);
    } else if High(text[0]) && |text| > 1 && Low(text[1]) {
      MergesPaired(text[2..]);
      PairedFrom(text, 2);
    } else {
      assert High(text[0]) || Low(text[0]);
    }
  }

  lemma {:induction false} MergeShrinks(text: seq<PyChar>)
    ensures Merge(text).Some? ==> |Merge(text).value| <= |text|
    ensures Merge(text).Some? && (exists c :: c in text && Surrogate(c)) ==> |Merge(text).value| < |text|
    ensures (forall c | c in text :: !Surrogate(c)) ==> Merge(text) == Some(text)
    decreases |text|
  {
    if text != [] {
      assert text == [text[0]] + text[1..];
      if !Surrogate(text[0]) {
        MergeShrinks(text[1..]);
      } else if High(text[0]) && |text| > 1 && Low(text[1]) {
        MergeShrinks(text[2..]);
      } else {
        assert text[0] in text;
      }
    }
  }

  // ----- The final line -----

  function EscapedSize(c: PyChar): nat {
    if c >= 0x10000 then 12
    else if ShortEscape(c).Some? then 2
    else if 32 <= c <= 126 then 1
    else 6
  }

  function EscapedTotal(text: seq<PyChar>): nat {
    if text == [] then 0 else EscapedSize(text[0]) + EscapedTotal(text[1..])
  }

  predicate Printable(text: Text) {
    forall c | c in text :: 32 <= c <= 126
  }

  lemma {:induction false} EscapeSize(text: seq<PyChar>)
    ensures |Escape(text)| == EscapedTotal(text) && Printable(Escape(text))
  {
    if text != [] {
      EscapeSize(text[1..]);
      EscapeCharSize(text[0]);
    }
  }

  lemma EscapeCharSize(c: PyChar)
    ensures |EscapeChar(c)| == EscapedSize(c) && Printable(EscapeChar(c))
  {
  }

  lemma {:induction false} PrintableSize(text: Text)
    requires Printable(text)
    ensures |Encode(text)| == |text|
  {
    if text != [] {
      assert text[0] in text && forall c | c in text[1..] :: c in text;
      PrintableSize(text[1..]);
    }
  }

  const ENVELOPE: nat := |HEAD| + 1 + |MIDDLE| + |CLOSE|

  function ErrorSize(error: Option<seq<PyChar>>): nat {
    if error.None? then |NULL| else EscapedTotal(error.value) + 2
  }

  /** The final line is within the limit that the harness reads lines to, its newline included. */
  predicate LineFits(output: seq<PyChar>, error: Option<seq<PyChar>>) {
    ENVELOPE + EscapedTotal(output) + ErrorSize(error) < TI.MAX_IPC_LINE_BYTES
  }

  lemma DoneSize(output: seq<PyChar>, error: Option<seq<PyChar>>)
    ensures |DoneText(output, error)| == ENVELOPE + EscapedTotal(output) + ErrorSize(error)
    ensures Printable(DoneText(output, error))
  {
    var out, failure := Escape(output), ErrorText(error);
    EscapeSize(output);
    ErrorTextSize(error);
    ConstantsPrintable();
    PrintableJoin(failure, CLOSE);
    PrintableJoin(MIDDLE, failure + CLOSE);
    PrintableJoin([QUOTE], MIDDLE + (failure + CLOSE));
    PrintableJoin(out, [QUOTE] + (MIDDLE + (failure + CLOSE)));
    PrintableJoin(HEAD, out + ([QUOTE] + (MIDDLE + (failure + CLOSE))));
  }

  lemma PrintableJoin(a: Text, b: Text)
    ensures Printable(a + b) <==> Printable(a) && Printable(b)
    ensures |a + b| == |a| + |b|
  {
    assert forall c | c in a || c in b :: c in a + b;
  }

  lemma ConstantsPrintable()
    ensures Printable(HEAD) && Printable(MIDDLE) && Printable(NULL) && Printable(CLOSE)
  {
  }

  lemma ErrorTextSize(error: Option<seq<PyChar>>)
    ensures |ErrorText(error)| == ErrorSize(error) && Printable(ErrorText(error))
  {
    ConstantsPrintable();
    if error.Some? {
      EscapeSize(error.value);
      PrintableJoin(Escape(error.value), [QUOTE]);
      PrintableJoin([QUOTE], Escape(error.value) + [QUOTE]);
    }
  }

  function MergeError(error: Option<seq<PyChar>>): Option<Option<Text>> {
    if error.None? then Some(None)
    else if Merge(error.value).None? then None
    else Some(Merge(error.value))
  }

  lemma Dropped(a: Text, b: Text)
    ensures a <= a + b && (a + b)[|a|..] == b
  {
  }

  lemma ErrorArrives(error: Option<seq<PyChar>>)
    ensures ParseError(ErrorText(error) + CLOSE) == MergeError(error)
  {
    if error.Some? {
      var body := Escape(error.value) + ([QUOTE] + CLOSE);
      Assoc([QUOTE], Escape(error.value) + [QUOTE], CLOSE);
      Assoc(Escape(error.value), [QUOTE], CLOSE);
      assert ErrorText(error) + CLOSE == [QUOTE] + body;
      QuotedError(body);
      StringArrives(error.value, CLOSE);
    }
  }

  lemma QuotedError(body: Text)
    ensures var e := ParseString(body);
            ParseError([QUOTE] + body) == if e.Some? && e.value.1 == CLOSE then Some(Some(e.value.0)) else None
  {
    Dropped([QUOTE], body);
    assert (NULL + CLOSE)[0] == NULL[0];
  }

  lemma DoneArrives(output: seq<PyChar>, error: Option<seq<PyChar>>)
    ensures ParseDone(DoneText(output, error))
            == if Merge(output).None? || MergeError(error).None? then None
               else Some(TI.DoneLine(Merge(output).value, MergeError(error).value))
  {
    var last := ErrorText(error) + CLOSE;
    Dropped(HEAD, Escape(output) + ([QUOTE] + (MIDDLE + last)));
    StringArrives(output, MIDDLE + last);
    Dropped(MIDDLE, last);
    ErrorArrives(error);
  }

  /** How the harness's loop ends when the runner's final line is the next thing it reads. */
  function EndOf(h: TI.Host, output: seq<PyChar>, error: Option<seq<PyChar>>, more: seq<Byte>, fails: bool, seen: nat)
    : TI.End
  {
    var bytes := Encode(DoneText(output, error) + [NEWLINE]) + more;
    TI.Serve(h, [Arrived(LR.FirstLine(bytes, fails, TI.MAX_IPC_LINE_BYTES))], seen).end
  }

  /**
   * Main result: the execution finishes with the output and error merged exactly when the escaped line
   * fits and its surrogates are paired; otherwise it fails, by the size first.
   */
  lemma FinalLineIsRead(h: TI.Host, output: seq<PyChar>, error: Option<seq<PyChar>>, more: seq<Byte>, fails: bool,
                        seen: nat)
    ensures EndOf(h, output, error, more, fails, seen)
            == if !LineFits(output, error) then TI.ReadFailed
               else if Merge(output).None? || MergeError(error).None? then TI.Unparsable
               else TI.Finished(Merge(output).value, MergeError(error).value)
  {
    DoneIsRead(output, error, more, fails);
    LineArrives(DoneText(output, error));
    DoneArrives(output, error);
  }

  lemma DoneIsRead(output: seq<PyChar>, error: Option<seq<PyChar>>, more: seq<Byte>, fails: bool)
    ensures var line := DoneText(output, error) + [NEWLINE];
            LR.FirstLine(Encode(line) + more, fails, TI.MAX_IPC_LINE_BYTES)
            == if LineFits(output, error) then LR.Line(line) else LR.TooLong
  {
    var line := DoneText(output, error);
    DoneSize(output, error);
    PrintableSize(line);
    LR.WrittenLineIsRead(line, more, fails, TI.MAX_IPC_LINE_BYTES);
  }

  lemma LineArrives(line: Text)
    ensures var m := ParseDone(line);
            Arrived(LR.Line(line + [NEWLINE]))
            == if m.Some? then TI.Message(m.value, TI.Interrupted, true) else TI.Garbage
  {
    assert (line + [NEWLINE])[..|line + [NEWLINE]| - 1] == line;
  }

  predicate Clean(text: seq<PyChar>) {
    forall c | c in text :: !Surrogate(c)
  }

  /**
   * Main result: whatever the writes, the captured output arrives exactly when its escapes fit the line
   * and its surrogates, and the error's, are paired, and it arrives verbatim exactly when they fit and
   * there are no surrogates.
   */
  lemma CapturedOutputArrives(h: TI.Host, writes: seq<seq<PyChar>>, error: Option<seq<PyChar>>, more: seq<Byte>,
                              fails: bool, seen: nat)
    ensures var output := Captured(writes, MAX_CAPTURE_BYTES);
            var end := EndOf(h, output, error, more, fails, seen);
            && (end.Finished? <==> LineFits(output, error) && Paired(output) && (error.Some? ==> Paired(error.value)))
            && (end.Finished? && end.output == output && end.error == error
                <==> LineFits(output, error) && Clean(output) && (error.Some? ==> Clean(error.value)))
  {
    var output := Captured(writes, MAX_CAPTURE_BYTES);
    FinalLineIsRead(h, output, error, more, fails, seen);
    MergesExactly(output);
    if error.Some? {
      MergesExactly(error.value);
    }
  }

  // ----- How much fits -----

  /** An escape is at most six times as long as the bytes it is counted for. */
  lemma {:induction false} EscapesAreBounded(text: seq<PyChar>)
    ensures EscapedTotal(text) <= 6 * ByteCount(text)
  {
    if text != [] {
      EscapesAreBounded(text[1..]);
      assert Replace(text)[1..] == Replace(text[1..]);
    }
  }

  /** So a small output without surrogates always arrives verbatim. */
  lemma SmallOutputArrives(h: TI.Host, writes: seq<seq<PyChar>>, more: seq<Byte>, fails: bool, seen: nat)
    requires Clean(Flatten(writes)) && ByteCount(Flatten(writes)) <= MAX_CAPTURE_BYTES
    requires ENVELOPE + 6 * ByteCount(Flatten(writes)) + |NULL| < TI.MAX_IPC_LINE_BYTES
    ensures var output := Captured(writes, MAX_CAPTURE_BYTES);
            output == Flatten(writes) && EndOf(h, output, None, more, fails, seen) == TI.Finished(Flatten(writes), None)
  {
    CaptureInvariant(writes, MAX_CAPTURE_BYTES);
    EscapesAreBounded(Flatten(writes));
    FinalLineIsRead(h, Flatten(writes), None, more, fails, seen);
    MergesExactly(Flatten(writes));
  }

  function Repeated(c: PyChar, n: nat): seq<PyChar> {
    if n == 0 then [] else [c] + Repeated(c, n - 1)
  }

  lemma {:induction false} RepeatedSizes(c: PyChar, n: nat)
    ensures EscapedTotal(Repeated(c, n)) == n * EscapedSize(c)
    ensures ByteCount(Repeated(c, n)) == n * ByteCount([c])
  {
    if n > 0 {
      RepeatedSizes(c, n - 1);
      ByteCountAppend([c], Repeated(c, n - 1));
      assert Repeated(c, n)[1..] == Repeated(c, n - 1);
    }
  }

  lemma OneChar(c: PyChar)
    ensures ByteCount([c]) == Size(if Surrogate(c) then 63 else c) && EscapedTotal([c]) == EscapedSize(c)
  {
    var r := Replace([c]);
    assert r[0] == (if Surrogate(c) then 63 else c) && r[1..] == [];
    assert Total(r) == Size(r[0]) + Total(r[1..]);
  }

  lemma CapturedWhole(text: seq<PyChar>, max: nat)
    requires ByteCount(text) <= max
    ensures Captured([text], max) == text
  {
    CaptureInvariant([text], max);
    FlattenAppend([], text);
  }

  /** Newlines within the capture's limit whose two-character escapes exceed the line's end in an error. */
  lemma NewlinesDoNotFit(h: TI.Host, n: nat, more: seq<Byte>, fails: bool, seen: nat)
    requires n <= MAX_CAPTURE_BYTES && ENVELOPE + 2 * n + |NULL| >= TI.MAX_IPC_LINE_BYTES
    ensures var output := Captured([Repeated(NEWLINE, n)], MAX_CAPTURE_BYTES);
            output == Repeated(NEWLINE, n) && EndOf(h, output, None, more, fails, seen) == TI.ReadFailed
  {
    NewlineSizes(n);
    CapturedWhole(Repeated(NEWLINE, n), MAX_CAPTURE_BYTES);
    FinalLineIsRead(h, Repeated(NEWLINE, n), None, more, fails, seen);
  }

  lemma NewlineSizes(n: nat)
    ensures EscapedTotal(Repeated(NEWLINE, n)) == 2 * n && ByteCount(Repeated(NEWLINE, n)) == n
  {
    RepeatedSizes(NEWLINE, n);
    OneChar(NEWLINE);
  }

  /** A lone surrogate that is captured makes the final line unreadable as JSON. */
  lemma LoneSurrogateIsRefused(h: TI.Host, c: PyChar, more: seq<Byte>, fails: bool, seen: nat)
    requires Surrogate(c)
    ensures var output := Captured([[c]], MAX_CAPTURE_BYTES);
            output == [c] && EndOf(h, output, None, more, fails, seen) == TI.Unparsable
  {
    OneChar(c);
    CapturedWhole([c], MAX_CAPTURE_BYTES);
    FinalLineIsRead(h, [c], None, more, fails, seen);
  }
}
