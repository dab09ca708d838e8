/**
 * Truncation at a character boundary: the harness shortens error texts, and the sandbox runner
 * bounds the output it captures, one write at a time.
 */
module Truncation {
  import opened Utf8

  /** The longest prefix of whole characters within `max` bytes, marked when something was cut. */
  function Truncate(text: seq<int>, max: nat, suffix: seq<int>): seq<int> {
    if Total(text) <= max then text else text[..Fit(text, max)] + suffix
  }

  /** Main result: no longer prefix fits, in characters or well-formed bytes, and the cut shows exactly on overflow. */
  lemma TruncateIsMaximal(text: Text, max: nat, suffix: Text)
    ensures Truncate(text, max, suffix) == if |Encode(text)| <= max then text else text[..Fit(text, max)] + suffix
    ensures |Encode(text)| <= max <==> Fit(text, max) == |text|
    ensures |Encode(text[..Fit(text, max)])| <= max
    ensures forall n: nat | Fit(text, max) < n <= |text| :: |Encode(text[..n])| > max
    ensures forall k: nat | |Encode(text[..Fit(text, max)])| < k <= max && k <= |Encode(text)| ::
              Decode(Encode(text)[..k]).None?
  {
    var fit := Fit(text, max);
    EncodedLength(text);
    EncodedLength(text[..fit]);
    FitIsLongest(text, max, fit);
    FitIsLongest(text, max, |text|);
    assert text[..|text|] == text;
    forall n: nat | fit < n <= |text| ensures |Encode(text[..n])| > max {
      FitIsLongest(text, max, n);
      EncodedLength(text[..n]);
    }
    forall k: nat | |Encode(text[..fit])| < k <= max && k <= |Encode(text)| ensures Decode(Encode(text)[..k]).None? {
      WellFormedCuts(text, k);
      FitGrows(text, k, max);
      TotalGrows(text, Fit(text, k), fit);
    }
  }

  lemma {:induction false} FitGrows(text: seq<int>, k: nat, max: nat)
    requires k <= max
    ensures Fit(text, k) <= Fit(text, max)
  {
    if text != [] && Size(text[0]) <= k {
      FitGrows(text[1..], k - Size(text[0]), max - Size(text[0]));
    }
  }

  lemma TotalGrows(text: seq<int>, m: nat, n: nat)
    requires m <= n <= |text|
    ensures Total(text[..m]) <= Total(text[..n])
  {
    TotalAppend(text[..m], text[m..n]);
    assert text[..m] + text[m..n] == text[..n];
  }

  method TruncateUtf8(input: Text, max: nat, suffix: Text) returns (truncated: Text)
    ensures truncated == Truncate(input, max, suffix)
  {
    EncodedLength(input);
    if |Encode(input)| <= max {
      return input;
    }
    var end, offset := 0, 0;
    for i := 0 to |input|
      invariant end == i && offset == Total(input[..i]) <= max
    {
      var next := offset + Size(input[i]);
      assert input[..i + 1] == input[..i] + [input[i]];
      TotalAppend(input[..i], [input[i]]);
      if next > max {
        FitIsLongest(input, max, i);
        FitIsLongest(input, max, i + 1);
        break;
      }
      end, offset := i + 1, next;
    }
    assert input[..|input|] == input;
    truncated := input[..end] + suffix;
  }

  // ----- The runner's bounded capture -----

  /** A Python character may be a lone surrogate, which encodes as a question mark. */
  type PyChar = c: int | 0 <= c < 0x110000

  predicate Surrogate(c: int) {
    0xD800 <= c < 0xE000
  }

  function Replace(text: seq<PyChar>): (r: Text)
    ensures |r| == |text|
    ensures forall i | 0 <= i < |text| :: r[i] == if Surrogate(text[i]) then 63 else text[i]
  {
    if text == [] then [] else [if Surrogate(text[0]) then 63 else text[0]] + Replace(text[1..])
  }

  const NOTICE: Text := [
    10, 46, 46, 46, 32, 111, 117, 116, 112, 117, 116, 32, 116, 114, 117, 110, 99, 97, 116, 101, 100, 32, 46, 46, 46, 10]

  /** How many bytes are counted, what was kept, and whether the notice was added. */
  datatype Capture = Capture(bytes: nat, text: seq<PyChar>, truncated: bool)

  /** What writes that reach a capture make of it, one whole write at a time. */
  function Written(c: Capture, text: seq<PyChar>, max: nat): Capture {
    if text == [] || c.truncated then c
    else
      var clean := Replace(text);
      if c.bytes >= max then Capture(c.bytes, c.text + NOTICE, true)
      else if Total(clean) <= max - c.bytes then Capture(c.bytes + Total(clean), c.text + text, false)
      else
        var kept := clean[..Fit(clean, max - c.bytes)];
        Capture(c.bytes + Total(kept), c.text + kept + NOTICE, true)
  }

  function WriteAll(c: Capture, writes: seq<seq<PyChar>>, max: nat): Capture
    decreases |writes|
  {
    if writes == [] then c
    else Written(WriteAll(c, writes[..|writes| - 1], max), writes[|writes| - 1], max)
  }

  function Flatten(parts: seq<seq<PyChar>>): seq<PyChar>
    decreases |parts|
  {
    if parts == [] then [] else Flatten(parts[..|parts| - 1]) + parts[|parts| - 1]
  }

  lemma FlattenAppend(parts: seq<seq<PyChar>>, part: seq<PyChar>)
    ensures Flatten(parts + [part]) == Flatten(parts) + part
  {
    assert (parts + [part])[..|parts|] == parts;
  }

  /** Cutting the encoded bytes and decoding leniently keeps exactly the characters that fit. */
  lemma WrittenCut(c: Capture, text: seq<PyChar>, max: nat)
    requires text != [] && !c.truncated && c.bytes < max && |Encode(Replace(text))| > max - c.bytes
    ensures var prefix := DecodeIgnore(Encode(Replace(text))[..max - c.bytes]);
            Written(c, text, max) == Capture(c.bytes + |Encode(prefix)|, c.text + prefix + NOTICE, true)
  {
    CutAnywhere(Replace(text), max - c.bytes);
    EncodedLength(Replace(text));
    EncodedLength(DecodeIgnore(Encode(Replace(text))[..max - c.bytes]));
  }

  lemma WrittenWhole(c: Capture, text: seq<PyChar>, max: nat)
    requires text != [] && !c.truncated && c.bytes < max && |Encode(Replace(text))| <= max - c.bytes
    ensures Written(c, text, max) == Capture(c.bytes + |Encode(Replace(text))|, c.text + text, false)
  {
    EncodedLength(Replace(text));
  }

  class BoundedCapture {
    const maxBytes: nat
    var bytesWritten: nat
    var parts: seq<seq<PyChar>>
    var truncated: bool

    ghost function View(): Capture
      reads this
    {
      Capture(bytesWritten, Flatten(parts), truncated)
    }

    constructor (max: nat)
      ensures maxBytes == max && View() == Capture(0, [], false)
    {
      maxBytes, bytesWritten, parts, truncated := max, 0, [], false;
    }

    method Append(part: seq<PyChar>)
      modifies this`parts
      ensures Flatten(parts) == old(Flatten(parts)) + part
    {
      FlattenAppend(parts, part);
      parts := parts + [part];
    }

    method Write(text: seq<PyChar>) returns (count: nat)
      modifies this
      ensures count == |text| && View() == Written(old(View()), text, maxBytes)
    {
      count := |text|;
      if text == [] || truncated {
        return;
      }
      var encoded := Encode(Replace(text));
      if bytesWritten >= maxBytes {
        Append(NOTICE);
        truncated := true;
        return;
      }
      var remaining := maxBytes - bytesWritten;
      if |encoded| <= remaining {
        WrittenWhole(View(), text, maxBytes);
        Append(text);
        bytesWritten := bytesWritten + |encoded|;
        return;
      }
      StorePrefix(text);
    }

    /** Keeps what fits of a write that does not, and marks the cut. */
    method StorePrefix(text: seq<PyChar>)
      requires text != [] && !truncated && bytesWritten < maxBytes
      requires |Encode(Replace(text))| > maxBytes - bytesWritten
      modifies this
      ensures View() == Written(old(View()), text, maxBytes)
    {
      WrittenCut(View(), text, maxBytes);
      var prefix := DecodeIgnore(Encode(Replace(text))[..maxBytes - bytesWritten]);
      if prefix != [] {
        Append(prefix);
        bytesWritten := bytesWritten + |Encode(prefix)|;
      }
      Append(NOTICE);
      truncated := true;
    }

    method GetValue() returns (text: seq<PyChar>)
      ensures text == View().text
    {
      text := [];
      for i := 0 to |parts|
        invariant text == Flatten(parts[..i])
      {
        assert parts[..i + 1][..i] == parts[..i];
        text := text + parts[i];
      }
      assert parts[..|parts|] == parts;
    }
  }

  /** What the runner captured of some writes. */
  function Captured(writes: seq<seq<PyChar>>, max: nat): seq<PyChar> {
    WriteAll(Capture(0, [], false), writes, max).text
  }

  lemma ReplaceAppend(a: seq<PyChar>, b: seq<PyChar>)
    ensures Replace(a + b) == Replace(a) + Replace(b)
  {
  }

  function ByteCount(text: seq<PyChar>): nat {
    Total(Replace(text))
  }

  lemma ByteCountAppend(a: seq<PyChar>, b: seq<PyChar>)
    ensures ByteCount(a + b) == ByteCount(a) + ByteCount(b)
  {
    ReplaceAppend(a, b);
    TotalAppend(Replace(a), Replace(b));
  }

  /** How many characters belong to the writes stored whole, before the first that overflows. */
  function StoredWhole(writes: seq<seq<PyChar>>, max: nat): (n: nat)
    ensures n <= |Flatten(writes)|
    decreases |writes|
  {
    if writes == [] || ByteCount(Flatten(writes)) <= max then |Flatten(writes)|
    else StoredWhole(writes[..|writes| - 1], max)
  }

  /** How many characters of the whole output fit. */
  function Kept(text: seq<PyChar>, max: nat): (n: nat)
    ensures n <= |text|
  {
    Fit(Replace(text), max)
  }

  /** The capture after some writes, as a function of the whole output and where its writes overflow. */
  ghost predicate CapturedIs(writes: seq<seq<PyChar>>, max: nat, c: Capture) {
    var all, stored := Flatten(writes), StoredWhole(writes, max);
    if ByteCount(all) <= max then c == Capture(ByteCount(all), all, false)
    else
      && stored <= Kept(all, max)
      && c.truncated && c.text == all[..stored] + Replace(all[stored..Kept(all, max)]) + NOTICE
  }

  lemma OverflowingWrite(stored: seq<PyChar>, w: seq<PyChar>, max: nat)
    requires ByteCount(stored) <= max < ByteCount(stored + w)
    ensures var all, c := stored + w, Written(Capture(ByteCount(stored), stored, false), w, max);
            && |stored| <= Kept(all, max)
            && c.truncated && c.text == all[..|stored|] + Replace(all[|stored|..Kept(all, max)]) + NOTICE
  {
    var all := stored + w;
    ByteCountAppend(stored, w);
    var m := Fit(Replace(w), max - ByteCount(stored));
    KeptOfOverflow(stored, w, max);
    assert all[..|stored|] == stored && all[|stored|..Kept(all, max)] == w[..m];
    ReplaceSlice(w, 0, m);
    assert stored + [] == stored;
  }

  lemma KeptOfOverflow(stored: seq<PyChar>, w: seq<PyChar>, max: nat)
    requires ByteCount(stored) <= max < ByteCount(stored + w)
    ensures w != [] && Kept(stored + w, max) == |stored| + Fit(Replace(w), max - ByteCount(stored))
  {
    ReplaceAppend(stored, w);
    ByteCountAppend(stored, w);
    FitAppend(Replace(stored), Replace(w), max);
  }

  lemma ReplaceSlice(text: seq<PyChar>, m: nat, n: nat)
    requires m <= n <= |text|
    ensures Replace(text[m..n]) == Replace(text)[m..n]
  {
  }

  lemma ReplaceText(text: Text)
    ensures Replace(text) == text
  {
  }

  lemma LaterWrite(all: seq<PyChar>, w: seq<PyChar>, stored: nat, max: nat)
    requires ByteCount(all) > max && stored <= Kept(all, max)
    ensures ByteCount(all + w) > max && Kept(all + w, max) == Kept(all, max)
    ensures (all + w)[..stored] == all[..stored] && (all + w)[stored..Kept(all, max)] == all[stored..Kept(all, max)]
  {
    ReplaceAppend(all, w);
    ByteCountAppend(all, w);
    FitAppend(Replace(all), Replace(w), max);
  }

  lemma {:induction false} CaptureInvariant(writes: seq<seq<PyChar>>, max: nat)
    ensures CapturedIs(writes, max, WriteAll(Capture(0, [], false), writes, max))
    decreases |writes|
  {
    if writes != [] {
      var front, w := writes[..|writes| - 1], writes[|writes| - 1];
      var all := Flatten(front);
      CaptureInvariant(front, max);
      ByteCountAppend(all, w);
      if ByteCount(all) > max {
        LaterWrite(all, w, StoredWhole(front, max), max);
      } else if ByteCount(all + w) > max {
        OverflowingWrite(all, w, max);
      } else if w == [] {
        assert all + w == all;
      }
    }
  }

  /**
   * Main result: however the output is split into writes, the capture is its truncation, with one
   * notice exactly when it overflows; lone surrogates count and read as question marks.
   */
  lemma CaptureIsTruncation(writes: seq<seq<PyChar>>, max: nat)
    ensures Replace(Captured(writes, max)) == Truncate(Replace(Flatten(writes)), max, NOTICE)
    ensures WriteAll(Capture(0, [], false), writes, max).truncated <==> ByteCount(Flatten(writes)) > max
  {
    CaptureInvariant(writes, max);
    var all, stored := Flatten(writes), StoredWhole(writes, max);
    if ByteCount(all) > max {
      ReplaceMixed(all, stored, Kept(all, max), NOTICE);
    }
  }

  lemma ReplaceMixed(all: seq<PyChar>, stored: nat, kept: nat, suffix: Text)
    requires stored <= kept <= |all|
    ensures Replace(all[..stored] + Replace(all[stored..kept]) + suffix) == Replace(all)[..kept] + suffix
  {
    var before, tail := all[..stored], all[stored..kept];
    ReplaceTwice(before, tail, suffix);
    Joined(all, stored, kept);
    ReplaceSlice(all, 0, kept);
  }

  lemma Joined(all: seq<PyChar>, m: nat, n: nat)
    requires m <= n <= |all|
    ensures all[..m] + all[m..n] == all[..n]
  {
  }

  lemma ReplaceTwice(a: seq<PyChar>, b: seq<PyChar>, suffix: Text)
    ensures Replace(a + Replace(b) + suffix) == Replace(a + b) + suffix
  {
    ReplaceAppend(a + Replace(b), suffix);
    ReplaceAppend(a, Replace(b));
    ReplaceAppend(a, b);
    ReplaceText(Replace(b));
    ReplaceText(suffix);
  }

  /** Main result: the kept text is the output's own exactly when the overflowing write keeps no surrogate. */
  lemma CaptureIsVerbatim(writes: seq<seq<PyChar>>, max: nat)
    requires ByteCount(Flatten(writes)) > max
    ensures var all := Flatten(writes);
            && StoredWhole(writes, max) <= Kept(all, max)
            && (Captured(writes, max) == all[..Kept(all, max)] + NOTICE
                <==> forall c | c in all[StoredWhole(writes, max)..Kept(all, max)] :: !Surrogate(c))
  {
    CaptureInvariant(writes, max);
    var all, stored := Flatten(writes), StoredWhole(writes, max);
    var kept := Kept(all, max);
    var tail := all[stored..kept];
    assert all[..kept] == all[..stored] + tail;
    SameTail(all[..stored], Replace(tail), tail, NOTICE);
    UnreplacedExactly(tail);
  }

  lemma SameTail(a: seq<int>, b: seq<int>, c: seq<int>, z: seq<int>)
    requires |b| == |c|
    ensures a + b + z == a + c + z <==> b == c
  {
    if a + b + z == a + c + z {
      assert b == (a + b + z)[|a|..|a| + |b|] && c == (a + c + z)[|a|..|a| + |c|];
    }
  }

  lemma UnreplacedExactly(text: seq<PyChar>)
    ensures Replace(text) == text <==> forall c | c in text :: !Surrogate(c)
  {
    if forall c | c in text :: !Surrogate(c) {
      assert forall i | 0 <= i < |text| :: Replace(text)[i] == text[i];
    } else {
      assert exists i :: 0 <= i < |text| && Surrogate(text[i]) && Replace(text)[i] != text[i];
    }
  }
}
