/**
 * UTF-8 as in section 3 of RFC 3629: scalar values, their encodings of one to four bytes, strict
 * decoding, and decoding that skips what is malformed.
 */
module Utf8 {
  import opened Bytes
  import opened Wrappers

  type Scalar = c: int | 0 <= c < 0xD800 || 0xE000 <= c < 0x110000

  type Text = seq<Scalar>

  function Size(c: int): (n: nat)
    ensures 1 <= n <= 4
  {
    if c < 0x80 then 1 else if c < 0x800 then 2 else if c < 0x10000 then 3 else 4
  }

  function EncodeScalar(c: Scalar): (bytes: seq<Byte>)
    ensures |bytes| == Size(c)
  {
    if c < 0x80 then [c]
    else if c < 0x800 then [0xC0 + c / 64, 0x80 + c % 64]
    else if c < 0x10000 then [0xE0 + c / 4096, 0x80 + c / 64 % 64, 0x80 + c % 64]
    else [0xF0 + c / 262144, 0x80 + c / 4096 % 64, 0x80 + c / 64 % 64, 0x80 + c % 64]
  }

  function Encode(text: Text): seq<Byte> {
    if text == [] then [] else EncodeScalar(text[0]) + Encode(text[1..])
  }

  predicate Continuation(b: Byte) {
    0x80 <= b < 0xC0
  }

  function TwoBytes(a: int, b: int): int {
    (a - 0xC0) * 64 + (b - 0x80)
  }

  function ThreeBytes(a: int, b: int, c: int): int {
    (a - 0xE0) * 4096 + (b - 0x80) * 64 + (c - 0x80)
  }

  function FourBytes(a: int, b: int, c: int, d: int): int {
    (a - 0xF0) * 262144 + (b - 0x80) * 4096 + (c - 0x80) * 64 + (d - 0x80)
  }

  /** The scalar value whose encoding starts the bytes. */
  function DecodeFirst(bytes: seq<Byte>): (c: Option<Scalar>)
    ensures c.Some? ==> Size(c.value) <= |bytes|
  {
    if bytes == [] then None
    else if bytes[0] < 0x80 then Some(bytes[0])
    else if 0xC2 <= bytes[0] < 0xE0 && |bytes| >= 2 && Continuation(bytes[1]) then
      Some(TwoBytes(bytes[0], bytes[1]))
    else if 0xE0 <= bytes[0] < 0xF0 && |bytes| >= 3 && Continuation(bytes[1]) && Continuation(bytes[2]) then
      var v := ThreeBytes(bytes[0], bytes[1], bytes[2]);
      if 0x800 <= v && !(0xD800 <= v < 0xE000) then Some(v) else None
    else if 0xF0 <= bytes[0] < 0xF5 && |bytes| >= 4
            && Continuation(bytes[1]) && Continuation(bytes[2]) && Continuation(bytes[3]) then
      var v := FourBytes(bytes[0], bytes[1], bytes[2], bytes[3]);
      if 0x10000 <= v < 0x110000 then Some(v) else None
    else None
  }

  function Decode(bytes: seq<Byte>): Option<Text>
    decreases |bytes|
  {
    if bytes == [] then Some([])
    else
      var c := DecodeFirst(bytes);
      if c.None? then None
      else
        var rest := Decode(bytes[Size(c.value)..]);
        if rest.None? then None else Some([c.value] + rest.value)
  }

  /** Malformed bytes are skipped. */
  function DecodeIgnore(bytes: seq<Byte>): Text
    decreases |bytes|
  {
    if bytes == [] then []
    else
      var c := DecodeFirst(bytes);
      if c.None? then DecodeIgnore(bytes[1..]) else [c.value] + DecodeIgnore(bytes[Size(c.value)..])
  }

  // ----- One scalar value -----

  lemma Digits(c: nat)
    ensures c / 4096 == c / 64 / 64 && c / 262144 == c / 4096 / 64
    ensures c == c / 64 * 64 + c % 64 && c / 64 == c / 4096 * 64 + c / 64 % 64
    ensures c / 4096 == c / 262144 * 64 + c / 4096 % 64
  {
  }

  lemma DecodeEncoded(c: Scalar, rest: seq<Byte>)
    ensures DecodeFirst(EncodeScalar(c) + rest) == Some(c)
  {
    var e := EncodeScalar(c);
    var bytes := e + rest;
    Digits(c);
    assert bytes[0] == e[0];
    if Size(c) == 2 {
      assert bytes[1] == e[1];
    } else if Size(c) == 3 {
      assert bytes[1] == e[1] && bytes[2] == e[2];
    } else if Size(c) == 4 {
      assert bytes[1] == e[1] && bytes[2] == e[2] && bytes[3] == e[3];
    }
  }

  lemma EncodeThree(a: Byte, b: Byte, c: Byte)
    requires 0xE0 <= a < 0xF0 && Continuation(b) && Continuation(c)
    ensures var v := ThreeBytes(a, b, c);
            v < 0x10000 && (0x800 <= v && !(0xD800 <= v < 0xE000) ==> EncodeScalar(v) == [a, b, c])
  {
    var v, t := ThreeBytes(a, b, c), (a - 0xE0) * 64 + (b - 0x80);
    assert v == t * 64 + (c - 0x80) && v / 64 == t && v % 64 == c - 0x80;
    assert t / 64 == a - 0xE0 && t % 64 == b - 0x80;
    Digits(v);
  }

  lemma EncodeFour(a: Byte, b: Byte, c: Byte, d: Byte)
    requires 0xF0 <= a < 0xF5 && Continuation(b) && Continuation(c) && Continuation(d)
    ensures var v := FourBytes(a, b, c, d); 0x10000 <= v < 0x110000 ==> EncodeScalar(v) == [a, b, c, d]
  {
    var v := FourBytes(a, b, c, d);
    var t, u := (a - 0xF0) * 4096 + (b - 0x80) * 64 + (c - 0x80), (a - 0xF0) * 64 + (b - 0x80);
    if v >= 0 {
      assert v == t * 64 + (d - 0x80) && v / 64 == t && v % 64 == d - 0x80;
      assert t == u * 64 + (c - 0x80) && t / 64 == u && t % 64 == c - 0x80;
      assert u / 64 == a - 0xF0 && u % 64 == b - 0x80;
      Digits(v);
    }
  }

  lemma EncodeDecoded(bytes: seq<Byte>)
    requires DecodeFirst(bytes).Some?
    ensures EncodeScalar(DecodeFirst(bytes).value) == bytes[..Size(DecodeFirst(bytes).value)]
  {
    if bytes[0] >= 0xF0 {
      EncodeFour(bytes[0], bytes[1], bytes[2], bytes[3]);
    } else if bytes[0] >= 0xE0 {
      EncodeThree(bytes[0], bytes[1], bytes[2]);
    }
  }

  /** A strict prefix of an encoding decodes to nothing. */
  lemma CutEncoding(c: Scalar, k: nat)
    requires k < Size(c)
    ensures DecodeIgnore(EncodeScalar(c)[..k]) == []
    ensures k > 0 ==> DecodeFirst(EncodeScalar(c)[..k]).None?
  {
    var cut := EncodeScalar(c)[..k];
    if k > 1 {
      OnlyContinuations(cut[1..]);
    }
  }

  lemma {:induction false} OnlyContinuations(bytes: seq<Byte>)
    requires forall b | b in bytes :: Continuation(b)
    ensures DecodeIgnore(bytes) == []
  {
    if bytes != [] {
      assert Continuation(bytes[0]);
      OnlyContinuations(bytes[1..]);
    }
  }

  // ----- Texts -----

  lemma DecodeStep(c: Scalar, rest: seq<Byte>)
    ensures var bytes := EncodeScalar(c) + rest;
            && DecodeIgnore(bytes) == [c] + DecodeIgnore(rest)
            && (Decode(rest).Some? ==> Decode(bytes) == Some([c] + Decode(rest).value))
            && (Decode(rest).None? ==> Decode(bytes).None?)
  {
    DecodeEncoded(c, rest);
    assert (EncodeScalar(c) + rest)[Size(c)..] == rest;
  }

  lemma {:induction false} DecodeEncode(text: Text)
    ensures Decode(Encode(text)) == Some(text)
  {
    if text != [] {
      DecodeStep(text[0], Encode(text[1..]));
      DecodeEncode(text[1..]);
      assert [text[0]] + text[1..] == text;
    }
  }

  lemma DecodedFirst(bytes: seq<Byte>, text: Text) returns (rest: seq<Byte>)
    requires bytes != [] && Decode(bytes) == Some(text)
    ensures text != [] && bytes == EncodeScalar(text[0]) + rest && Decode(rest) == Some(text[1..])
    ensures |rest| < |bytes|
  {
    var n := Size(DecodeFirst(bytes).value);
    EncodeDecoded(bytes);
    rest := bytes[n..];
    assert bytes == bytes[..n] + rest;
  }

  /** Main result: strict decoding accepts exactly the encodings. */
  lemma {:induction false} DecodesExactlyEncodings(bytes: seq<Byte>, text: Text)
    ensures Decode(bytes) == Some(text) <==> bytes == Encode(text)
    decreases |bytes|
  {
    if bytes == Encode(text) {
      DecodeEncode(text);
    }
    if Decode(bytes) == Some(text) && bytes != [] {
      var rest := DecodedFirst(bytes, text);
      DecodesExactlyEncodings(rest, text[1..]);
    }
  }

  // ----- What fits -----

  function Total(text: seq<int>): nat {
    if text == [] then 0 else Size(text[0]) + Total(text[1..])
  }

  /** How many leading characters fit in `max` bytes. */
  function Fit(text: seq<int>, max: nat): (n: nat)
    ensures n <= |text|
  {
    if text == [] || Size(text[0]) > max then 0 else 1 + Fit(text[1..], max - Size(text[0]))
  }

  lemma {:induction false} EncodedLength(text: Text)
    ensures |Encode(text)| == Total(text)
  {
    if text != [] {
      EncodedLength(text[1..]);
    }
  }

  lemma {:induction false} TotalAppend(a: seq<int>, b: seq<int>)
    ensures Total(a + b) == Total(a) + Total(b)
  {
    if a == [] {
      assert a + b == b;
    } else {
      assert (a + b)[1..] == a[1..] + b;
      TotalAppend(a[1..], b);
    }
  }

  /** The prefix of n characters fits exactly when n is at most `Fit`. */
  lemma {:induction false} FitIsLongest(text: seq<int>, max: nat, n: nat)
    requires n <= |text|
    ensures Total(text[..n]) <= max <==> n <= Fit(text, max)
  {
    if n > 0 {
      assert text[..n][1..] == text[1..][..n - 1];
      if Size(text[0]) <= max {
        FitIsLongest(text[1..], max - Size(text[0]), n - 1);
      }
    }
  }

  lemma {:induction false} FitAppend(a: seq<int>, b: seq<int>, max: nat)
    ensures Total(a) <= max ==> Fit(a + b, max) == |a| + Fit(b, max - Total(a))
    ensures Total(a) > max ==> Fit(a + b, max) == Fit(a, max) < |a|
  {
    if a == [] {
      assert a + b == b;
    } else {
      assert (a + b)[1..] == a[1..] + b;
      if Size(a[0]) <= max {
        FitAppend(a[1..], b, max - Size(a[0]));
      }
    }
  }

  /** A cut before the end of the first character leaves nothing that decodes. */
  lemma FirstCut(text: Text, k: nat)
    requires text != [] && k < Size(text[0]) && k <= |Encode(text)|
    ensures text[..Fit(text, k)] == [] && DecodeIgnore(Encode(text)[..k]) == []
    ensures if k == 0 then Decode(Encode(text)[..k]) == Some([]) else Decode(Encode(text)[..k]).None?
  {
    assert Encode(text)[..k] == EncodeScalar(text[0])[..k];
    CutEncoding(text[0], k);
  }

  /** A cut past the first character is that character and a cut of the rest. */
  lemma CutPast(text: Text, k: nat)
    requires text != [] && Size(text[0]) <= k <= |Encode(text)|
    ensures var (bytes, rest) := (Encode(text)[..k], Encode(text[1..])[..k - Size(text[0])]);
            && DecodeIgnore(bytes) == [text[0]] + DecodeIgnore(rest)
            && (if Decode(rest).Some? then Decode(bytes) == Some([text[0]] + Decode(rest).value)
                else Decode(bytes).None?)
  {
    var c, rest := text[0], Encode(text[1..])[..k - Size(text[0])];
    assert Encode(text)[..k] == EncodeScalar(c) + rest;
    DecodeStep(c, rest);
  }

  /** What fits is the first character and what fits after it. */
  lemma FitPast(text: Text, k: nat)
    requires text != [] && Size(text[0]) <= k
    ensures text[..Fit(text, k)] == [text[0]] + text[1..][..Fit(text[1..], k - Size(text[0]))]
    ensures Total(text[..Fit(text, k)]) == Size(text[0]) + Total(text[1..][..Fit(text[1..], k - Size(text[0]))])
  {
    var fit := text[..Fit(text, k)];
    assert fit != [] && fit[0] == text[0] && fit[1..] == text[1..][..Fit(text, k) - 1];
  }

  /** Main result: an encoding cut anywhere, leniently decoded, is the longest run of characters that fits. */
  lemma {:induction false} CutAnywhere(text: Text, k: nat)
    requires k <= |Encode(text)|
    ensures DecodeIgnore(Encode(text)[..k]) == text[..Fit(text, k)]
  {
    if text == [] {
      assert Encode(text)[..k] == [];
    } else if k < Size(text[0]) {
      FirstCut(text, k);
    } else {
      CutPast(text, k);
      CutAnywhere(text[1..], k - Size(text[0]));
      FitPast(text, k);
    }
  }

  /** Main result: a cut encoding is well formed exactly at character boundaries. */
  lemma {:induction false} WellFormedCuts(text: Text, k: nat)
    requires k <= |Encode(text)|
    ensures Decode(Encode(text)[..k]).Some? <==> Total(text[..Fit(text, k)]) == k
  {
    if text == [] {
      assert Encode(text)[..k] == [];
    } else if k < Size(text[0]) {
      FirstCut(text, k);
    } else {
      CutPast(text, k);
      WellFormedCuts(text[1..], k - Size(text[0]));
      FitPast(text, k);
    }
  }

  /** So a cut that decodes leaves all the characters that fit. */
  lemma {:induction false} WholeCut(text: Text, k: nat)
    requires k <= |Encode(text)|
    ensures Decode(Encode(text)[..k]).Some? ==> Decode(Encode(text)[..k]).value == text[..Fit(text, k)]
  {
    if text == [] {
      assert Encode(text)[..k] == [];
    } else if k < Size(text[0]) {
      FirstCut(text, k);
    } else {
      CutPast(text, k);
      WholeCut(text[1..], k - Size(text[0]));
      FitPast(text, k);
    }
  }
}
