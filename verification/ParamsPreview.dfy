/**
 * The preview of a tool call's parameters in the log of a failed call. A text of more than 200 bytes is
 * sliced at byte 200, and a slice inside a character panics, within the turn that made the call.
 */
module ParamsPreview {
  import opened Bytes
  import opened Utf8
  import opened Wrappers

  const MAX_LEN: nat := 200
  const ELLIPSIS: Scalar := 0x2026

  /** Where a string may be sliced: at its ends, and before a byte that starts a character. */
  predicate CharBoundary(bytes: seq<Byte>, k: nat) {
    k == 0 || k == |bytes| || (k < |bytes| && !Continuation(bytes[k]))
  }

  /** `None` is the panic. */
  function Preview(text: Text): Option<Text> {
    var bytes := Encode(text);
    if |bytes| <= MAX_LEN then Some(text)
    else if CharBoundary(bytes, MAX_LEN) then
      var cut := Decode(bytes[..MAX_LEN]);
      if cut.Some? then Some(cut.value + [ELLIPSIS]) else None
    else None
  }

  lemma FirstByteStarts(c: Scalar)
    ensures !Continuation(EncodeScalar(c)[0])
    ensures forall k | 0 < k < Size(c) :: Continuation(EncodeScalar(c)[k])
  {
  }

  lemma StartsBoundary(text: Text)
    ensures Encode(text) != [] ==> !Continuation(Encode(text)[0])
  {
    if text != [] {
      FirstByteStarts(text[0]);
    }
  }

  /** The slices that are allowed are the ones that leave whole characters. */
  lemma {:induction false} BoundariesAreCuts(text: Text, k: nat)
    requires k <= |Encode(text)|
    ensures CharBoundary(Encode(text), k) <==> Decode(Encode(text)[..k]).Some?
  {
    if text != [] {
      var c, rest := text[0], Encode(text[1..]);
      FirstByteStarts(c);
      if k < Size(c) {
        FirstCut(text, k);
        assert Encode(text)[k] == EncodeScalar(c)[k];
      } else {
        CutPast(text, k);
        BoundariesAreCuts(text[1..], k - Size(c));
        StartsBoundary(text[1..]);
      }
    }
  }

  /** Main result: the preview panics exactly when byte 200 falls inside a character. */
  lemma PreviewPanicsInside(text: Text)
    ensures Preview(text).None? <==> |Encode(text)| > MAX_LEN && Total(text[..Fit(text, MAX_LEN)]) != MAX_LEN
    ensures Preview(text).Some? && |Encode(text)| > MAX_LEN ==>
              Preview(text).value == text[..Fit(text, MAX_LEN)] + [ELLIPSIS]
  {
    if |Encode(text)| > MAX_LEN {
      BoundariesAreCuts(text, MAX_LEN);
      WellFormedCuts(text, MAX_LEN);
      WholeCut(text, MAX_LEN);
    }
  }
}
