/**
 * The size-limited line reader of the sandbox channel. It sees whatever the pipe has buffered, piece
 * by piece, and is proved to depend on the bytes alone.
 */
module LineReader {
  import opened Bytes
  import opened Utf8
  import opened Wrappers

  /** A read: a line, a clean end, or one of the errors. */
  datatype Read = Line(text: Text) | End | ReadFailed | MidMessage | TooLong | NotUtf8

  function Decoded(line: seq<Byte>): Read {
    var text := Decode(line);
    if text.Some? then Line(text.value) else NotUtf8
  }

  /** What reading a line comes to when the bytes are followed by the end, or by a read error. */
  function FirstLine(bytes: seq<Byte>, fails: bool, maxLen: nat): Read {
    if NEWLINE in bytes then
      var line := bytes[..LineLength(bytes)];
      if |line| > maxLen then TooLong else Decoded(line)
    else if |bytes| > maxLen then TooLong
    else if fails then ReadFailed
    else if bytes == [] then End
    else MidMessage
  }

  /** The bytes still to come, in the pieces in which they will be buffered. */
  class ChunkedReader {
    var chunks: seq<seq<Byte>>
    const fails: bool

    ghost predicate Valid()
      reads this
    {
      forall c | c in chunks :: c != []
    }

    ghost function Rest(): seq<Byte>
      reads this
    {
      Concat(chunks)
    }

    constructor (chunks: seq<seq<Byte>>, fails: bool)
      requires forall c | c in chunks :: c != []
      ensures Valid() && Rest() == Concat(chunks) && this.fails == fails
    {
      this.chunks, this.fails := chunks, fails;
    }

    /** What is buffered: nothing at the end, `None` on a read error. */
    method FillBuf() returns (available: Option<seq<Byte>>, ghost later: seq<Byte>)
      requires Valid()
      ensures available == if chunks != [] then Some(chunks[0]) else if fails then None else Some([])
      ensures if chunks != [] then available.value != [] && Rest() == available.value + later else Rest() == []
    {
      later := [];
      if chunks != [] {
        assert chunks[0] in chunks;
        later := Concat(chunks[1..]);
        return Some(chunks[0]), later;
      }
      available := if fails then None else Some([]);
    }

    method Consume(n: nat)
      requires Valid() && chunks != [] && n <= |chunks[0]|
      modifies this
      ensures Valid() && Rest() == old(Rest())[n..] && |Rest()| == |old(Rest())| - n
    {
      var first, tail := chunks[0], chunks[1..];
      assert Rest() == first + Concat(tail) && forall c | c in tail :: c in chunks;
      if n == |first| {
        chunks := [] + tail;
        assert chunks == tail;
      } else {
        chunks := [first[n..]] + tail;
        assert chunks[1..] == tail;
      }
    }
  }

  /** Where the first newline is, if anywhere. */
  method Position(available: seq<Byte>) returns (position: Option<nat>)
    ensures position.Some? <==> NEWLINE in available
    ensures position.Some? ==> FirstNewline(available, position.value)
  {
    for i := 0 to |available|
      invariant NEWLINE !in available[..i]
    {
      if available[i] == NEWLINE {
        return Some(i);
      }
    }
    position := None;
  }

  predicate FirstNewline(s: seq<Byte>, i: nat) {
    i < |s| && s[i] == NEWLINE && NEWLINE !in s[..i]
  }

  /** What is left of the bytes after their first line. */
  function AfterLine(bytes: seq<Byte>): seq<Byte> {
    bytes[LineLength(bytes)..]
  }

  /** A newline in what is available ends the line begun in the buffer. */
  lemma LineEndsHere(all: seq<Byte>, buffer: seq<Byte>, available: seq<Byte>, later: seq<Byte>, i: nat, fails: bool,
                     maxLen: nat)
    requires all == buffer + (available + later) && NEWLINE !in buffer && FirstNewline(available, i)
    ensures FirstLine(all, fails, maxLen)
            == (if |buffer| + i + 1 > maxLen then TooLong else Decoded(buffer + available[..i + 1]))
    ensures AfterLine(all) == (available + later)[i + 1..]
  {
    LineCut(all, buffer, available, later, i);
  }

  lemma LineCut(all: seq<Byte>, buffer: seq<Byte>, available: seq<Byte>, later: seq<Byte>, i: nat)
    requires all == buffer + (available + later) && NEWLINE !in buffer && FirstNewline(available, i)
    ensures NEWLINE in all && LineLength(all) == |buffer| + i + 1
    ensures all[..|buffer| + i + 1] == buffer + available[..i + 1]
    ensures all[|buffer| + i + 1..] == (available + later)[i + 1..]
  {
    var line, rest := buffer + available[..i], available[i + 1..] + later;
    assert all[|line|] == NEWLINE;
    assert all == line + [NEWLINE] + rest;
    LineLengthIs(line, rest);
    DropFirst(available, later, i + 1);
  }

  lemma DropFirst(a: seq<Byte>, b: seq<Byte>, n: nat)
    requires n <= |a|
    ensures (a + b)[n..] == a[n..] + b
  {
  }

  lemma NoNewlineYet(all: seq<Byte>, buffer: seq<Byte>, available: seq<Byte>, later: seq<Byte>, fails: bool,
                     maxLen: nat)
    requires all == buffer + (available + later)
    requires NEWLINE !in buffer && NEWLINE !in available && |buffer| + |available| > maxLen
    ensures FirstLine(all, fails, maxLen) == TooLong
  {
    assert forall i | 0 <= i < |buffer| + |available| :: all[i] == (buffer + available)[i] && all[i] != NEWLINE;
  }

  lemma NothingFollows(all: seq<Byte>, fails: bool, maxLen: nat)
    requires NEWLINE !in all && |all| <= maxLen
    ensures FirstLine(all, fails, maxLen) == if fails then ReadFailed else if all == [] then End else MidMessage
  {
  }

  lemma MovedOver(all: seq<Byte>, buffer: seq<Byte>, available: seq<Byte>, later: seq<Byte>)
    requires all == buffer + (available + later)
    ensures all == (buffer + available) + (available + later)[|available|..]
  {
  }

  /**
   * Main result: the outcome is that of the bytes alone, however they are buffered, and after a line
   * exactly the rest is left unread.
   */
  method ReadLimitedLine(reader: ChunkedReader, maxLen: nat) returns (r: Read)
    requires reader.Valid()
    modifies reader
    ensures reader.Valid()
    ensures r == FirstLine(old(reader.Rest()), reader.fails, maxLen)
    ensures r.Line? || r.NotUtf8? ==> reader.Rest() == AfterLine(old(reader.Rest()))
    ensures r.End? ==> reader.Rest() == []
  {
    var buffer: seq<Byte> := [];
    ghost var all := reader.Rest();
    while true
      invariant reader.Valid() && all == buffer + reader.Rest()
      invariant NEWLINE !in buffer && |buffer| <= maxLen
      decreases |reader.Rest()|
    {
      var available, later := reader.FillBuf();
      if available.None? {
        assert all == buffer;
        NothingFollows(all, reader.fails, maxLen);
        return ReadFailed;
      }
      if available.value == [] {
        assert all == buffer;
        NothingFollows(all, reader.fails, maxLen);
        return if buffer == [] then End else MidMessage;
      }
      var position := Position(available.value);
      if position.Some? {
        LineEndsHere(all, buffer, available.value, later, position.value, reader.fails, maxLen);
        var take := position.value + 1;
        if |buffer| + take > maxLen {
          return TooLong;
        }
        reader.Consume(take);
        assert reader.Rest() == AfterLine(all);
        return Decoded(buffer + available.value[..take]);
      }
      if |buffer| + |available.value| > maxLen {
        NoNewlineYet(all, buffer, available.value, later, reader.fails, maxLen);
        return TooLong;
      }
      MovedOver(all, buffer, available.value, later);
      assert NEWLINE !in buffer + available.value;
      buffer := buffer + available.value;
      reader.Consume(|available.value|);
    }
  }

  // ----- Round trip with a writer of lines -----

  lemma {:induction false} OnlyNewlineIsNewline(text: Text)
    ensures NEWLINE in Encode(text) <==> NEWLINE in text
  {
    if text != [] {
      OnlyNewlineIsNewline(text[1..]);
      assert text == [text[0]] + text[1..];
      assert text[0] != NEWLINE ==> NEWLINE !in EncodeScalar(text[0]);
    }
  }

  lemma {:induction false} EncodeAppend(a: Text, b: Text)
    ensures Encode(a + b) == Encode(a) + Encode(b)
  {
    if a == [] {
      assert a + b == b;
    } else {
      assert (a + b)[1..] == a[1..] + b;
      EncodeAppend(a[1..], b);
    }
  }

  /** A text written as a line is read back whole exactly when it fits, whatever follows it. */
  lemma WrittenLineIsRead(text: Text, rest: seq<Byte>, fails: bool, maxLen: nat)
    requires NEWLINE !in text
    ensures FirstLine(Encode(text + [NEWLINE]) + rest, fails, maxLen)
            == if |Encode(text)| < maxLen then Line(text + [NEWLINE]) else TooLong
  {
    var line := Encode(text);
    EncodeAppend(text, [NEWLINE]);
    assert Encode([NEWLINE]) == [NEWLINE];
    OnlyNewlineIsNewline(text);
    LineLengthIs(line, rest);
    var bytes := line + [NEWLINE] + rest;
    assert bytes[|line|] == NEWLINE && bytes[..|line| + 1] == Encode(text + [NEWLINE]);
    DecodeEncode(text + [NEWLINE]);
  }

  // ----- What each outcome means -----

  /** A first line within the limit is read as the text it encodes, or refused when it encodes none. */
  lemma FirstLineIsRead(bytes: seq<Byte>, n: nat, fails: bool, maxLen: nat)
    requires FirstNewline(bytes, n)
    ensures match FirstLine(bytes, fails, maxLen)
            case TooLong => n >= maxLen
            case Line(text) => n < maxLen && Encode(text) == bytes[..n + 1]
            case NotUtf8 => n < maxLen && forall text: Text :: Encode(text) != bytes[..n + 1]
            case _ => false
    ensures AfterLine(bytes) == bytes[n + 1..]
  {
    assert bytes == bytes[..n] + [NEWLINE] + bytes[n + 1..];
    LineLengthIs(bytes[..n], bytes[n + 1..]);
    forall text: Text | Encode(text) == bytes[..n + 1] ensures Decode(bytes[..n + 1]) == Some(text) {
      DecodeEncode(text);
    }
    if Decode(bytes[..n + 1]).Some? {
      DecodesExactlyEncodings(bytes[..n + 1], Decode(bytes[..n + 1]).value);
    }
  }

  /** Without a newline a clean end, an end inside a message, a read error and an excess are told apart. */
  lemma NoLineIsRead(bytes: seq<Byte>, fails: bool, maxLen: nat)
    requires NEWLINE !in bytes
    ensures var r := FirstLine(bytes, fails, maxLen);
            && (r == TooLong <==> |bytes| > maxLen)
            && (r == ReadFailed <==> |bytes| <= maxLen && fails)
            && (r == End <==> bytes == [] && !fails)
            && (r == MidMessage <==> 0 < |bytes| <= maxLen && !fails)
  {
  }
}
