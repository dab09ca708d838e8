/**
 * Messages as lines: the server writes a message and a newline to its peer, pumps the peer's lines
 * into the outbound buffer, and the client posts the trimmed lines of its own transport.
 */
module MessageFraming {
  import opened Sequences
  import opened Wrappers
  import opened Bytes
  import OB = OutboundBuffer

  type Message = seq<Byte>

  /** What is left of a byte stream, and whether it ends in a read error rather than cleanly. */
  class ByteReader {
    var rest: seq<Byte>
    const fails: bool

    constructor (bytes: seq<Byte>, fails: bool)
      ensures rest == bytes && this.fails == fails
    {
      rest, this.fails := bytes, fails;
    }

    /** `None` is a read error; an empty line is the end. */
    method ReadUntilNewline() returns (line: Option<seq<Byte>>)
      modifies this
      ensures line == NextLine(old(rest), fails)
      ensures rest == if line.Some? then old(rest)[|line.value|..] else []
    {
      if fails && NEWLINE !in rest {
        rest := [];
        return None;
      }
      var n := LineLength(rest);
      line := Some(rest[..n]);
      rest := rest[n..];
    }
  }

  function NextLine(s: seq<Byte>, fails: bool): (line: Option<seq<Byte>>)
    ensures line.Some? ==> line.value <= s && (s != [] ==> line.value != [])
  {
    if fails && NEWLINE !in s then None else Some(s[..LineLength(s)])
  }

  // ----- The server's pump -----

  /** The lines pumped: all of them up to the first oversized one, the end, or a read error. */
  function Pumped(s: seq<Byte>, fails: bool, max: nat): seq<Message>
    decreases |s|
  {
    match NextLine(s, fails)
    case None => []
    case Some(line) =>
      if line == [] || |line| > max + 1 then []
      else [line] + Pumped(s[|line|..], fails, max)
  }

  function PushAll(q: OB.Queue<Message>, messages: seq<Message>): OB.Queue<Message>
    decreases |messages|
  {
    if messages == [] then q else PushAll(OB.Push(q, messages[0]), messages[1..])
  }

  method PumpOutbound(reader: ByteReader, outbound: OB.Buffer<Message>, max: nat)
    modifies reader, outbound
    ensures outbound.View()
            == PushAll(old(outbound.View()), Pumped(old(reader.rest), reader.fails, max)).(closed := true)
  {
    ghost var all := PushAll(outbound.View(), Pumped(reader.rest, reader.fails, max));
    while true
      invariant PushAll(outbound.View(), Pumped(reader.rest, reader.fails, max)) == all
      decreases |reader.rest|
    {
      var line := reader.ReadUntilNewline();
      if line.None? || line.value == [] || |line.value| > max + 1 {
        break;
      }
      outbound.PushMessage(line.value);
    }
    outbound.Close();
  }

  predicate Fits(lines: seq<seq<Byte>>, max: nat) {
    forall l | l in lines :: |l| <= max + 1
  }

  lemma FitsStep(line: seq<Byte>, rest: seq<seq<Byte>>, max: nat)
    ensures Fits([line] + rest, max) <==> |line| <= max + 1 && Fits(rest, max)
  {
    assert line in [line] + rest;
    assert forall l | l in rest :: l in [line] + rest;
  }

  predicate EndsReadably(s: seq<Byte>, fails: bool) {
    fails ==> s == [] || s[|s| - 1] == NEWLINE
  }

  lemma ConcatStep(first: seq<Byte>, parts: seq<seq<Byte>>)
    ensures Concat([first] + parts) == first + Concat(parts)
  {
    assert ([first] + parts)[1..] == parts;
  }

  lemma ReadableRest(line: seq<Byte>, rest: seq<Byte>, fails: bool)
    requires line != [] && (fails ==> line[|line| - 1] == NEWLINE)
    ensures EndsReadably(line + rest, fails) <==> EndsReadably(rest, fails)
  {
  }

  /** The first line, and what pumping makes of it. */
  lemma PumpStep(s: seq<Byte>, fails: bool, max: nat) returns (line: seq<Byte>, rest: seq<Byte>)
    requires s != [] && (fails ==> NEWLINE in s)
    ensures s == line + rest && line != [] && Lines(s) == [line] + Lines(rest)
    ensures Pumped(s, fails, max) == if |line| > max + 1 then [] else [line] + Pumped(rest, fails, max)
    ensures EndsReadably(s, fails) <==> EndsReadably(rest, fails)
  {
    var n := LineLength(s);
    line, rest := s[..n], s[n..];
    assert s == line + rest;
    ReadableRest(line, rest, fails);
  }

  lemma UnreadableTail(s: seq<Byte>, max: nat)
    requires s != [] && NEWLINE !in s
    ensures Pumped(s, true, max) == [] && !EndsReadably(s, true)
  {
    assert s[|s| - 1] in s;
  }

  /** Main result: what is pumped is a prefix of the peer's output, and all of it exactly when every line fits. */
  lemma {:induction false} PumpIsPrefix(s: seq<Byte>, fails: bool, max: nat)
    ensures Concat(Pumped(s, fails, max)) <= s
    ensures Concat(Pumped(s, fails, max)) == s <==> Fits(Lines(s), max) && EndsReadably(s, fails)
    decreases |s|
  {
    if fails && NEWLINE !in s {
      if s != [] {
        UnreadableTail(s, max);
      }
    } else if s != [] {
      var line, rest := PumpStep(s, fails, max);
      PumpIsPrefix(rest, fails, max);
      FitsStep(line, Lines(rest), max);
      if |line| <= max + 1 {
        ConcatStep(line, Pumped(rest, fails, max));
        PrefixStep(line, Concat(Pumped(rest, fails, max)), rest);
      }
    }
  }

  lemma PrefixStep(line: seq<Byte>, a: seq<Byte>, b: seq<Byte>)
    requires a <= b
    ensures line + a <= line + b && (line + a == line + b <==> a == b)
  {
    assert (line + a)[|line|..] == a && (line + b)[|line|..] == b;
  }

  /** With nothing dropped and the queue drained, the stream carried the peer's bytes unchanged. */
  lemma StreamCarriesBytes(c: OB.Channel<Message>, s: seq<Byte>, fails: bool, max: nat)
    requires OB.Kept(c) && c.accepted == Pumped(s, fails, max) && c.queue.messages == [] && OB.Lost(c.fates) == 0
    ensures Concat(c.delivered) <= s
    ensures Concat(c.delivered) == s <==> Fits(Lines(s), max) && EndsReadably(s, fails)
  {
    assert c.accepted[..OB.Head(c)] == c.accepted && c.fates[..OB.Head(c)] == c.fates;
    DeliveredAll(c.accepted, c.fates);
    PumpIsPrefix(s, fails, max);
  }

  lemma DeliveredAll(messages: seq<Message>, fates: seq<OB.Fate>)
    requires |messages| == |fates| && (forall i | 0 <= i < |fates| :: !fates[i].Waiting?) && OB.Lost(fates) == 0
    ensures OB.Chosen(messages, fates) == messages
  {
    OB.ChosenOrLost(messages, fates);
  }

  // ----- The server's writer -----

  datatype SendError = TooLarge | WriterClosed | WriteFailed

  class PeerWriter {
    var written: seq<Byte>
    var open: bool

    constructor ()
      ensures written == [] && open
    {
      written, open := [], true;
    }

    /** A fault is a write or flush that fails once so many bytes of the frame are out. */
    method SendMessage(message: Message, max: nat, fault: Option<nat>) returns (r: Result<(), SendError>)
      modifies this
      ensures r == if |message| > max then Failure(TooLarge)
                   else if !open then Failure(WriterClosed)
                   else if fault.Some? then Failure(WriteFailed)
                   else Success(())
      ensures written == old(written) + (if r.Success? then Framed([message])
                                         else if r.error.WriteFailed? then Cut(Framed([message]), fault.value)
                                         else [])
      ensures open == old(open)
    {
      if |message| > max {
        return Failure(TooLarge);
      }
      if !open {
        return Failure(WriterClosed);
      }
      assert Framed([message]) == message + [NEWLINE];
      if fault.Some? {
        written := written + Cut(message + [NEWLINE], fault.value);
        return Failure(WriteFailed);
      }
      written := written + (message + [NEWLINE]);
      r := Success(());
    }

    method Close()
      modifies this
      ensures !open && written == old(written)
    {
      open := false;
    }
  }

  function Cut(bytes: seq<Byte>, n: nat): seq<Byte> {
    if n <= |bytes| then bytes[..n] else bytes
  }

  function Framed(messages: seq<Message>): seq<Byte> {
    if messages == [] then [] else messages[0] + [NEWLINE] + Framed(messages[1..])
  }

  // ----- The client's message loop -----

  function Trimmed(line: seq<Byte>): seq<Byte> {
    var n := |line|;
    if n >= 2 && line[n - 2..] == [CARRIAGE_RETURN, NEWLINE] then line[..n - 2]
    else if n >= 1 && line[n - 1] in {CARRIAGE_RETURN, NEWLINE} then line[..n - 1]
    else line
  }

  method TrimNewline(line: seq<Byte>) returns (buffer: seq<Byte>)
    ensures buffer == Trimmed(line)
  {
    buffer := line;
    if buffer != [] && buffer[|buffer| - 1] == NEWLINE {
      buffer := buffer[..|buffer| - 1];
    }
    if buffer != [] && buffer[|buffer| - 1] == CARRIAGE_RETURN {
      buffer := buffer[..|buffer| - 1];
    }
  }

  /** The messages posted when every post succeeds. */
  function Forwarded(s: seq<Byte>, fails: bool, max: nat): seq<Message>
    decreases |s|
  {
    match NextLine(s, fails)
    case None => []
    case Some(line) =>
      if line == [] then []
      else if Trimmed(line) == [] then Forwarded(s[|line|..], fails, max)
      else if |Trimmed(line)| > max then []
      else [Trimmed(line)] + Forwarded(s[|line|..], fails, max)
  }

  /** Posts messages in order until one fails: the one numbered `refused`, if there are that many. */
  method ForwardMessages(reader: ByteReader, max: nat, refused: nat) returns (posted: seq<Message>)
    modifies reader
    ensures var all := Forwarded(old(reader.rest), reader.fails, max);
            posted == if refused < |all| then all[..refused + 1] else all
  {
    posted := [];
    ghost var all := Forwarded(reader.rest, reader.fails, max);
    while true
      invariant posted + Forwarded(reader.rest, reader.fails, max) == all && |posted| <= refused
      decreases |reader.rest|
    {
      var line := reader.ReadUntilNewline();
      if line.None? || line.value == [] {
        break;
      }
      var buffer := TrimNewline(line.value);
      if buffer == [] {
        continue;
      }
      if |buffer| > max {
        break;
      }
      ghost var next := Forwarded(reader.rest, reader.fails, max);
      Assoc(posted, [buffer], next);
      posted := posted + [buffer];
      if |posted| > refused {
        break;
      }
    }
  }

  // ----- Round trips -----

  predicate EndsInReturn(m: Message) {
    m != [] && m[|m| - 1] == CARRIAGE_RETURN
  }

  predicate Sendable(m: Message, max: nat) {
    m != [] && |m| <= max && NEWLINE !in m && !EndsInReturn(m)
  }

  /** Whatever the transport holds, only non-empty newline-free messages within the limit are posted. */
  lemma {:induction false} ForwardedShape(s: seq<Byte>, fails: bool, max: nat)
    ensures forall m | m in Forwarded(s, fails, max) :: m != [] && |m| <= max && NEWLINE !in m
    decreases |s|
  {
    var line := NextLine(s, fails);
    if line.Some? && line.value != [] {
      ForwardedShape(s[|line.value|..], fails, max);
      TrimmedHasNoNewline(s);
    }
  }

  lemma TrimmedHasNoNewline(s: seq<Byte>)
    ensures NEWLINE !in Trimmed(s[..LineLength(s)])
  {
  }

  lemma TrimmedFrame(m: Message)
    ensures Trimmed(m + [NEWLINE]) == if EndsInReturn(m) then m[..|m| - 1] else m
  {
    var line := m + [NEWLINE];
    if m != [] {
      assert line[|line| - 2..] == [m[|m| - 1], NEWLINE];
    }
  }

  /** Reading back one frame: its message, trimmed of a carriage return, then the rest. */
  lemma ForwardedFrame(m: Message, rest: seq<Byte>, max: nat)
    requires NEWLINE !in m
    ensures var t := Trimmed(m + [NEWLINE]);
            Forwarded(m + [NEWLINE] + rest, false, max)
            == if t == [] then Forwarded(rest, false, max)
               else if |t| > max then []
               else [t] + Forwarded(rest, false, max)
  {
    var s := m + [NEWLINE] + rest;
    LineLengthIs(m, rest);
    assert s[..|m| + 1] == m + [NEWLINE] && s[|m| + 1..] == rest;
    assert NextLine(s, false) == Some(m + [NEWLINE]);
  }

  lemma {:induction false} NoMoreThanSent(ms: seq<Message>, max: nat)
    requires forall m | m in ms :: NEWLINE !in m
    ensures |Forwarded(Framed(ms), false, max)| <= |ms|
  {
    if ms != [] {
      ForwardedFrame(ms[0], Framed(ms[1..]), max);
      NoMoreThanSent(ms[1..], max);
    }
  }

  /** Main result: framing loses nothing exactly for non-empty newline-free messages that fit and do not end in CR. */
  lemma {:induction false} FramingRoundTrip(ms: seq<Message>, max: nat)
    ensures Forwarded(Framed(ms), false, max) == ms <==> forall m | m in ms :: Sendable(m, max)
  {
    ForwardedShape(Framed(ms), false, max);
    if forall m | m in ms :: NEWLINE !in m {
      RoundTripNewlineFree(ms, max);
    }
  }

  lemma {:induction false} RoundTripNewlineFree(ms: seq<Message>, max: nat)
    requires forall m | m in ms :: NEWLINE !in m
    ensures Forwarded(Framed(ms), false, max) == ms <==> forall m | m in ms :: Sendable(m, max)
  {
    if ms != [] {
      var m, rest := ms[0], ms[1..];
      var t, back := Trimmed(m + [NEWLINE]), Forwarded(Framed(rest), false, max);
      ForwardedFrame(m, Framed(rest), max);
      TrimmedFrame(m);
      NoMoreThanSent(rest, max);
      RoundTripNewlineFree(rest, max);
      assert ms == [m] + rest;
      if Sendable(m, max) {
        assert Forwarded(Framed(ms), false, max) == [m] + back;
        assert ([m] + back)[1..] == back;
      } else {
        assert m in ms;
        assert t != [] && |t| <= max ==> ([t] + back)[0] != m;
      }
    }
  }

  /** Each message without a carriage return at its end, the empty ones left out, up to the first that is too long. */
  function Arriving(ms: seq<Message>, max: nat): seq<Message> {
    if ms == [] then []
    else
      var t := if EndsInReturn(ms[0]) then ms[0][..|ms[0]| - 1] else ms[0];
      if t == [] then Arriving(ms[1..], max)
      else if |t| > max then []
      else [t] + Arriving(ms[1..], max)
  }

  /** Main result: what arrives of any messages without newlines, sendable or not. */
  lemma {:induction false} ArrivesAs(ms: seq<Message>, max: nat)
    requires forall m | m in ms :: NEWLINE !in m
    ensures Forwarded(Framed(ms), false, max) == Arriving(ms, max)
  {
    if ms != [] {
      ForwardedFrame(ms[0], Framed(ms[1..]), max);
      TrimmedFrame(ms[0]);
      ArrivesAs(ms[1..], max);
    }
  }

  /**
   * What a failed write leaves behind: the writer stays open, and the next message is read back on its
   * own exactly when the failed one left nothing or its whole frame but for the flush.
   */
  lemma AfterFailedWrite(m: Message, n: nat, next: Message, max: nat)
    requires Sendable(m, max) && Sendable(next, max)
    ensures var back := Forwarded(Cut(Framed([m]), n) + Framed([next]), false, max);
            back == (if n <= |m| then [] else [m]) + [next] <==> n == 0 || n > |m|
    ensures 0 < n <= |m| ==>
              Forwarded(Cut(Framed([m]), n) + Framed([next]), false, max)
              == if n + |next| > max then [] else [m[..n] + next]
  {
    if n > |m| {
      WholeFrameLeft(m, n, next, max);
    } else if n == 0 {
      NothingLeft(m, next, max);
    } else {
      PartLeft(m, n, next, max);
    }
  }

  lemma TwoFrames(m: Message, next: Message)
    ensures Framed([m]) == m + [NEWLINE] && Framed([m]) + Framed([next]) == Framed([m, next])
  {
    assert [m, next][1..] == [next];
  }

  lemma WholeFrameLeft(m: Message, n: nat, next: Message, max: nat)
    requires Sendable(m, max) && Sendable(next, max) && n > |m|
    ensures Forwarded(Cut(Framed([m]), n) + Framed([next]), false, max) == [m] + [next]
  {
    TwoFrames(m, next);
    FramingRoundTrip([m, next], max);
    assert [m] + [next] == [m, next];
  }

  lemma NothingLeft(m: Message, next: Message, max: nat)
    requires Sendable(next, max)
    ensures Forwarded(Cut(Framed([m]), 0) + Framed([next]), false, max) == [] + [next]
  {
    FramingRoundTrip([next], max);
    assert Cut(Framed([m]), 0) + Framed([next]) == Framed([next]);
    assert [] + [next] == [next];
  }

  lemma PartLeft(m: Message, n: nat, next: Message, max: nat)
    requires Sendable(m, max) && Sendable(next, max) && 0 < n <= |m|
    ensures Forwarded(Cut(Framed([m]), n) + Framed([next]), false, max)
            == if n + |next| > max then [] else [m[..n] + next]
    ensures [m[..n] + next] != [] + [next]
  {
    var glued := m[..n] + next;
    TwoFrames(m, next);
    TwoFrames(next, next);
    Assoc(m[..n], next, [NEWLINE]);
    assert Cut(Framed([m]), n) == m[..n];
    SingleFrame(glued, max);
    assert [] + [next] == [next] && [glued][0] != [next][0];
  }

  lemma SingleFrame(m: Message, max: nat)
    requires m != [] && NEWLINE !in m && !EndsInReturn(m)
    ensures Forwarded(m + [NEWLINE], false, max) == if |m| > max then [] else [m]
  {
    ForwardedFrame(m, [], max);
    TrimmedFrame(m);
    assert m + [NEWLINE] + [] == m + [NEWLINE] && [m] + [] == [m];
  }

  /** A relayed stream is stable from the first relay on, except for messages still ending in CR. */
  lemma RelayStable(s: seq<Byte>, fails: bool, max: nat)
    ensures var once := Forwarded(s, fails, max);
            Forwarded(Framed(once), false, max) == once <==> forall m | m in once :: !EndsInReturn(m)
  {
    var once := Forwarded(s, fails, max);
    ForwardedShape(s, fails, max);
    FramingRoundTrip(once, max);
  }
}
