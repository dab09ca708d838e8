/**
 * Tool calls from the sandbox: the runner's bridge writes a numbered call and reads one reply without
 * looking at its id; the harness serves one line at a time under a limit, a policy and size bounds.
 */
module ToolIpc {
  import opened Sequences
  import opened Truncation
  import opened Utf8
  import opened Wrappers

  const MAX_IPC_LINE_BYTES: nat := 256 * 1024
  const MAX_TOOL_CALLS: nat := 64
  const MAX_TOOL_PAYLOAD_BYTES: nat := 128 * 1024
  const MAX_ERROR_LEN: nat := 4096

  datatype Call = Call(id: Text, key: Text, params: Text)

  datatype Line = CallLine(call: Call) | DoneLine(output: Text, error: Option<Text>)

  datatype Reply = ToolResult(id: Text, result: Text) | ToolError(id: Text, error: Text)

  /** How a call of the registry ends. */
  datatype Outcome = Interrupted | Returned(result: Text) | Refused(error: Text)

  datatype End =
    | Finished(output: Text, error: Option<Text>)
    | Cancelled
    | TimedOut
    | ReadFailed
    | StdoutClosed
    | Unparsable
    | LimitExceeded
    | ReplyTooLong
    | WriteFailed

  /** The parts that are not modelled: key syntax, sizes of JSON, the policy, and the texts of errors. */
  datatype Host = Host(
    parseKey: Text -> Result<Text, Text>,
    jsonSize: Text -> nat,
    policy: Option<(Text, Text) -> Result<(), Text>>,
    lineSize: Reply -> nat,
    paramsTooLarge: Text,
    resultTooLarge: Text,
    truncationMark: Text)

  datatype Handled = Replied(reply: Reply, invoked: bool) | Stopped(end: End, invoked: bool)

  /** The call may reach the registry. */
  predicate Cleared(h: Host, c: Call) {
    && h.parseKey(c.key).Success?
    && h.jsonSize(c.params) <= MAX_TOOL_PAYLOAD_BYTES
    && (h.policy.Some? ==> h.policy.value(h.parseKey(c.key).value, c.params).Success?)
  }

  /** Why a call that is not cleared is turned away. */
  function Objection(h: Host, c: Call): Text
    requires !Cleared(h, c)
  {
    if h.parseKey(c.key).Failure? then h.parseKey(c.key).error
    else if h.jsonSize(c.params) > MAX_TOOL_PAYLOAD_BYTES then h.paramsTooLarge
    else h.policy.value(h.parseKey(c.key).value, c.params).error
  }

  function Answer(h: Host, c: Call, o: Outcome): Reply {
    var failure := if !Cleared(h, c) then Some(Objection(h, c))
                   else match o
                     case Refused(error) => Some(error)
                     case Returned(result) =>
                        if h.jsonSize(result) > MAX_TOOL_PAYLOAD_BYTES then Some(h.resultTooLarge) else None
                     case Interrupted => None;
    if failure.Some? then ToolError(c.id, Truncate(failure.value, MAX_ERROR_LEN, h.truncationMark))
    else ToolResult(c.id, if o.Returned? then o.result else [])
  }

  /** What serving the call comes to when `seen` calls were read before it. */
  function Handle(h: Host, seen: nat, c: Call, o: Outcome, written: bool): Handled {
    if seen >= MAX_TOOL_CALLS then Stopped(LimitExceeded, false)
    else if Cleared(h, c) && o.Interrupted? then Stopped(Cancelled, true)
    else if h.lineSize(Answer(h, c, o)) > MAX_IPC_LINE_BYTES then Stopped(ReplyTooLong, Cleared(h, c))
    else if !written then Stopped(WriteFailed, Cleared(h, c))
    else Replied(Answer(h, c, o), Cleared(h, c))
  }

  method SendToolError(h: Host, id: Text, error: Text, written: bool) returns (r: Result<Reply, End>)
    ensures var reply := ToolError(id, Truncate(error, MAX_ERROR_LEN, h.truncationMark));
            r == if h.lineSize(reply) > MAX_IPC_LINE_BYTES then Failure(ReplyTooLong)
                 else if !written then Failure(WriteFailed)
                 else Success(reply)
  {
    var text := TruncateUtf8(error, MAX_ERROR_LEN, h.truncationMark);
    var reply := ToolError(id, text);
    if h.lineSize(reply) > MAX_IPC_LINE_BYTES {
      return Failure(ReplyTooLong);
    }
    r := if written then Success(reply) else Failure(WriteFailed);
  }

  /** Serves one call; `called` says whether the registry was, and `o` is what it would answer. */
  method ServeCall(h: Host, seenBefore: nat, c: Call, o: Outcome, written: bool)
    returns (r: Result<Reply, End>, called: bool)
    ensures match Handle(h, seenBefore, c, o, written)
            case Replied(reply, invoked) => r == Success(reply) && called == invoked
            case Stopped(end, invoked) => r == Failure(end) && called == invoked
  {
    called := false;
    var seen := seenBefore + 1;
    if seen > MAX_TOOL_CALLS {
      return Failure(LimitExceeded), called;
    }
    var key := h.parseKey(c.key);
    if key.Failure? {
      r := SendToolError(h, c.id, key.error, written);
      return;
    }
    if h.jsonSize(c.params) > MAX_TOOL_PAYLOAD_BYTES {
      r := SendToolError(h, c.id, h.paramsTooLarge, written);
      return;
    }
    if h.policy.Some? {
      var verdict := h.policy.value(key.value, c.params);
      if verdict.Failure? {
        r := SendToolError(h, c.id, verdict.error, written);
        return;
      }
    }
    called := true;
    match o {
      case Interrupted => r := Failure(Cancelled);
      case Refused(error) => r := SendToolError(h, c.id, error, written);
      case Returned(result) =>
        if h.jsonSize(result) > MAX_TOOL_PAYLOAD_BYTES {
          r := SendToolError(h, c.id, h.resultTooLarge, written);
        } else {
          var reply := ToolResult(c.id, result);
          r := if h.lineSize(reply) > MAX_IPC_LINE_BYTES then Failure(ReplyTooLong)
               else if written then Success(reply)
               else Failure(WriteFailed);
        }
    }
  }

  // ----- The harness's loop over whatever it reads -----

  /** A read line, or what a read comes to instead; the registry's and the pipe's answers ride along. */
  datatype Incoming =
    | Blank
    | Garbage
    | Failed(end: End)
    | Message(line: Line, outcome: Outcome, written: bool)

  datatype Service = Service(end: End, replies: seq<Reply>, invoked: seq<Call>)

  function Serve(h: Host, input: seq<Incoming>, seen: nat): Service {
    if input == [] then Service(StdoutClosed, [], [])
    else match input[0]
      case Blank => Serve(h, input[1..], seen)
      case Garbage => Service(Unparsable, [], [])
      case Failed(end) => Service(end, [], [])
      case Message(DoneLine(output, error), _, _) => Service(Finished(output, error), [], [])
      case Message(CallLine(c), o, written) =>
        match Handle(h, seen, c, o, written)
        case Stopped(end, invoked) => Service(end, [], if invoked then [c] else [])
        case Replied(reply, invoked) =>
          var rest := Serve(h, input[1..], seen + 1);
          rest.(replies := [reply] + rest.replies, invoked := (if invoked then [c] else []) + rest.invoked)
  }

  method ServeCalls(h: Host, input: seq<Incoming>) returns (end: End, replies: seq<Reply>, invoked: seq<Call>)
    ensures Service(end, replies, invoked) == Serve(h, input, 0)
  {
    var toolCallsSeen := 0;
    replies, invoked := [], [];
    ghost var all := Serve(h, input, 0);
    for i := 0 to |input|
      invariant toolCallsSeen >= 0
      invariant var rest := Serve(h, input[i..], toolCallsSeen);
                all == Service(rest.end, replies + rest.replies, invoked + rest.invoked)
    {
      assert input[i..][1..] == input[i + 1..];
      match input[i] {
        case Blank => continue;
        case Garbage => return Unparsable, replies, invoked;
        case Failed(failure) => return failure, replies, invoked;
        case Message(DoneLine(output, error), _, _) => return Finished(output, error), replies, invoked;
        case Message(CallLine(c), o, written) =>
          ghost var rest := Serve(h, input[i + 1..], toolCallsSeen + 1);
          var r, called := ServeCall(h, toolCallsSeen, c, o, written);
          var reached := if called then [c] else [];
          if r.Failure? {
            return r.error, replies, invoked + reached;
          }
          Assoc(replies, [r.value], rest.replies);
          Assoc(invoked, reached, rest.invoked);
          toolCallsSeen, replies, invoked := toolCallsSeen + 1, replies + [r.value], invoked + reached;
      }
    }
    end := StdoutClosed;
  }

  /** Main result: whatever the sandbox writes, at most 64 calls reach the registry, each of them cleared. */
  lemma {:induction false} RegistryIsGuarded(h: Host, input: seq<Incoming>, seen: nat)
    requires seen <= MAX_TOOL_CALLS
    ensures var s := Serve(h, input, seen);
            && |s.invoked| <= MAX_TOOL_CALLS - seen && |s.replies| <= MAX_TOOL_CALLS - seen
            && forall c | c in s.invoked :: Cleared(h, c)
    decreases |input|
  {
    if input != [] {
      var m := input[0];
      if m.Blank? {
        RegistryIsGuarded(h, input[1..], seen);
      } else if m.Message? && m.line.CallLine? && Handle(h, seen, m.line.call, m.outcome, m.written).Replied? {
        RegistryIsGuarded(h, input[1..], seen + 1);
      }
    }
  }

  // ----- Runner and harness together -----

  function Decimal(n: nat): Text {
    (if n < 10 then [] else Decimal(n / 10)) + [48 + n % 10]
  }

  function CallName(n: nat): Text {
    [99] + Decimal(n)
  }

  /** The number that decimal digits spell. */
  function Number(digits: seq<int>): int {
    if digits == [] then 0 else 10 * Number(digits[..|digits| - 1]) + (digits[|digits| - 1] - 48)
  }

  lemma {:induction false} DecimalReadsBack(n: nat)
    ensures Number(Decimal(n)) == n
  {
    var d := Decimal(n);
    assert d[|d| - 1] == 48 + n % 10;
    assert d[..|d| - 1] == if n < 10 then [] else Decimal(n / 10);
    if n >= 10 {
      DecimalReadsBack(n / 10);
    }
  }

  /** What the bridge makes of a reply: its result, or an exception with its error. */
  function Taken(reply: Reply): Result<Text, Text> {
    match reply
    case ToolResult(_, result) => Success(result)
    case ToolError(_, error) => Failure(error)
  }

  /** The runner's end: calls are numbered from one, and a reply is taken for the pending call's unseen. */
  class ToolBridge {
    var callCounter: nat

    constructor ()
      ensures callCounter == 0
    {
      callCounter := 0;
    }

    method Request(key: Text, params: Text) returns (c: Call)
      modifies this
      ensures callCounter == old(callCounter) + 1
      ensures c == Call(CallName(callCounter), key, params)
    {
      callCounter := callCounter + 1;
      c := Call(CallName(callCounter), key, params);
    }

    method Accept(reply: Reply) returns (r: Result<Text, Text>)
      ensures r == Taken(reply)
    {
      r := if reply.ToolError? then Failure(reply.error) else Success(reply.result);
    }
  }

  datatype Runner = Running | Awaiting | Exited

  /** How a served call fared: what the registry would answer, and whether its reply could be written. */
  datatype Turn = Turn(outcome: Outcome, written: bool)

  /**
   * `invoked` holds the positions in `issued` of the calls that reached the registry, `served` how each
   * call read by the harness fared, and `final` what the program came to.
   */
  datatype Session = Session(
    runner: Runner,
    end: Option<End>,
    seen: nat,
    up: seq<Line>,
    down: seq<Reply>,
    issued: seq<Call>,
    received: seq<Reply>,
    invoked: seq<nat>,
    served: seq<Turn>,
    final: Option<(Text, Option<Text>)>)

  datatype Event =
    | Calls(key: Text, params: Text)
    | Receives
    | Finishes(output: Text, error: Option<Text>)
    | Dies
    | Serves(outcome: Outcome, written: bool)
    | Ends(reason: End)

  predicate Enabled(s: Session, e: Event) {
    match e
    case Calls(_, _) => s.runner.Running?
    case Receives => s.runner.Awaiting? && s.down != []
    case Finishes(_, _) => s.runner.Running?
    case Dies => true
    case Serves(_, _) => s.end.None? && s.up != []
    case Ends(reason) =>
      && s.end.None?
      && (|| reason.Cancelled? || reason.TimedOut? || reason.ReadFailed? || reason.Unparsable?
          || (reason.StdoutClosed? && s.runner.Exited? && s.up == []))
  }

  function Step(h: Host, s: Session, e: Event): Session
    requires Enabled(s, e)
  {
    match e
    case Calls(key, params) =>
      var c := Call(CallName(|s.issued| + 1), key, params);
      s.(runner := Awaiting, issued := s.issued + [c], up := s.up + [CallLine(c)])
    case Receives => s.(runner := Running, received := s.received + [s.down[0]], down := s.down[1..])
    case Finishes(output, error) =>
      s.(runner := Exited, up := s.up + [DoneLine(output, error)], final := Some((output, error)))
    case Dies => s.(runner := Exited)
    case Ends(reason) => s.(end := Some(reason))
    case Serves(outcome, written) =>
      match s.up[0]
      case DoneLine(output, error) => s.(up := s.up[1..], end := Some(Finished(output, error)))
      case CallLine(c) =>
        var handled := Handle(h, s.seen, c, outcome, written);
        var t := s.(up := s.up[1..],
                    seen := s.seen + 1,
                    served := s.served + [Turn(outcome, written)],
                    invoked := s.invoked + if handled.invoked then [s.seen] else []);
        match handled
        case Stopped(end, _) => t.(end := Some(end))
        case Replied(reply, _) => t.(down := s.down + [reply])
  }

  predicate Run(h: Host, s: Session, es: seq<Event>)
    decreases |es|
  {
    es == [] || (Enabled(s, es[0]) && Run(h, Step(h, s, es[0]), es[1..]))
  }

  function After(h: Host, s: Session, es: seq<Event>): Session
    requires Run(h, s, es)
    decreases |es|
  {
    if es == [] then s else After(h, Step(h, s, es[0]), es[1..])
  }

  function Opening(): Session {
    Session(Running, None, 0, [], [], [], [], [], [], None)
  }

  /** A reply to the call, by its id; a result only if the call was allowed through. */
  predicate Fits(h: Host, c: Call, r: Reply) {
    r.id == c.id && (r.ToolResult? ==> Cleared(h, c))
  }

  /** Calls are numbered, and what the runner has received are replies to its calls in order. */
  predicate RepliesMatch(h: Host, s: Session) {
    && |s.received| <= |s.issued|
    && (forall i | 0 <= i < |s.issued| :: s.issued[i].id == CallName(i + 1))
    && (forall i | 0 <= i < |s.received| :: Fits(h, s.issued[i], s.received[i]))
  }

  /** At most one line is on its way: the last call, its reply, or the final message. */
  predicate OneLineAtATime(h: Host, s: Session) {
    && |s.received| <= |s.issued| <= |s.received| + 1
    && (s.up == [] ==> s.seen == |s.issued|)
    && (s.up != [] && s.up[0].CallLine? ==>
          s.issued != [] && s.up == [CallLine(s.issued[|s.issued| - 1])] && s.down == []
          && s.seen == |s.received| == |s.issued| - 1)
    && (s.up != [] && s.up[0].DoneLine? ==>
          |s.up| == 1 && s.down == [] && s.seen == |s.received| == |s.issued| && s.runner.Exited?)
    && (s.down != [] ==>
          |s.down| == 1 && s.up == [] && |s.issued| == |s.received| + 1
          && Fits(h, s.issued[|s.received|], s.down[0]))
  }

  predicate Phases(s: Session) {
    && (s.runner.Running? ==> s.up == [] && s.down == [] && |s.issued| == |s.received|)
    && (s.runner.Awaiting? ==> |s.issued| == |s.received| + 1 && (s.up == [] && s.down == [] ==> s.end.Some?))
    && (s.end.None? ==> s.seen <= MAX_TOOL_CALLS)
    && (s.end == Some(LimitExceeded) <==> s.seen == MAX_TOOL_CALLS + 1)
    && s.seen <= MAX_TOOL_CALLS + 1
    && (s.end.Some? && s.end.value.Finished? ==>
          s.runner.Exited? && s.up == [] && s.down == [] && |s.issued| == |s.received| == s.seen)
  }

  /** The registry ran exactly the cleared ones among the first 64 calls served, each once, in order. */
  predicate InvokedExactly(h: Host, s: Session) {
    && s.seen <= |s.issued|
    && (forall i: nat | i < s.seen :: i in s.invoked <==> i < MAX_TOOL_CALLS && Cleared(h, s.issued[i]))
    && (forall j | 0 <= j < |s.invoked| :: j <= s.invoked[j] < s.seen && s.invoked[j] < MAX_TOOL_CALLS)
    && (forall i, j | 0 <= i < j < |s.invoked| :: s.invoked[i] < s.invoked[j])
  }

  predicate Lockstep(h: Host, s: Session) {
    RepliesMatch(h, s) && OneLineAtATime(h, s) && Phases(s) && InvokedExactly(h, s)
  }

  lemma HandledCall(h: Host, seen: nat, c: Call, o: Outcome, written: bool)
    ensures var r := Handle(h, seen, c, o, written);
            && (r.Replied? ==> Fits(h, c, r.reply) && seen < MAX_TOOL_CALLS)
            && (r.invoked <==> seen < MAX_TOOL_CALLS && Cleared(h, c))
            && (r.Stopped? ==> (r.end.LimitExceeded? <==> seen >= MAX_TOOL_CALLS) && !r.end.Finished?)
  {
  }

  lemma ServingKeepsInvoked(h: Host, s: Session, outcome: Outcome, written: bool)
    requires Lockstep(h, s) && Enabled(s, Serves(outcome, written)) && s.up[0].CallLine?
    ensures InvokedExactly(h, Step(h, s, Serves(outcome, written)))
  {
    var c, t := s.up[0].call, Step(h, s, Serves(outcome, written));
    HandledCall(h, s.seen, c, outcome, written);
    assert c == s.issued[s.seen];
    InvokedNext(h, s, t, s.seen < MAX_TOOL_CALLS && Cleared(h, c));
  }

  lemma InvokedNext(h: Host, s: Session, t: Session, reached: bool)
    requires InvokedExactly(h, s) && s.seen < |s.issued| && t.issued == s.issued && t.seen == s.seen + 1
    requires reached <==> s.seen < MAX_TOOL_CALLS && Cleared(h, s.issued[s.seen])
    requires t.invoked == s.invoked + if reached then [s.seen] else []
    ensures InvokedExactly(h, t)
  {
    assert s.seen !in s.invoked;
    assert s.invoked != [] ==> |s.invoked| - 1 <= s.invoked[|s.invoked| - 1];
    assert forall i | i in s.invoked :: i in t.invoked;
    assert reached ==> t.invoked[|s.invoked|] == s.seen;
  }

  lemma ServingKeepsLines(h: Host, s: Session, outcome: Outcome, written: bool)
    requires Lockstep(h, s) && Enabled(s, Serves(outcome, written)) && s.up[0].CallLine?
    ensures var t := Step(h, s, Serves(outcome, written)); RepliesMatch(h, t) && OneLineAtATime(h, t) && Phases(t)
  {
    HandledCall(h, s.seen, s.up[0].call, outcome, written);
  }

  lemma StepKeepsLockstep(h: Host, s: Session, e: Event)
    requires Lockstep(h, s) && Enabled(s, e)
    ensures Lockstep(h, Step(h, s, e))
  {
    if e.Serves? && s.up[0].CallLine? {
      ServingKeepsInvoked(h, s, e.outcome, e.written);
      ServingKeepsLines(h, s, e.outcome, e.written);
    } else if e.Calls? {
      CallingKeepsLockstep(h, s, e);
    } else {
      OthersKeepLockstep(h, s, e);
    }
  }

  lemma CallingKeepsLockstep(h: Host, s: Session, e: Event)
    requires Lockstep(h, s) && Enabled(s, e) && e.Calls?
    ensures Lockstep(h, Step(h, s, e))
  {
  }

  lemma OthersKeepLockstep(h: Host, s: Session, e: Event)
    requires Lockstep(h, s) && Enabled(s, e) && !e.Calls? && !(e.Serves? && s.up[0].CallLine?)
    ensures Lockstep(h, Step(h, s, e))
  {
  }

  /** Main result: runner and harness stay in lockstep in every composed run, whatever ends it. */
  lemma {:induction false} RunKeepsLockstep(h: Host, s: Session, es: seq<Event>)
    requires Lockstep(h, s) && Run(h, s, es)
    ensures Lockstep(h, After(h, s, es))
    decreases |es|
  {
    if es != [] {
      StepKeepsLockstep(h, s, es[0]);
      RunKeepsLockstep(h, Step(h, s, es[0]), es[1..]);
    }
  }

  /** Main result: before a call is read, every earlier call has had its one reply, under its own id. */
  lemma ServedInTurn(h: Host, es: seq<Event>, outcome: Outcome, written: bool)
    requires Run(h, Opening(), es) && Enabled(After(h, Opening(), es), Serves(outcome, written))
    requires After(h, Opening(), es).up[0].CallLine?
    ensures var s := After(h, Opening(), es);
            && s.seen < |s.issued| && s.up == [CallLine(s.issued[s.seen])] && |s.received| == s.seen
            && (forall i | 0 <= i < s.seen :: s.received[i].id == s.issued[i].id == CallName(i + 1))
            && (forall i, j | 0 <= i < j < |s.issued| :: s.issued[i].id != s.issued[j].id)
  {
    RunKeepsLockstep(h, Opening(), es);
    IdsDiffer(h, After(h, Opening(), es));
  }

  lemma IdsDiffer(h: Host, s: Session)
    requires RepliesMatch(h, s)
    ensures forall i, j | 0 <= i < j < |s.issued| :: s.issued[i].id != s.issued[j].id
  {
    forall i, j | 0 <= i < j < |s.issued| ensures s.issued[i].id != s.issued[j].id {
      DecimalReadsBack(i + 1);
      DecimalReadsBack(j + 1);
      assert CallName(i + 1)[1..] == Decimal(i + 1) && CallName(j + 1)[1..] == Decimal(j + 1);
    }
  }

  /**
   * Main result: a session that finishes answered every call it made, 64 at most; the limit ends one
   * exactly when a 65th call is read; and the registry ran the cleared calls within it and no others.
   */
  lemma HowSessionsEnd(h: Host, es: seq<Event>)
    requires Run(h, Opening(), es)
    ensures var s := After(h, Opening(), es);
            && (s.end.Some? && s.end.value.Finished? ==> |s.received| == |s.issued| <= MAX_TOOL_CALLS)
            && (s.end == Some(LimitExceeded) <==> s.seen == MAX_TOOL_CALLS + 1)
            && |s.invoked| <= MAX_TOOL_CALLS
            && s.seen <= |s.issued|
            && (forall i: nat | i < s.seen :: i in s.invoked <==> i < MAX_TOOL_CALLS && Cleared(h, s.issued[i]))
  {
    RunKeepsLockstep(h, Opening(), es);
    var s := After(h, Opening(), es);
    if s.invoked != [] {
      assert |s.invoked| - 1 <= s.invoked[|s.invoked| - 1] < MAX_TOOL_CALLS;
    }
  }
}
