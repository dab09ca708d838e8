/** Stored conversation messages, the messages sent to a model, and the tool-call protocol on both. */
module Conversation {
  import opened Sequences
  import opened Wrappers

  datatype ToolCall = ToolCall(id: string, name: string, arguments: string)

  datatype Role = User | Assistant | Tool

  datatype Message = Message(
    role: Role,
    content: Option<string>,
    toolCalls: Option<seq<ToolCall>>,
    toolCallId: Option<string>)

  function UserMessage(text: string): Message {
    Message(User, Some(text), None, None)
  }

  function AssistantMessage(text: string): Message {
    Message(Assistant, Some(text), None, None)
  }

  function AssistantCalls(content: Option<string>, calls: seq<ToolCall>): Message {
    Message(Assistant, content, Some(calls), None)
  }

  function ToolResultMessage(id: string, text: string): Message {
    Message(Tool, Some(text), None, Some(id))
  }

  /** A message of a model request. */
  datatype Wire =
    | SystemText(text: string)
    | UserText(text: string)
    | AssistantText(content: Option<string>, toolCalls: Option<seq<ToolCall>>)
    | ToolText(id: string, text: string)

  /** What a stored message becomes in a request; some become nothing. */
  function ToWire(m: Message, withTools: bool): seq<Wire> {
    match m.role
    case User => if m.content.Some? then [UserText(m.content.value)] else []
    case Assistant =>
      if m.toolCalls.Some? && withTools then [AssistantText(m.content, m.toolCalls)]
      else if m.content.Some? then [AssistantText(m.content, None)]
      else []
    case Tool =>
      if withTools && m.toolCallId.Some? && m.content.Some? then [ToolText(m.toolCallId.value, m.content.value)] else []
  }

  function ToWires(history: seq<Message>, withTools: bool): seq<Wire> {
    if history == [] then []
    else ToWires(history[..|history| - 1], withTools) + ToWire(history[|history| - 1], withTools)
  }

  function Request(history: seq<Message>, prompt: string, withTools: bool): seq<Wire> {
    [SystemText(prompt)] + ToWires(history, withTools)
  }

  method BuildMessages(history: seq<Message>, prompt: string, withTools: bool) returns (messages: seq<Wire>)
    ensures messages == Request(history, prompt, withTools)
  {
    messages := [SystemText(prompt)];
    for i := 0 to |history|
      invariant messages == [SystemText(prompt)] + ToWires(history[..i], withTools)
    {
      assert history[..i + 1][..i] == history[..i];
      messages := messages + ToWire(history[i], withTools);
    }
    assert history[..|history|] == history;
  }

  // ----- The protocol -----

  predicate Answers(m: Message, call: ToolCall) {
    m.role.Tool? && m.content.Some? && m.toolCallId == Some(call.id)
  }

  /** Every message with k tool calls is followed at once by exactly k results with the same ids in order. */
  predicate Paired(history: seq<Message>)
    decreases |history|
  {
    if history == [] then true
    else if history[0].role.Tool? then false
    else if history[0].role.Assistant? && history[0].toolCalls.Some? then
      var calls := history[0].toolCalls.value;
      && calls != [] && |calls| < |history|
      && (forall k | 0 <= k < |calls| :: Answers(history[1 + k], calls[k]))
      && Paired(history[1 + |calls|..])
    else Paired(history[1..])
  }

  /** The same discipline on the messages of a request. */
  predicate Balanced(messages: seq<Wire>)
    decreases |messages|
  {
    if messages == [] then true
    else match messages[0]
      case ToolText(_, _) => false
      case AssistantText(_, Some(calls)) =>
        && |calls| < |messages|
        && (forall k | 0 <= k < |calls| :: messages[1 + k].ToolText? && messages[1 + k].id == calls[k].id)
        && Balanced(messages[1 + |calls|..])
      case _ => Balanced(messages[1..])
  }

  predicate ToolFree(messages: seq<Wire>) {
    forall m | m in messages :: !m.ToolText? && (m.AssistantText? ==> m.toolCalls.None?)
  }

  predicate WellFormed(messages: seq<Wire>, offered: bool) {
    if offered then Balanced(messages) else ToolFree(messages)
  }

  // ----- Histories split anywhere between exchanges -----

  lemma {:induction false} PairedAppend(a: seq<Message>, b: seq<Message>)
    requires Paired(a)
    ensures Paired(a + b) <==> Paired(b)
    decreases |a|
  {
    if a == [] {
      assert a + b == b;
    } else {
      var n := if a[0].role.Assistant? && a[0].toolCalls.Some? then 1 + |a[0].toolCalls.value| else 1;
      assert (a + b)[n..] == a[n..] + b;
      PairedAppend(a[n..], b);
      assert forall k | 0 <= k < |a| :: (a + b)[k] == a[k];
    }
  }

  lemma BalancedCalls(content: Option<string>, calls: seq<ToolCall>, rest: seq<Wire>)
    ensures Balanced([AssistantText(content, Some(calls))] + rest)
            <==> |calls| <= |rest| && AnsweredBy(rest[..|calls|], calls) && Balanced(rest[|calls|..])
  {
    var all := [AssistantText(content, Some(calls))] + rest;
    BalancedUnfold(all, content, calls);
    if |calls| <= |rest| {
      PastFirst(all[0], rest, |calls|);
    }
  }

  lemma PastFirst(first: Wire, rest: seq<Wire>, n: nat)
    requires n <= |rest|
    ensures ([first] + rest)[1..1 + n] == rest[..n] && ([first] + rest)[1 + n..] == rest[n..]
  {
  }

  lemma BalancedUnfold(all: seq<Wire>, content: Option<string>, calls: seq<ToolCall>)
    requires all != [] && all[0] == AssistantText(content, Some(calls))
    ensures Balanced(all)
            <==> |calls| < |all| && AnsweredBy(all[1..1 + |calls|], calls) && Balanced(all[1 + |calls|..])
  {
  }

  predicate AnsweredBy(results: seq<Wire>, calls: seq<ToolCall>) {
    && |results| == |calls|
    && forall k | 0 <= k < |calls| :: results[k].ToolText? && results[k].id == calls[k].id
  }

  lemma AnsweredThenMore(content: Option<string>, calls: seq<ToolCall>, rest: seq<Wire>, b: seq<Wire>)
    requires Balanced([AssistantText(content, Some(calls))] + rest)
    ensures |calls| <= |rest| && Balanced(rest[|calls|..])
    ensures Balanced([AssistantText(content, Some(calls))] + (rest + b)) <==> Balanced(rest[|calls|..] + b)
  {
    var n := |calls|;
    BalancedCalls(content, calls, rest);
    BalancedCalls(content, calls, rest + b);
    assert (rest + b)[..n] == rest[..n] && (rest + b)[n..] == rest[n..] + b;
  }

  lemma {:induction false} BalancedAppend(a: seq<Wire>, b: seq<Wire>)
    requires Balanced(a)
    ensures Balanced(a + b) <==> Balanced(b)
    decreases |a|
  {
    if a == [] {
      assert a + b == b;
    } else {
      var rest := a[1..];
      assert a == [a[0]] + rest && a + b == [a[0]] + (rest + b);
      if a[0].AssistantText? && a[0].toolCalls.Some? {
        AnsweredThenMore(a[0].content, a[0].toolCalls.value, rest, b);
        BalancedAppend(rest[|a[0].toolCalls.value|..], b);
      } else {
        BalancedAppend(rest, b);
        assert ([a[0]] + (rest + b))[1..] == rest + b;
      }
    }
  }

  lemma {:induction false} ToWiresAppend(a: seq<Message>, b: seq<Message>, withTools: bool)
    ensures ToWires(a + b, withTools) == ToWires(a, withTools) + ToWires(b, withTools)
    decreases |b|
  {
    if b == [] {
      assert a + b == a;
    } else {
      var front, last := b[..|b| - 1], b[|b| - 1];
      ToWiresAppend(a, front, withTools);
      assert (a + b)[..|a + b| - 1] == a + front && (a + b)[|a + b| - 1] == last;
      Assoc(ToWires(a, withTools), ToWires(front, withTools), ToWire(last, withTools));
    }
  }

  /** Tool results that answer `calls` are all sent, in order. */
  lemma {:induction false} AnswersToWires(results: seq<Message>, calls: seq<ToolCall>)
    requires |results| == |calls| && forall k | 0 <= k < |calls| :: Answers(results[k], calls[k])
    ensures |ToWires(results, true)| == |calls|
    ensures forall k | 0 <= k < |calls| ::
              ToWires(results, true)[k].ToolText? && ToWires(results, true)[k].id == calls[k].id
  {
    if results != [] {
      AnswersToWires(results[..|results| - 1], calls[..|calls| - 1]);
    }
  }

  lemma SingleToWires(m: Message, withTools: bool)
    ensures ToWires([m], withTools) == ToWire(m, withTools)
  {
    assert [m][..0] == [];
    assert ToWires([], withTools) == [];
  }

  /** A paired history yields a balanced request. */
  lemma {:induction false} PairedIsBalanced(history: seq<Message>)
    requires Paired(history)
    ensures Balanced(ToWires(history, true))
    decreases |history|
  {
    if history != [] {
      var first := history[0];
      var n := if first.role.Assistant? && first.toolCalls.Some? then 1 + |first.toolCalls.value| else 1;
      PairedIsBalanced(history[n..]);
      if n > 1 {
        ExchangeBalanced(history, n);
      } else {
        PlainBalanced(history);
      }
    }
  }

  lemma ExchangeBalanced(history: seq<Message>, n: nat)
    requires history != [] && history[0].role.Assistant? && history[0].toolCalls.Some?
    requires n == 1 + |history[0].toolCalls.value| <= |history|
    requires forall k | 0 <= k < n - 1 :: Answers(history[1 + k], history[0].toolCalls.value[k])
    requires Balanced(ToWires(history[n..], true))
    ensures Balanced(ToWires(history, true))
  {
    ExchangeToWires(history, n);
    BalancedExchange(
      history[0].content, history[0].toolCalls.value, ToWires(history[1..n], true), ToWires(history[n..], true));
  }

  lemma PlainBalanced(history: seq<Message>)
    requires history != [] && !history[0].role.Tool? && !(history[0].role.Assistant? && history[0].toolCalls.Some?)
    requires Balanced(ToWires(history[1..], true))
    ensures Balanced(ToWires(history, true))
  {
    assert history == [history[0]] + history[1..];
    ToWiresAppend([history[0]], history[1..], true);
    SingleToWires(history[0], true);
    BalancedPlain(ToWire(history[0], true), ToWires(history[1..], true));
  }

  lemma ExchangeToWires(history: seq<Message>, n: nat)
    requires history != [] && history[0].role.Assistant? && history[0].toolCalls.Some?
    requires n == 1 + |history[0].toolCalls.value| <= |history|
    requires forall k | 0 <= k < n - 1 :: Answers(history[1 + k], history[0].toolCalls.value[k])
    ensures ToWires(history, true) == [AssistantText(history[0].content, history[0].toolCalls)]
                                      + (ToWires(history[1..n], true) + ToWires(history[n..], true))
    ensures |ToWires(history[1..n], true)| == n - 1
    ensures forall k | 0 <= k < n - 1 ::
              && ToWires(history[1..n], true)[k].ToolText?
              && ToWires(history[1..n], true)[k].id == history[0].toolCalls.value[k].id
  {
    var results, rest := history[1..n], history[n..];
    assert history == [history[0]] + (results + rest);
    ToWiresAppend([history[0]], results + rest, true);
    ToWiresAppend(results, rest, true);
    SingleToWires(history[0], true);
    AnswersToWires(results, history[0].toolCalls.value);
  }

  lemma BalancedExchange(content: Option<string>, calls: seq<ToolCall>, results: seq<Wire>, rest: seq<Wire>)
    requires |results| == |calls| && Balanced(rest)
    requires forall k | 0 <= k < |calls| :: results[k].ToolText? && results[k].id == calls[k].id
    ensures Balanced([AssistantText(content, Some(calls))] + (results + rest))
  {
    var all := [AssistantText(content, Some(calls))] + (results + rest);
    assert all[1 + |calls|..] == rest;
    assert forall k | 0 <= k < |calls| :: all[1 + k] == results[k];
  }

  lemma BalancedPlain(front: seq<Wire>, rest: seq<Wire>)
    requires |front| <= 1 && Balanced(rest)
    requires front != [] ==> !front[0].ToolText? && (front[0].AssistantText? ==> front[0].toolCalls.None?)
    ensures Balanced(front + rest)
  {
    if front == [] {
      assert front + rest == rest;
    } else {
      assert (front + rest)[1..] == rest;
    }
  }

  lemma {:induction false} ToolFreeToWires(history: seq<Message>)
    ensures ToolFree(ToWires(history, false))
  {
    if history != [] {
      ToolFreeToWires(history[..|history| - 1]);
    }
  }

  /** With tools a paired history makes a well-formed request; without tools any history does. */
  lemma RequestWellFormed(history: seq<Message>, prompt: string, offered: bool)
    requires offered ==> Paired(history)
    ensures WellFormed(Request(history, prompt, offered), offered)
  {
    if offered {
      PairedIsBalanced(history);
      BalancedPlain([SystemText(prompt)], ToWires(history, true));
    } else {
      ToolFreeToWires(history);
    }
  }

  /** Something is sent for the message: its text, or its calls or result when tools are offered. */
  predicate Sendable(m: Message, withTools: bool) {
    match m.role
    case User => m.content.Some?
    case Assistant => m.content.Some? || (withTools && m.toolCalls.Some?)
    case Tool => withTools && m.content.Some? && m.toolCallId.Some?
  }

  /** The sent message has the role, text, calls and id of the stored one. */
  predicate Carries(w: Wire, m: Message, withTools: bool) {
    match w
    case SystemText(_) => false
    case UserText(text) => m.role.User? && m.content == Some(text)
    case AssistantText(content, calls) =>
      m.role.Assistant? && m.content == content && calls == if withTools then m.toolCalls else None
    case ToolText(id, text) => m.role.Tool? && m.toolCallId == Some(id) && m.content == Some(text)
  }

  /**
   * Main result: a request is the prompt and then, for each stored message in turn, the one message
   * that carries it, or none exactly when there is nothing to send.
   */
  lemma EachMessageIsSent(history: seq<Message>, prompt: string, withTools: bool, j: nat)
    requires j < |history|
    ensures Request([], prompt, withTools) == [SystemText(prompt)]
    ensures var before, with := Request(history[..j], prompt, withTools), Request(history[..j + 1], prompt, withTools);
            && before <= with <= Request(history, prompt, withTools)
            && (if Sendable(history[j], withTools)
                then |with| == |before| + 1 && Carries(with[|before|], history[j], withTools)
                else with == before)
  {
    assert history[..j + 1] == history[..j] + [history[j]] && history == history[..j + 1] + history[j + 1..];
    ToWiresAppend(history[..j], [history[j]], withTools);
    SingleToWires(history[j], withTools);
    ToWiresAppend(history[..j + 1], history[j + 1..], withTools);
  }
}
