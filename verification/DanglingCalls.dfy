/**
 * What a tool call that was never offered does to later requests. It is stored with the turn it came
 * in and never answered, so no request that offers tools is well formed again.
 */
module DanglingCalls {
  import opened Sequences
  import opened Wrappers
  import opened Conversation
  import opened AgentLoop

  lemma UnansweredCalls(before: seq<Wire>, content: Option<string>, calls: seq<ToolCall>, tail: seq<Wire>)
    requires Balanced(before) && calls != [] && (tail == [] || !tail[0].ToolText?)
    ensures !Balanced(before + ([AssistantText(content, Some(calls))] + tail))
  {
    BalancedCalls(content, calls, tail);
    BalancedAppend(before, [AssistantText(content, Some(calls))] + tail);
  }

  lemma SpoiledWires(history: seq<Message>, content: Option<string>, calls: seq<ToolCall>, text: string,
                     more: seq<Message>)
    ensures ToWires(history + [AssistantCalls(content, calls)] + [AssistantMessage(text)] + more, true)
            == ToWires(history, true)
               + ([AssistantText(content, Some(calls))] + ([AssistantText(Some(text), None)] + ToWires(more, true)))
  {
    var asked, answer := [AssistantCalls(content, calls)], [AssistantMessage(text)];
    ToWiresAppend(history + asked + answer, more, true);
    ToWiresAppend(history + asked, answer, true);
    ToWiresAppend(history, asked, true);
    SingleToWires(asked[0], true);
    SingleToWires(answer[0], true);
    var h, a, t, m := ToWires(history, true), ToWires(asked, true), ToWires(answer, true), ToWires(more, true);
    Assoc(h + a, t, m);
    Assoc(h, a, t + m);
  }

  /** Whatever is stored after it, a history with an unanswered call makes no well-formed request with tools. */
  lemma SpoiledForGood(history: seq<Message>, content: Option<string>, calls: seq<ToolCall>, text: string,
                       more: seq<Message>, prompt: string, rest: seq<Wire>)
    requires Paired(history) && calls != []
    ensures var spoiled := history + [AssistantCalls(content, calls)] + [AssistantMessage(text)] + more;
            !WellFormed(Request(spoiled, prompt, true) + rest, true)
  {
    var spoiled := history + [AssistantCalls(content, calls)] + [AssistantMessage(text)] + more;
    var before := Request(history, prompt, true);
    var asked := [AssistantText(content, Some(calls))];
    var tail := [AssistantText(Some(text), None)] + ToWires(more, true);
    RequestWellFormed(history, prompt, true);
    SpoiledWires(history, content, calls, text, more);
    Assoc([SystemText(prompt)], ToWires(history, true), asked + tail);
    Assoc(before, asked + tail, rest);
    Assoc(asked, tail, rest);
    UnansweredCalls(before, content, calls, tail + rest);
    assert Request(spoiled, prompt, true) + rest == before + (asked + (tail + rest));
  }

  /** What a successful turn without tools stores: its answer, after the unoffered calls if there were any. */
  lemma UnofferedTurn(history: seq<Message>, prompt: string, model: Model, tools: Tools)
    requires Loop(history, prompt, false, model, tools).result.Success?
    ensures var o, reply := Loop(history, prompt, false, model, tools), model(0, Request(history, prompt, false));
            && reply.Answer? && reply.choices != []
            && (Dangling(history, prompt, false, model) ==>
                  var c := reply.choices[0];
                  CallsTools(c) && o.history == history + [AssistantCalls(c.content, c.toolCalls.value)]
                                                + [AssistantMessage(o.result.value)])
  {
    UnofferedIsOneRound(history, prompt, model, tools);
  }

  /**
   * Main result: after a successful turn without tools, each request of a next turn that offers tools
   * is well formed exactly when the model did not call tools it was not offered.
   */
  lemma NextTurnUnlessDangling(history: seq<Message>, first: Turn, second: Turn, r: seq<Wire>)
    requires Paired(history) && !first.offered && second.offered
    requires TurnOutcome(history, first).result.Success?
    requires r in TurnOutcome(TurnOutcome(history, first).history, second).requests
    ensures WellFormed(r, true) <==> !Dangling(history + [UserMessage(first.text)], first.prompt, false, first.model)
  {
    var start := history + [UserMessage(first.text)];
    UserPaired(history, first.text);
    if Dangling(start, first.prompt, false, first.model) {
      DanglingSpoils(start, first, second, r);
    } else {
      var stored := TurnOutcome(history, first).history;
      SuccessPaired(start, first.prompt, false, first.model, first.tools);
      UserPaired(stored, second.text);
      RequestsWellFormed(stored + [UserMessage(second.text)], second.prompt, true, second.model, second.tools);
    }
  }

  lemma DanglingSpoils(start: seq<Message>, first: Turn, second: Turn, r: seq<Wire>)
    requires Paired(start) && !first.offered && second.offered
    requires Dangling(start, first.prompt, false, first.model)
    requires Loop(start, first.prompt, false, first.model, first.tools).result.Success?
    requires r in TurnOutcome(Loop(start, first.prompt, false, first.model, first.tools).history, second).requests
    ensures !WellFormed(r, true)
  {
    var o := Loop(start, first.prompt, false, first.model, first.tools);
    var next := [UserMessage(second.text)];
    var request := Request(o.history + next, second.prompt, true);
    RequestsWellFormed(o.history + next, second.prompt, true, second.model, second.tools);
    assert r == request + r[|request|..];
    UnofferedTurn(start, first.prompt, first.model, first.tools);
    var c := first.model(0, Request(start, first.prompt, false)).choices[0];
    SpoiledForGood(start, c.content, c.toolCalls.value, o.result.value, next, second.prompt, r[|request|..]);
  }

  lemma UnofferedCallSucceeds(history: seq<Message>, t: Turn, c: Choice)
    requires !t.offered && CallsTools(c) && c.content.Some? && Acceptable(c.finish)
    requires t.model(0, Request(history + [UserMessage(t.text)], t.prompt, false)) == Answer([c])
    ensures TurnOutcome(history, t).result == Success(c.content.value)
    ensures Dangling(history + [UserMessage(t.text)], t.prompt, false, t.model)
  {
    UnofferedIsOneRound(history + [UserMessage(t.text)], t.prompt, t.model, t.tools);
  }

  /** The assumption on the model is needed: one reply with text and an unoffered call spoils every next request. */
  lemma DanglingCallSpoilsNextTurn(history: seq<Message>, first: Turn, second: Turn, c: Choice)
    requires Paired(history) && !first.offered && second.offered
    requires CallsTools(c) && c.content.Some? && Acceptable(c.finish)
    requires first.model(0, Request(history + [UserMessage(first.text)], first.prompt, false)) == Answer([c])
    ensures TurnOutcome(history, first).result.Success?
    ensures var requests := TurnOutcome(TurnOutcome(history, first).history, second).requests;
            requests != [] && forall r | r in requests :: !WellFormed(r, true)
  {
    UnofferedCallSucceeds(history, first, c);
    var stored := TurnOutcome(history, first).history;
    RequestsWellFormed(stored + [UserMessage(second.text)], second.prompt, true, second.model, second.tools);
    forall r | r in TurnOutcome(stored, second).requests ensures !WellFormed(r, true) {
      NextTurnUnlessDangling(history, first, second, r);
    }
  }
}
