/**
 * What a run of the agent loop sends and returns, told by the model's replies and the tools' results
 * alone: each request repeats the one before with the model's calls and their results, and the last
 * reply decides how the run ends.
 */
module Answers {
  import opened Sequences
  import opened Wrappers
  import opened Conversation
  import opened AgentLoop

  /** The model called tools that were offered, and every call returned; `next` carries calls and results. */
  predicate Continues(request: seq<Wire>, reply: Reply, offered: bool, tools: Tools, n: nat, next: seq<Wire>) {
    && offered && reply.Answer? && reply.choices != []
    && var c := reply.choices[0];
       && (c.finish.None? || c.finish.value.Stop? || c.finish.value.ToolCalls? || c.finish.value.FunctionCall?)
       && c.toolCalls.Some? && c.toolCalls.value != []
       && var calls := c.toolCalls.value;
          && |next| == |request| + 1 + |calls|
          && next[..|request|] == request && next[|request|] == AssistantText(c.content, Some(calls))
          && forall k | 0 <= k < |calls| ::
               tools(n, k, calls[k]).Returned?
               && next[|request| + 1 + k] == ToolText(calls[k].id, tools(n, k, calls[k]).text)
  }

  /** How a run ends whose last reply, to request number `n`, is this one. */
  ghost predicate Concludes(reply: Reply, offered: bool, tools: Tools, n: nat, result: Result<string, LoopError>) {
    match reply
    case Interrupted => result == Failure(Cancelled)
    case Failed(error) => result == Failure(LlmError(Provider(error)))
    case Answer(choices) =>
      if choices == [] then result == Failure(LlmError(NoChoices))
      else
        var c := choices[0];
        if c.finish.Some? && (c.finish.value.Length? || c.finish.value.ContentFilter?) then
          result == Failure(LlmError(UnexpectedFinish))
        else if c.toolCalls.None? || c.toolCalls.value == [] then
          result == Success(if c.content.Some? then c.content.value else "")
        else if !offered then
          result == if c.content.Some? then Success(c.content.value) else Failure(LlmError(UnofferedCalls))
        else if exists k: nat ::
                  k < |c.toolCalls.value| && tools(n, k, c.toolCalls.value[k]).ToolInterrupted? then
          result == Failure(Cancelled)
        else n == 19 && result == Failure(LlmError(TooManyIterations))
  }

  /** What is stored then, as a next request would repeat it: on success the answer, after calls not offered. */
  ghost predicate Stores(request: seq<Wire>, reply: Reply, result: Result<string, LoopError>, end: seq<Wire>) {
    if result.Failure? then request <= end
    else
      && reply.Answer? && reply.choices != []
      && var c := reply.choices[0];
         var unoffered := if c.toolCalls.None? || c.toolCalls.value == [] then [] else [AssistantText(c.content, None)];
         end == request + unoffered + [AssistantText(Some(result.value), None)]
  }

  // ----- One round -----

  /** The wires of the results, one for each. */
  lemma {:induction false} ResultWires(results: seq<Message>, ids: seq<string>, texts: seq<string>)
    requires |results| == |ids| == |texts|
    requires forall k | 0 <= k < |results| :: results[k] == ToolResultMessage(ids[k], texts[k])
    ensures |ToWires(results, true)| == |results|
    ensures forall k | 0 <= k < |results| :: ToWires(results, true)[k] == ToolText(ids[k], texts[k])
  {
    if results != [] {
      var last := |results| - 1;
      ResultWires(results[..last], ids[..last], texts[..last]);
    }
  }

  /** A round of tools in the next request. */
  lemma RoundWires(history: seq<Message>, prompt: string, content: Option<string>, calls: seq<ToolCall>,
                   results: seq<Message>)
    ensures Request(history + [AssistantCalls(content, calls)] + results, prompt, true)
            == Request(history, prompt, true) + [AssistantText(content, Some(calls))] + ToWires(results, true)
  {
    var asked, call := [AssistantCalls(content, calls)], [AssistantText(content, Some(calls))];
    SingleToWires(asked[0], true);
    ToWiresAppend(history + asked, results, true);
    ToWiresAppend(history, asked, true);
    Assoc([SystemText(prompt)], ToWires(history, true), call);
    Assoc([SystemText(prompt)], ToWires(history + asked, true), ToWires(results, true));
  }

  lemma AnsweredWires(calls: seq<ToolCall>, tools: Tools, n: nat)
    requires |Results(calls, tools, n)| == |calls|
    ensures var wires := ToWires(Results(calls, tools, n), true);
            && |wires| == |calls|
            && forall k | 0 <= k < |calls| ::
                 tools(n, k, calls[k]).Returned? && wires[k] == ToolText(calls[k].id, tools(n, k, calls[k]).text)
  {
    var results := Results(calls, tools, n);
    ResultsAnswer(calls, tools, n);
    var ids := seq(|calls|, k requires 0 <= k < |calls| => calls[k].id);
    var texts := seq(|calls|, k requires 0 <= k < |calls| && results[k].content.Some? => results[k].content.value);
    ResultWires(results, ids, texts);
  }

  lemma AgainShape(history: seq<Message>, reply: Reply, offered: bool, tools: Tools, n: nat)
    requires Iterate(history, reply, offered, tools, n).Again?
    ensures offered && reply.Answer? && reply.choices != []
    ensures var c := reply.choices[0];
            && (c.finish.None? || c.finish.value.Stop? || c.finish.value.ToolCalls? || c.finish.value.FunctionCall?)
            && c.toolCalls.Some? && c.toolCalls.value != []
            && |Results(c.toolCalls.value, tools, n)| == |c.toolCalls.value|
            && Iterate(history, reply, offered, tools, n).history
               == history + [AssistantCalls(c.content, c.toolCalls.value)] + Results(c.toolCalls.value, tools, n)
  {
  }

  lemma AgainContinues(history: seq<Message>, prompt: string, reply: Reply, offered: bool, tools: Tools, n: nat)
    requires Iterate(history, reply, offered, tools, n).Again?
    ensures Continues(Request(history, prompt, offered), reply, offered, tools, n,
                      Request(Iterate(history, reply, offered, tools, n).history, prompt, offered))
  {
    AgainShape(history, reply, offered, tools, n);
    var c := reply.choices[0];
    var calls := c.toolCalls.value;
    var results := Results(calls, tools, n);
    RoundWires(history, prompt, c.content, calls, results);
    AnsweredWires(calls, tools, n);
    WiresContinue(Request(history, prompt, true), reply, tools, n, ToWires(results, true));
  }

  lemma WiresContinue(request: seq<Wire>, reply: Reply, tools: Tools, n: nat, wires: seq<Wire>)
    requires reply.Answer? && reply.choices != []
    requires var c := reply.choices[0];
             && (c.finish.None? || c.finish.value.Stop? || c.finish.value.ToolCalls? || c.finish.value.FunctionCall?)
             && c.toolCalls.Some? && c.toolCalls.value != [] && |wires| == |c.toolCalls.value|
             && forall k | 0 <= k < |wires| ::
                  tools(n, k, c.toolCalls.value[k]).Returned?
                  && wires[k] == ToolText(c.toolCalls.value[k].id, tools(n, k, c.toolCalls.value[k]).text)
    ensures var c := reply.choices[0];
            Continues(request, reply, true, tools, n,
                      request + [AssistantText(c.content, Some(c.toolCalls.value))] + wires)
  {
    NextWires(request, AssistantText(reply.choices[0].content, Some(reply.choices[0].toolCalls.value)), wires);
  }

  lemma NextWires(request: seq<Wire>, call: Wire, results: seq<Wire>)
    ensures var next := request + [call] + results;
            && |next| == |request| + 1 + |results| && next[..|request|] == request && next[|request|] == call
            && forall k | 0 <= k < |results| :: next[|request| + 1 + k] == results[k]
  {
  }

  lemma RequestAppend(history: seq<Message>, more: seq<Message>, prompt: string, offered: bool)
    ensures Request(history + more, prompt, offered) == Request(history, prompt, offered) + ToWires(more, offered)
  {
    ToWiresAppend(history, more, offered);
    Assoc([SystemText(prompt)], ToWires(history, offered), ToWires(more, offered));
  }

  lemma AnswerWires(history: seq<Message>, text: string, prompt: string, offered: bool)
    ensures Request(history + [AssistantMessage(text)], prompt, offered)
            == Request(history, prompt, offered) + [AssistantText(Some(text), None)]
  {
    RequestAppend(history, [AssistantMessage(text)], prompt, offered);
    SingleToWires(AssistantMessage(text), offered);
  }

  lemma UnofferedWires(history: seq<Message>, content: Option<string>, calls: seq<ToolCall>, prompt: string)
    requires content.Some?
    ensures Request(history + [AssistantCalls(content, calls)], prompt, false)
            == Request(history, prompt, false) + [AssistantText(content, None)]
  {
    RequestAppend(history, [AssistantCalls(content, calls)], prompt, false);
    SingleToWires(AssistantCalls(content, calls), false);
  }

  /** What a round that ends the loop adds to the history. */
  lemma DoneShape(history: seq<Message>, reply: Reply, offered: bool, tools: Tools, n: nat)
    requires Iterate(history, reply, offered, tools, n).Done?
    ensures var v := Iterate(history, reply, offered, tools, n);
            if v.result.Failure? then history <= v.history
            else
              && reply.Answer? && reply.choices != []
              && var c, answer := reply.choices[0], [AssistantMessage(v.result.value)];
                 if c.toolCalls.None? || c.toolCalls.value == [] then v.history == history + answer
                 else !offered && c.content.Some?
                      && v.history == history + [AssistantCalls(c.content, c.toolCalls.value)] + answer
  {
  }

  lemma DoneStores(history: seq<Message>, prompt: string, reply: Reply, offered: bool, tools: Tools, n: nat)
    requires Iterate(history, reply, offered, tools, n).Done?
    ensures var v := Iterate(history, reply, offered, tools, n);
            Stores(Request(history, prompt, offered), reply, v.result, Request(v.history, prompt, offered))
  {
    DoneShape(history, reply, offered, tools, n);
    var v := Iterate(history, reply, offered, tools, n);
    EndStores(history, prompt, reply, offered, v.result, v.history);
  }

  lemma EndStores(history: seq<Message>, prompt: string, reply: Reply, offered: bool,
                  result: Result<string, LoopError>, end: seq<Message>)
    requires if result.Failure? then history <= end
             else
               && reply.Answer? && reply.choices != []
               && var c, answer := reply.choices[0], [AssistantMessage(result.value)];
                  if c.toolCalls.None? || c.toolCalls.value == [] then end == history + answer
                  else !offered && c.content.Some?
                       && end == history + [AssistantCalls(c.content, c.toolCalls.value)] + answer
    ensures Stores(Request(history, prompt, offered), reply, result, Request(end, prompt, offered))
  {
    if result.Failure? {
      assert end == history + end[|history|..];
      RequestAppend(history, end[|history|..], prompt, offered);
    } else {
      var c := reply.choices[0];
      if c.toolCalls.None? || c.toolCalls.value == [] {
        AnswerWires(history, result.value, prompt, offered);
      } else {
        AnswerWires(history + [AssistantCalls(c.content, c.toolCalls.value)], result.value, prompt, offered);
        UnofferedWires(history, c.content, c.toolCalls.value, prompt);
      }
    }
  }

  lemma DoneConcludes(history: seq<Message>, reply: Reply, offered: bool, tools: Tools, n: nat)
    requires Iterate(history, reply, offered, tools, n).Done?
    ensures Concludes(reply, offered, tools, n, Iterate(history, reply, offered, tools, n).result)
  {
    if reply.Answer? && reply.choices != [] && CallsTools(reply.choices[0]) {
      ResultsAnswer(reply.choices[0].toolCalls.value, tools, n);
    }
  }

  // ----- Every round -----

  ghost predicate RoundReplies(request: seq<Wire>, reply: Reply, offered: bool, tools: Tools, n: nat, v: Verdict,
                               next: seq<Wire>)
  {
    match v
    case Done(result, _) => Concludes(reply, offered, tools, n, result) && Stores(request, reply, result, next)
    case Again(_) => Continues(request, reply, offered, tools, n, next)
  }

  /** What each round of the loop makes of the model's reply. */
  ghost predicate Replies(prompt: string, offered: bool, model: Model, tools: Tools, round: Round) {
    forall n: nat, history ::
      var v, request := round(n, history), Request(history, prompt, offered);
      RoundReplies(request, model(n, request), offered, tools, n, v, Request(v.history, prompt, offered))
  }

  lemma RoundsReply(prompt: string, offered: bool, model: Model, tools: Tools)
    ensures Replies(prompt, offered, model, tools, RoundOf(prompt, offered, model, tools))
  {
    var round := RoundOf(prompt, offered, model, tools);
    forall n: nat, history
      ensures var v, request := round(n, history), Request(history, prompt, offered);
              RoundReplies(request, model(n, request), offered, tools, n, v, Request(v.history, prompt, offered))
    {
      var reply := model(n, Request(history, prompt, offered));
      if round(n, history).Done? {
        DoneConcludes(history, reply, offered, tools, n);
        DoneStores(history, prompt, reply, offered, tools, n);
      } else {
        AgainContinues(history, prompt, reply, offered, tools, n);
      }
    }
  }

  /** Each request but the last is continued by the next. */
  ghost predicate Chained(requests: seq<seq<Wire>>, offered: bool, model: Model, tools: Tools) {
    forall i: nat | i + 1 < |requests| ::
      Continues(requests[i], model(i, requests[i]), offered, tools, i, requests[i + 1])
  }

  ghost predicate Told(p: Progress, prompt: string, offered: bool, model: Model, tools: Tools, n: nat) {
    match p
    case Going(history, requests) =>
      |requests| == n && Chained(requests + [Request(history, prompt, offered)], offered, model, tools)
    case Stopped(o) =>
      && 1 <= |o.requests| <= n && Chained(o.requests, offered, model, tools)
      && Ends(o, prompt, offered, model, tools)
  }

  /** The last reply decides what is returned and stored. */
  ghost predicate Ends(o: Outcome, prompt: string, offered: bool, model: Model, tools: Tools)
    requires o.requests != []
  {
    var last := |o.requests| - 1;
    var reply := model(last, o.requests[last]);
    && Concludes(reply, offered, tools, last, o.result)
    && Stores(o.requests[last], reply, o.result, Request(o.history, prompt, offered))
  }

  lemma ChainedFurther(requests: seq<seq<Wire>>, next: seq<Wire>, offered: bool, model: Model, tools: Tools)
    requires requests != [] && Chained(requests, offered, model, tools)
    requires var last := |requests| - 1;
             Continues(requests[last], model(last, requests[last]), offered, tools, last, next)
    ensures Chained(requests + [next], offered, model, tools)
  {
    var all := requests + [next];
    forall i: nat | i + 1 < |all| ensures Continues(all[i], model(i, all[i]), offered, tools, i, all[i + 1]) {
      assert all[i] == requests[i];
      assert i + 1 < |requests| ==> all[i + 1] == requests[i + 1];
    }
  }

  lemma AdvanceTold(p: Progress, prompt: string, offered: bool, model: Model, tools: Tools, round: Round, n: nat)
    requires Replies(prompt, offered, model, tools, round) && Told(p, prompt, offered, model, tools, n)
    ensures Told(Advance(p, prompt, offered, round, n), prompt, offered, model, tools, n + 1)
  {
    if p.Going? {
      var v, request := round(n, p.history), Request(p.history, prompt, offered);
      var sent := p.requests + [request];
      assert sent[n] == request;
      if v.Again? {
        ChainedFurther(sent, Request(v.history, prompt, offered), offered, model, tools);
      }
    }
  }

  lemma {:induction false} ProgressTold(start: seq<Message>, prompt: string, offered: bool, model: Model,
                                        tools: Tools, round: Round, n: nat)
    requires Replies(prompt, offered, model, tools, round)
    ensures Told(ProgressAt(start, prompt, offered, round, n), prompt, offered, model, tools, n)
  {
    if n > 0 {
      ProgressTold(start, prompt, offered, model, tools, round, n - 1);
      AdvanceTold(ProgressAt(start, prompt, offered, round, n - 1), prompt, offered, model, tools, round, n - 1);
    }
  }

  lemma ChainedBefore(requests: seq<seq<Wire>>, last: seq<Wire>, offered: bool, model: Model, tools: Tools)
    requires requests != [] && Chained(requests + [last], offered, model, tools)
    ensures Chained(requests, offered, model, tools)
    ensures var n := |requests| - 1; Continues(requests[n], model(n, requests[n]), offered, tools, n, last)
  {
    var all, n := requests + [last], |requests| - 1;
    assert all[n] == requests[n] && all[n + 1] == last;
    forall i: nat | i + 1 < |requests|
      ensures Continues(requests[i], model(i, requests[i]), offered, tools, i, requests[i + 1])
    {
      assert all[i] == requests[i] && all[i + 1] == requests[i + 1];
    }
  }

  /** The twentieth reply still called tools. */
  lemma OutOfIterations(request: seq<Wire>, reply: Reply, offered: bool, tools: Tools, next: seq<Wire>)
    requires Continues(request, reply, offered, tools, 19, next)
    ensures Concludes(reply, offered, tools, 19, Failure(LlmError(TooManyIterations)))
  {
  }

  /**
   * Main result: every reply but the last called offered tools, and the next request repeats the one it
   * answered with those calls and their results; the last reply decides the result.
   */
  lemma ReplyByReply(start: seq<Message>, prompt: string, offered: bool, model: Model, tools: Tools)
    ensures var o := Loop(start, prompt, offered, model, tools);
            && o.requests != [] && Chained(o.requests, offered, model, tools)
            && Ends(o, prompt, offered, model, tools)
  {
    var round := RoundOf(prompt, offered, model, tools);
    RoundsReply(prompt, offered, model, tools);
    ProgressTold(start, prompt, offered, model, tools, round, 20);
    var p := ProgressAt(start, prompt, offered, round, 20);
    if p.Going? {
      ChainedBefore(p.requests, Request(p.history, prompt, offered), offered, model, tools);
      OutOfIterations(p.requests[19], model(19, p.requests[19]), offered, tools, Request(p.history, prompt, offered));
    }
  }

  /**
   * Main result: a run succeeds exactly when the reply to its last request is a regular answer that calls
   * no tools, or one with text whose calls were not offered; its result is that text, or nothing
   * exactly when the answer has none.
   */
  lemma SuccessIsTheAnswer(start: seq<Message>, prompt: string, offered: bool, model: Model, tools: Tools)
    ensures var o := Loop(start, prompt, offered, model, tools);
            && o.requests != []
            && var reply := model(|o.requests| - 1, o.requests[|o.requests| - 1]);
               && (o.result.Success? <==>
                     && reply.Answer? && reply.choices != []
                     && var c := reply.choices[0];
                        && (|| c.finish.None? || c.finish.value.Stop? || c.finish.value.ToolCalls?
                            || c.finish.value.FunctionCall?)
                        && (c.toolCalls.None? || c.toolCalls.value == [] || (!offered && c.content.Some?)))
               && (o.result.Success? ==>
                     match reply.choices[0].content
                     case Some(text) => o.result.value == text
                     case None => o.result.value == "")
  {
    ReplyByReply(start, prompt, offered, model, tools);
  }
}
