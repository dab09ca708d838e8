/**
 * The agent loop: ask the model, run the tools it calls, ask again, until it answers with text.
 * The model and the tools are arbitrary functions of everything they are given.
 */
module AgentLoop {
  import opened Sequences
  import opened Wrappers
  import opened Conversation

  const MAX_ITERATIONS: nat := 20

  datatype FinishReason = Stop | ToolCalls | FunctionCall | Length | ContentFilter

  datatype Choice = Choice(finish: Option<FinishReason>, content: Option<string>, toolCalls: Option<seq<ToolCall>>)

  datatype Reply = Interrupted | Failed(error: string) | Answer(choices: seq<Choice>)

  datatype ToolOutcome = ToolInterrupted | Returned(text: string)

  type Model = (nat, seq<Wire>) -> Reply

  type Tools = (nat, nat, ToolCall) -> ToolOutcome

  datatype Reason = Provider(error: string) | NoChoices | UnexpectedFinish | UnofferedCalls | TooManyIterations

  datatype LoopError = Cancelled | LlmError(reason: Reason)

  datatype Outcome = Outcome(result: Result<string, LoopError>, history: seq<Message>, requests: seq<seq<Wire>>)

  predicate Acceptable(finish: Option<FinishReason>) {
    finish.None? || finish.value.Stop? || finish.value.ToolCalls? || finish.value.FunctionCall?
  }

  predicate CallsTools(c: Choice) {
    c.toolCalls.Some? && c.toolCalls.value != []
  }

  /** The results of the first calls, up to the one that is interrupted. */
  function Results(calls: seq<ToolCall>, tools: Tools, iteration: nat): (r: seq<Message>)
    ensures |r| <= |calls|
  {
    if calls == [] then []
    else
      var last := |calls| - 1;
      var r := Results(calls[..last], tools, iteration);
      if |r| < last then r
      else match tools(iteration, last, calls[last])
        case ToolInterrupted => r
        case Returned(text) => r + [ToolResultMessage(calls[last].id, text)]
  }

  /** Each result answers its call, and only an interrupted call cuts them short. */
  lemma {:induction false} ResultsAnswer(calls: seq<ToolCall>, tools: Tools, iteration: nat)
    ensures var r := Results(calls, tools, iteration);
            && (forall k | 0 <= k < |r| ::
                  tools(iteration, k, calls[k]).Returned?
                  && r[k] == ToolResultMessage(calls[k].id, tools(iteration, k, calls[k]).text))
            && (|r| < |calls| ==> tools(iteration, |r|, calls[|r|]).ToolInterrupted?)
  {
    if calls != [] {
      ResultsAnswer(calls[..|calls| - 1], tools, iteration);
    }
  }

  /** How one iteration ends: with the outcome of the loop, or with a longer history to go on from. */
  datatype Verdict =
    | Done(result: Result<string, LoopError>, history: seq<Message>)
    | Again(history: seq<Message>)

  function ToolRound(history: seq<Message>, c: Choice, offered: bool, tools: Tools, n: nat): Verdict
    requires CallsTools(c)
  {
    var calls := c.toolCalls.value;
    var asked := history + [AssistantCalls(c.content, calls)];
    if !offered then
      if c.content.Some? then Done(Success(c.content.value), asked + [AssistantMessage(c.content.value)])
      else Done(Failure(LlmError(UnofferedCalls)), asked)
    else
      var results := Results(calls, tools, n);
      if |results| < |calls| then Done(Failure(Cancelled), asked + results) else Again(asked + results)
  }

  function Iterate(history: seq<Message>, reply: Reply, offered: bool, tools: Tools, n: nat): Verdict {
    match reply
    case Interrupted => Done(Failure(Cancelled), history)
    case Failed(error) => Done(Failure(LlmError(Provider(error))), history)
    case Answer(choices) =>
      if choices == [] then Done(Failure(LlmError(NoChoices)), history)
      else if !Acceptable(choices[0].finish) then Done(Failure(LlmError(UnexpectedFinish)), history)
      else if CallsTools(choices[0]) then ToolRound(history, choices[0], offered, tools, n)
      else
        var text := if choices[0].content.Some? then choices[0].content.value else "";
        Done(Success(text), history + [AssistantMessage(text)])
  }

  /** What an iteration makes of the history, given its number. */
  type Round = (nat, seq<Message>) -> Verdict

  function RoundOf(prompt: string, offered: bool, model: Model, tools: Tools): Round {
    (n: nat, history: seq<Message>) => Iterate(history, model(n, Request(history, prompt, offered)), offered, tools, n)
  }

  /** Where the loop stands after some iterations: done, or going on with what was sent so far. */
  datatype Progress = Stopped(outcome: Outcome) | Going(history: seq<Message>, requests: seq<seq<Wire>>)

  function Advance(p: Progress, prompt: string, offered: bool, round: Round, n: nat): Progress {
    match p
    case Stopped(_) => p
    case Going(history, requests) =>
      var sent := requests + [Request(history, prompt, offered)];
      match round(n, history)
      case Done(result, end) => Stopped(Outcome(result, end, sent))
      case Again(longer) => Going(longer, sent)
  }

  function ProgressAt(start: seq<Message>, prompt: string, offered: bool, round: Round, n: nat): Progress
    decreases n, start
  {
    if n == 0 then Going(start, [])
    else Advance(ProgressAt(start, prompt, offered, round, n - 1), prompt, offered, round, n - 1)
  }

  function Loop(start: seq<Message>, prompt: string, offered: bool, model: Model, tools: Tools): Outcome {
    match ProgressAt(start, prompt, offered, RoundOf(prompt, offered, model, tools), MAX_ITERATIONS)
    case Stopped(outcome) => outcome
    case Going(history, requests) => Outcome(Failure(LlmError(TooManyIterations)), history, requests)
  }

  /** An iteration that stops the loop decides its outcome. */
  lemma {:induction false} StoppedStays(
      start: seq<Message>, prompt: string, offered: bool, round: Round, n: nat, m: nat)
    requires n <= m && ProgressAt(start, prompt, offered, round, n).Stopped?
    ensures ProgressAt(start, prompt, offered, round, m) == ProgressAt(start, prompt, offered, round, n)
    decreases m
  {
    if n < m {
      StoppedStays(start, prompt, offered, round, n, m - 1);
    }
  }

  /** Runs the calls of one message in order; `done` says that none was interrupted. */
  method RunTools(calls: seq<ToolCall>, tools: Tools, iteration: nat) returns (results: seq<Message>, done: bool)
    ensures results == Results(calls, tools, iteration) && done == (|results| == |calls|)
  {
    results := [];
    for k := 0 to |calls|
      invariant results == Results(calls[..k], tools, iteration) && |results| == k
    {
      assert calls[..k + 1][..k] == calls[..k];
      var outcome := tools(iteration, k, calls[k]);
      if outcome.ToolInterrupted? {
        InterruptedStays(calls, tools, iteration, k + 1);
        return results, false;
      }
      results := results + [ToolResultMessage(calls[k].id, outcome.text)];
    }
    assert calls[..|calls|] == calls;
    done := true;
  }

  lemma {:induction false} InterruptedStays(calls: seq<ToolCall>, tools: Tools, iteration: nat, k: nat)
    requires k <= |calls| && |Results(calls[..k], tools, iteration)| < k
    ensures Results(calls, tools, iteration) == Results(calls[..k], tools, iteration)
    decreases |calls|
  {
    if k == |calls| {
      assert calls[..k] == calls;
    } else {
      var front := calls[..|calls| - 1];
      assert front[..k] == calls[..k];
      InterruptedStays(front, tools, iteration, k);
    }
  }

  method HandleReply(start: seq<Message>, reply: Reply, offered: bool, tools: Tools, n: nat) returns (v: Verdict)
    ensures v == Iterate(start, reply, offered, tools, n)
  {
    var history := start;
    match reply {
      case Interrupted => return Done(Failure(Cancelled), history);
      case Failed(error) => return Done(Failure(LlmError(Provider(error))), history);
      case Answer(choices) =>
        if choices == [] {
          return Done(Failure(LlmError(NoChoices)), history);
        }
        var choice := choices[0];
        if !Acceptable(choice.finish) {
          return Done(Failure(LlmError(UnexpectedFinish)), history);
        }
        if CallsTools(choice) {
          var calls := choice.toolCalls.value;
          history := history + [AssistantCalls(choice.content, calls)];
          if !offered {
            if choice.content.Some? {
              history := history + [AssistantMessage(choice.content.value)];
              return Done(Success(choice.content.value), history);
            }
            return Done(Failure(LlmError(UnofferedCalls)), history);
          }
          var results, done := RunTools(calls, tools, n);
          history := history + results;
          return if done then Again(history) else Done(Failure(Cancelled), history);
        }
        var text := if choice.content.Some? then choice.content.value else "";
        return Done(Success(text), history + [AssistantMessage(text)]);
    }
  }

  method RunRound(history: seq<Message>, prompt: string, offered: bool, model: Model, tools: Tools, n: nat)
    returns (request: seq<Wire>, verdict: Verdict)
    ensures request == Request(history, prompt, offered)
    ensures verdict == RoundOf(prompt, offered, model, tools)(n, history)
  {
    request := BuildMessages(history, prompt, offered);
    var reply := model(n, request);
    verdict := HandleReply(history, reply, offered, tools, n);
  }

  method Run(start: seq<Message>, prompt: string, offered: bool, model: Model, tools: Tools)
    returns (result: Result<string, LoopError>, history: seq<Message>, requests: seq<seq<Wire>>)
    ensures Outcome(result, history, requests) == Loop(start, prompt, offered, model, tools)
  {
    history, requests := start, [];
    ghost var round := RoundOf(prompt, offered, model, tools);
    for n: nat := 0 to MAX_ITERATIONS
      invariant ProgressAt(start, prompt, offered, round, n) == Going(history, requests)
    {
      var request, verdict := RunRound(history, prompt, offered, model, tools, n);
      requests := requests + [request];
      match verdict {
        case Done(r, end) =>
          StoppedStays(start, prompt, offered, round, n + 1, MAX_ITERATIONS);
          return r, end, requests;
        case Again(longer) => history := longer;
      }
    }
    result := Failure(LlmError(TooManyIterations));
  }

  // ----- One iteration -----

  lemma AgainPaired(history: seq<Message>, reply: Reply, offered: bool, tools: Tools, n: nat)
    requires Paired(history) && Iterate(history, reply, offered, tools, n).Again?
    ensures Paired(Iterate(history, reply, offered, tools, n).history)
  {
    var c := reply.choices[0];
    ResultsAnswer(c.toolCalls.value, tools, n);
    ExchangePaired(c.content, c.toolCalls.value, Results(c.toolCalls.value, tools, n));
    var exchange := [AssistantCalls(c.content, c.toolCalls.value)] + Results(c.toolCalls.value, tools, n);
    PairedAppend(history, exchange);
    Assoc(history, [AssistantCalls(c.content, c.toolCalls.value)], Results(c.toolCalls.value, tools, n));
  }

  lemma ExchangePaired(content: Option<string>, calls: seq<ToolCall>, results: seq<Message>)
    requires calls != [] && |results| == |calls| && forall k | 0 <= k < |calls| :: Answers(results[k], calls[k])
    ensures Paired([AssistantCalls(content, calls)] + results)
  {
    var exchange := [AssistantCalls(content, calls)] + results;
    assert exchange[1 + |calls|..] == [];
    assert forall k | 0 <= k < |calls| :: exchange[1 + k] == results[k];
  }

  lemma DoneSuccess(history: seq<Message>, reply: Reply, tools: Tools, n: nat)
    requires Paired(history)
    requires Iterate(history, reply, true, tools, n).Done? && Iterate(history, reply, true, tools, n).result.Success?
    ensures var v := Iterate(history, reply, true, tools, n);
            v.history == history + [AssistantMessage(v.result.value)] && Paired(v.history)
  {
    PlainAnswer(history, Iterate(history, reply, true, tools, n).result.value);
  }

  lemma PlainAnswer(history: seq<Message>, text: string)
    requires Paired(history)
    ensures Paired(history + [AssistantMessage(text)])
  {
    PairedAppend(history, [AssistantMessage(text)]);
    assert [AssistantMessage(text)][1..] == [];
  }

  /** A round of tools lengthens the next request and changes nothing of what was sent before. */
  lemma AgainRequest(history: seq<Message>, prompt: string, reply: Reply, offered: bool, tools: Tools, n: nat)
    requires Iterate(history, reply, offered, tools, n).Again?
    ensures Request(history, prompt, offered)
              < Request(Iterate(history, reply, offered, tools, n).history, prompt, offered)
  {
    var c := reply.choices[0];
    var calls, results := [AssistantCalls(c.content, c.toolCalls.value)], Results(c.toolCalls.value, tools, n);
    ToWiresAppend(history + calls, results, true);
    ToWiresAppend(history, calls, true);
    SingleToWires(calls[0], true);
  }

  // ----- What every run of the loop guarantees -----

  /** The result is the last message, and it was added. */
  predicate EndsWithAnswer(history: seq<Message>, result: Result<string, LoopError>, end: seq<Message>) {
    result.Success? ==> |history| < |end| && end[|end| - 1] == AssistantMessage(result.value)
  }

  /** An iteration only adds; going on, it adds whole exchanges and so lengthens the next request. */
  predicate Advances(history: seq<Message>, prompt: string, offered: bool, v: Verdict) {
    && history <= v.history
    && (v.Done? ==> EndsWithAnswer(history, v.result, v.history))
    && (v.Again? ==> Request(history, prompt, offered) < Request(v.history, prompt, offered))
    && (offered && Paired(history) && (v.Again? || v.result.Success?) ==> Paired(v.history))
  }

  ghost predicate AlwaysAdvances(prompt: string, offered: bool, round: Round) {
    forall n: nat, history :: Advances(history, prompt, offered, round(n, history))
  }

  lemma IterationExtends(history: seq<Message>, reply: Reply, offered: bool, tools: Tools, n: nat)
    ensures var v := Iterate(history, reply, offered, tools, n);
            history <= v.history && (v.Done? ==> EndsWithAnswer(history, v.result, v.history))
  {
  }

  lemma IterationAdvances(history: seq<Message>, prompt: string, reply: Reply, offered: bool, tools: Tools, n: nat)
    ensures Advances(history, prompt, offered, Iterate(history, reply, offered, tools, n))
  {
    var v := Iterate(history, reply, offered, tools, n);
    IterationExtends(history, reply, offered, tools, n);
    if v.Again? {
      AgainRequest(history, prompt, reply, offered, tools, n);
      if Paired(history) {
        AgainPaired(history, reply, offered, tools, n);
      }
    } else if offered && Paired(history) && v.result.Success? {
      DoneSuccess(history, reply, tools, n);
    }
  }

  lemma RoundsAdvance(prompt: string, offered: bool, model: Model, tools: Tools)
    ensures AlwaysAdvances(prompt, offered, RoundOf(prompt, offered, model, tools))
  {
    var round := RoundOf(prompt, offered, model, tools);
    forall n: nat, history ensures Advances(history, prompt, offered, round(n, history)) {
      IterationAdvances(history, prompt, model(n, Request(history, prompt, offered)), offered, tools, n);
    }
  }

  /** Requests that begin with a given one, each repeating the one before and adding to it. */
  predicate Growing(requests: seq<seq<Wire>>, first: seq<Wire>) {
    && requests != [] && requests[0] == first
    && forall i, j | 0 <= i < j < |requests| :: requests[i] < requests[j]
  }

  lemma GrowingFurther(requests: seq<seq<Wire>>, first: seq<Wire>, next: seq<Wire>)
    requires Growing(requests, first) && requests[|requests| - 1] < next
    ensures Growing(requests + [next], first)
  {
  }

  ghost predicate AllWellFormed(requests: seq<seq<Wire>>, offered: bool) {
    forall r | r in requests :: WellFormed(r, offered)
  }

  /** What holds of the loop after `n` iterations. */
  ghost predicate Sound(start: seq<Message>, prompt: string, offered: bool, p: Progress, n: nat) {
    match p
    case Going(history, requests) =>
      && start <= history && |requests| == n
      && Growing(requests + [Request(history, prompt, offered)], Request(start, prompt, offered))
      && ((offered ==> Paired(start)) ==> (offered ==> Paired(history)) && AllWellFormed(requests, offered))
    case Stopped(o) =>
      && start <= o.history && EndsWithAnswer(start, o.result, o.history) && |o.requests| <= n
      && Growing(o.requests, Request(start, prompt, offered))
      && ((offered ==> Paired(start)) ==>
            (offered && o.result.Success? ==> Paired(o.history)) && AllWellFormed(o.requests, offered))
  }

  lemma AdvanceSound(start: seq<Message>, prompt: string, offered: bool, round: Round, p: Progress, n: nat)
    requires AlwaysAdvances(prompt, offered, round) && Sound(start, prompt, offered, p, n)
    ensures Sound(start, prompt, offered, Advance(p, prompt, offered, round, n), n + 1)
  {
    if p.Going? {
      var v, request := round(n, p.history), Request(p.history, prompt, offered);
      assert Advances(p.history, prompt, offered, v);
      if offered ==> Paired(start) {
        RequestWellFormed(p.history, prompt, offered);
      }
      if v.Again? {
        GrowingFurther(p.requests + [request], Request(start, prompt, offered), Request(v.history, prompt, offered));
      }
    }
  }

  lemma {:induction false} ProgressSound(start: seq<Message>, prompt: string, offered: bool, round: Round, n: nat)
    requires AlwaysAdvances(prompt, offered, round)
    ensures Sound(start, prompt, offered, ProgressAt(start, prompt, offered, round, n), n)
  {
    if n == 0 {
      assert [] + [Request(start, prompt, offered)] == [Request(start, prompt, offered)];
    } else {
      ProgressSound(start, prompt, offered, round, n - 1);
      AdvanceSound(start, prompt, offered, round, ProgressAt(start, prompt, offered, round, n - 1), n - 1);
    }
  }

  /** What holds of a finished loop; one that ran out of iterations has no result. */
  ghost predicate SoundOutcome(start: seq<Message>, prompt: string, offered: bool, o: Outcome) {
    && start <= o.history && EndsWithAnswer(start, o.result, o.history)
    && |o.requests| <= MAX_ITERATIONS && Growing(o.requests, Request(start, prompt, offered))
    && ((offered ==> Paired(start)) ==>
          (offered && o.result.Success? ==> Paired(o.history)) && AllWellFormed(o.requests, offered))
  }

  lemma LoopSound(start: seq<Message>, prompt: string, offered: bool, model: Model, tools: Tools)
    ensures SoundOutcome(start, prompt, offered, Loop(start, prompt, offered, model, tools))
  {
    var round := RoundOf(prompt, offered, model, tools);
    RoundsAdvance(prompt, offered, model, tools);
    ProgressSound(start, prompt, offered, round, MAX_ITERATIONS);
    var p := ProgressAt(start, prompt, offered, round, MAX_ITERATIONS);
    if p.Going? {
      GrowingBefore(p.requests, Request(start, prompt, offered), Request(p.history, prompt, offered));
    }
  }

  lemma GrowingBefore(requests: seq<seq<Wire>>, first: seq<Wire>, last: seq<Wire>)
    requires requests != [] && Growing(requests + [last], first)
    ensures Growing(requests, first)
  {
    var all := requests + [last];
    assert forall i | 0 <= i < |requests| :: all[i] == requests[i];
  }

  /** Main result: the old history stays a prefix, and a successful run ends with its own answer. */
  lemma HistoryKept(history: seq<Message>, prompt: string, offered: bool, model: Model, tools: Tools)
    ensures var o := Loop(history, prompt, offered, model, tools);
            history <= o.history && EndsWithAnswer(history, o.result, o.history)
  {
    LoopSound(history, prompt, offered, model, tools);
  }

  /**
   * Main result: a run sends one to twenty requests, the first made of the history it starts from and
   * each repeating those before and adding to them; when that history is paired or no tools are
   * offered, every one is well formed.
   */
  lemma RequestsWellFormed(history: seq<Message>, prompt: string, offered: bool, model: Model, tools: Tools)
    ensures var requests := Loop(history, prompt, offered, model, tools).requests;
            && 1 <= |requests| <= MAX_ITERATIONS && requests[0] == Request(history, prompt, offered)
            && (forall i, j | 0 <= i < j < |requests| :: requests[i] < requests[j])
            && ((offered ==> Paired(history)) ==> forall r | r in requests :: WellFormed(r, offered))
  {
    LoopSound(history, prompt, offered, model, tools);
  }

  /** The model called tools although none were offered, and the run still succeeded. */
  predicate Dangling(history: seq<Message>, prompt: string, offered: bool, model: Model) {
    var reply := model(0, Request(history, prompt, offered));
    !offered && reply.Answer? && reply.choices != [] && CallsTools(reply.choices[0])
  }

  /** Main result: a successful run leaves a paired history exactly when no tools that were not offered were called. */
  lemma SuccessPaired(history: seq<Message>, prompt: string, offered: bool, model: Model, tools: Tools)
    requires Paired(history)
    requires Loop(history, prompt, offered, model, tools).result.Success?
    ensures Paired(Loop(history, prompt, offered, model, tools).history) <==> !Dangling(history, prompt, offered, model)
  {
    if offered {
      LoopSound(history, prompt, offered, model, tools);
    } else {
      UnofferedSuccess(history, prompt, model, tools);
    }
  }

  /** Without tools the first reply decides. */
  lemma UnofferedIsOneRound(history: seq<Message>, prompt: string, model: Model, tools: Tools)
    ensures var v := Iterate(history, model(0, Request(history, prompt, false)), false, tools, 0);
            && v.Done?
            && Loop(history, prompt, false, model, tools)
               == Outcome(v.result, v.history, [Request(history, prompt, false)])
  {
    var round := RoundOf(prompt, false, model, tools);
    var v := Iterate(history, model(0, Request(history, prompt, false)), false, tools, 0);
    assert round(0, history) == v;
    assert ProgressAt(history, prompt, false, round, 0) == Going(history, []);
    assert [] + [Request(history, prompt, false)] == [Request(history, prompt, false)];
    StoppedStays(history, prompt, false, round, 1, MAX_ITERATIONS);
  }

  lemma UnofferedSuccess(history: seq<Message>, prompt: string, model: Model, tools: Tools)
    requires Paired(history) && Loop(history, prompt, false, model, tools).result.Success?
    ensures Paired(Loop(history, prompt, false, model, tools).history) <==> !Dangling(history, prompt, false, model)
  {
    UnofferedIsOneRound(history, prompt, model, tools);
    var reply := model(0, Request(history, prompt, false));
    var text := Iterate(history, reply, false, tools, 0).result.value;
    if CallsTools(reply.choices[0]) {
      DanglingUnpaired(history, reply.choices[0], text);
    } else {
      PlainAnswer(history, text);
    }
  }

  lemma DanglingUnpaired(history: seq<Message>, c: Choice, text: string)
    requires Paired(history) && CallsTools(c)
    ensures !Paired(history + [AssistantCalls(c.content, c.toolCalls.value)] + [AssistantMessage(text)])
  {
    var left := [AssistantCalls(c.content, c.toolCalls.value), AssistantMessage(text)];
    assert !Answers(left[1 + 0], c.toolCalls.value[0]);
    PairedAppend(history, left);
    assert history + left == history + [AssistantCalls(c.content, c.toolCalls.value)] + [AssistantMessage(text)];
  }

  // ----- Across turns and mode switches -----

  datatype Turn = Turn(text: string, prompt: string, offered: bool, model: Model, tools: Tools)

  function TurnOutcome(history: seq<Message>, t: Turn): Outcome {
    Loop(history + [UserMessage(t.text)], t.prompt, t.offered, t.model, t.tools)
  }

  /** Only successful turns are stored; each may offer tools or not. */
  function Converse(history: seq<Message>, turns: seq<Turn>): seq<Message> {
    if turns == [] then history
    else
      var before := Converse(history, turns[..|turns| - 1]);
      var o := TurnOutcome(before, turns[|turns| - 1]);
      if o.result.Success? then o.history else before
  }

  /** The model calls tools only when they are offered. */
  ghost predicate Honest(t: Turn) {
    t.offered || forall n, messages ::
      var reply := t.model(n, messages); reply.Answer? && reply.choices != [] ==> !CallsTools(reply.choices[0])
  }

  lemma UserPaired(history: seq<Message>, text: string)
    requires Paired(history)
    ensures Paired(history + [UserMessage(text)])
  {
    PairedAppend(history, [UserMessage(text)]);
    assert [UserMessage(text)][1..] == [];
  }

  lemma {:induction false} ConversePaired(history: seq<Message>, turns: seq<Turn>)
    requires Paired(history) && forall t | t in turns :: Honest(t)
    ensures Paired(Converse(history, turns))
  {
    if turns != [] {
      var front, last := turns[..|turns| - 1], turns[|turns| - 1];
      ConversePaired(history, front);
      var before := Converse(history, front);
      UserPaired(before, last.text);
      if TurnOutcome(before, last).result.Success? {
        assert Honest(last);
        SuccessPaired(before + [UserMessage(last.text)], last.prompt, last.offered, last.model, last.tools);
      }
    }
  }

  /** Main result: across any turns, with tools or without, every request to the model is well formed. */
  lemma EveryRequestWellFormed(history: seq<Message>, turns: seq<Turn>, t: Turn)
    requires Paired(history) && forall u | u in turns :: Honest(u)
    ensures forall r | r in TurnOutcome(Converse(history, turns), t).requests :: WellFormed(r, t.offered)
  {
    ConversePaired(history, turns);
    UserPaired(Converse(history, turns), t.text);
    RequestsWellFormed(Converse(history, turns) + [UserMessage(t.text)], t.prompt, t.offered, t.model, t.tools);
  }
}
