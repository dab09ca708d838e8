/**
 * What comes back to the program in the sandbox: each call is answered with exactly the registry's
 * result, or with the first of five errors; the calls and the final output reach the harness as made.
 */
module ToolReplies {
  import opened Truncation
  import opened Utf8
  import opened Wrappers
  import opened ToolIpc

  /** The first thing wrong with the call: its key, its size, the policy, the registry, the result's size. */
  function FirstError(h: Host, c: Call, o: Outcome): Option<Text> {
    var key := h.parseKey(c.key);
    if key.Failure? then Some(key.error)
    else if h.jsonSize(c.params) > 131072 then Some(h.paramsTooLarge)
    else if h.policy.Some? && h.policy.value(key.value, c.params).Failure? then
      Some(h.policy.value(key.value, c.params).error)
    else if o.Refused? then Some(o.error)
    else if o.Returned? && h.jsonSize(o.result) > 131072 then Some(h.resultTooLarge)
    else None
  }

  /** The call is answered by its error, cut to 4096 bytes, or else by what the registry returned. */
  predicate IsReplyTo(h: Host, c: Call, o: Outcome, r: Reply) {
    var error := FirstError(h, c, o);
    && r.id == c.id
    && match r
       case ToolResult(_, result) => error == None && o == Returned(result)
       case ToolError(_, text) => error.Some? && text == Truncate(error.value, 4096, h.truncationMark)
  }

  /** The registry was called and did not come back. */
  predicate CutOff(h: Host, c: Call, o: Outcome) {
    FirstError(h, c, o).None? && o.Interrupted?
  }

  lemma AnswerIsReply(h: Host, c: Call, o: Outcome)
    ensures CutOff(h, c, o) <==> Cleared(h, c) && o.Interrupted?
    ensures !CutOff(h, c, o) ==> forall r :: IsReplyTo(h, c, o, r) <==> r == Answer(h, c, o)
  {
  }

  /** The reply that is sent: the right one, on a line within its limit, and the pipe took it. */
  predicate Repliable(h: Host, c: Call, t: Turn, r: Reply) {
    IsReplyTo(h, c, t.outcome, r) && h.lineSize(r) <= 262144 && t.written
  }

  /** How serving the call numbered `n` ends the session instead. */
  ghost predicate StopsAt(h: Host, n: nat, c: Call, t: Turn, end: End) {
    if n >= 64 then end == LimitExceeded
    else if CutOff(h, c, t.outcome) then end == Cancelled
    else if exists r :: IsReplyTo(h, c, t.outcome, r) && h.lineSize(r) > 262144 then end == ReplyTooLong
    else !t.written && end == WriteFailed
  }

  lemma HandledRightly(h: Host, n: nat, c: Call, t: Turn)
    ensures match Handle(h, n, c, t.outcome, t.written)
            case Replied(r, _) => n < 64 && Repliable(h, c, t, r)
            case Stopped(end, _) => StopsAt(h, n, c, t, end)
  {
    AnswerIsReply(h, c, t.outcome);
  }

  // ----- Every run -----

  ghost predicate AllRepliable(h: Host, calls: seq<Call>, served: seq<Turn>, replies: seq<Reply>) {
    && |replies| <= |served| <= |calls| && |replies| <= 64
    && forall i | 0 <= i < |replies| :: Repliable(h, calls[i], served[i], replies[i])
  }

  /** Every reply received, or on its way, is the right one; a call without one ended the session. */
  ghost predicate RepliesRight(h: Host, s: Session) {
    && |s.served| == s.seen && |s.received| + |s.down| <= s.seen <= |s.received| + |s.down| + 1
    && AllRepliable(h, s.issued, s.served, s.received + s.down)
    && (s.seen > |s.received| + |s.down| ==>
          s.end.Some? && StopsAt(h, s.seen - 1, s.issued[s.seen - 1], s.served[s.seen - 1], s.end.value))
  }

  /** The harness ends with the output the program finished with. */
  ghost predicate FinalRight(s: Session) {
    && (forall l | l in s.up && l.DoneLine? :: s.final == Some((l.output, l.error)))
    && (s.end.Some? && s.end.value.Finished? ==> s.final == Some((s.end.value.output, s.end.value.error)))
    && (s.final.Some? ==> s.runner.Exited?)
  }

  lemma ServedRight(h: Host, s: Session, e: Event)
    requires RepliesRight(h, s) && Enabled(s, e) && e.Serves? && s.up[0].CallLine?
    requires s.down == [] && s.end.None? && s.seen == |s.received| < |s.issued| && s.up[0].call == s.issued[s.seen]
    requires match Handle(h, s.seen, s.issued[s.seen], e.outcome, e.written)
             case Replied(r, _) => s.seen < 64 && Repliable(h, s.issued[s.seen], Turn(e.outcome, e.written), r)
             case Stopped(end, _) => StopsAt(h, s.seen, s.issued[s.seen], Turn(e.outcome, e.written), end)
    ensures RepliesRight(h, Step(h, s, e))
  {
    var t := Step(h, s, e);
    assert s.received + s.down == s.received;
    forall i | 0 <= i < |t.received + t.down|
      ensures Repliable(h, t.issued[i], t.served[i], (t.received + t.down)[i])
    {
      assert i < s.seen ==> Repliable(h, s.issued[i], s.served[i], s.received[i]);
    }
  }

  lemma ServingRepliesRight(h: Host, s: Session, e: Event)
    requires Lockstep(h, s) && RepliesRight(h, s) && Enabled(s, e) && e.Serves? && s.up[0].CallLine?
    ensures RepliesRight(h, Step(h, s, e))
  {
    HandledRightly(h, s.seen, s.issued[s.seen], Turn(e.outcome, e.written));
    ServedRight(h, s, e);
  }

  /** Replies that are received or on their way stay the same. */
  lemma SameReplies(h: Host, s: Session, t: Session)
    requires RepliesRight(h, s) && s.issued <= t.issued && t.served == s.served && t.seen == s.seen
    requires t.received + t.down == s.received + s.down && (s.end.Some? ==> t.end == s.end)
    ensures RepliesRight(h, t)
  {
    assert |t.received + t.down| == |s.received + s.down|;
    forall i | 0 <= i < |t.received + t.down|
      ensures Repliable(h, t.issued[i], t.served[i], (t.received + t.down)[i])
    {
      assert Repliable(h, s.issued[i], s.served[i], (s.received + s.down)[i]);
    }
    if s.seen > |s.received| + |s.down| {
      assert StopsAt(h, s.seen - 1, s.issued[s.seen - 1], s.served[s.seen - 1], s.end.value);
    }
  }

  lemma OthersKeepReplies(h: Host, s: Session, e: Event)
    requires Enabled(s, e) && !(e.Serves? && s.up[0].CallLine?)
    ensures var t := Step(h, s, e);
            && s.issued <= t.issued && t.served == s.served && t.seen == s.seen
            && t.received + t.down == s.received + s.down && (s.end.Some? ==> t.end == s.end)
  {
    if e.Receives? {
      assert s.received + [s.down[0]] + s.down[1..] == s.received + s.down;
    }
  }

  lemma StepRepliesRight(h: Host, s: Session, e: Event)
    requires Lockstep(h, s) && RepliesRight(h, s) && Enabled(s, e)
    ensures RepliesRight(h, Step(h, s, e))
  {
    if e.Serves? && s.up[0].CallLine? {
      ServingRepliesRight(h, s, e);
    } else {
      OthersKeepReplies(h, s, e);
      SameReplies(h, s, Step(h, s, e));
    }
  }

  lemma StepFinalRight(h: Host, s: Session, e: Event)
    requires Lockstep(h, s) && FinalRight(s) && Enabled(s, e)
    ensures FinalRight(Step(h, s, e))
  {
  }

  lemma {:induction false} RunRepliesRight(h: Host, s: Session, es: seq<Event>)
    requires Lockstep(h, s) && RepliesRight(h, s) && FinalRight(s) && Run(h, s, es)
    ensures RepliesRight(h, After(h, s, es)) && FinalRight(After(h, s, es))
    decreases |es|
  {
    if es != [] {
      StepRepliesRight(h, s, es[0]);
      StepFinalRight(h, s, es[0]);
      StepKeepsLockstep(h, s, es[0]);
      RunRepliesRight(h, Step(h, s, es[0]), es[1..]);
    }
  }

  /**
   * Main result: in every composed run the i-th reply the program takes answers its i-th call. It is
   * the registry's result exactly when the call passes every check, returns and the result fits;
   * otherwise it is the text, cut to 4096 bytes, of the first error. No sent line exceeds its limit.
   */
  lemma RepliesArrive(h: Host, es: seq<Event>, i: nat)
    requires Run(h, Opening(), es) && i < |After(h, Opening(), es).received|
    ensures var s := After(h, Opening(), es);
            && i < |s.issued| && i < |s.served| && i < 64
            && s.received[i].id == s.issued[i].id && h.lineSize(s.received[i]) <= 262144
            && match Taken(s.received[i])
               case Success(result) =>
                 && FirstError(h, s.issued[i], s.served[i].outcome) == None
                 && s.served[i].outcome == Returned(result)
               case Failure(text) =>
                 && FirstError(h, s.issued[i], s.served[i].outcome).Some?
                 && text == Truncate(FirstError(h, s.issued[i], s.served[i].outcome).value, 4096, h.truncationMark)
  {
    RunRepliesRight(h, Opening(), es);
    var s := After(h, Opening(), es);
    assert s.received[i] == (s.received + s.down)[i];
    assert Repliable(h, s.issued[i], s.served[i], s.received[i]);
  }

  /** Main result: a call that was read and gets no reply ended the session, for exactly one of these reasons. */
  lemma UnansweredEndsSession(h: Host, es: seq<Event>)
    requires Run(h, Opening(), es)
    ensures var s := After(h, Opening(), es);
            && |s.received| + |s.down| <= s.seen <= |s.received| + |s.down| + 1
            && s.seen <= |s.issued| && |s.served| == s.seen
            && (s.seen > |s.received| + |s.down| ==>
                  s.end.Some? && StopsAt(h, s.seen - 1, s.issued[s.seen - 1], s.served[s.seen - 1], s.end.value))
  {
    RunRepliesRight(h, Opening(), es);
  }

  // ----- From the program to the harness -----

  /** The calls the program makes in a run, numbered on from `n`. */
  function CallsMade(es: seq<Event>, n: nat): seq<Call> {
    if es == [] then []
    else if es[0].Calls? then [Call(CallName(n + 1), es[0].key, es[0].params)] + CallsMade(es[1..], n + 1)
    else CallsMade(es[1..], n)
  }

  lemma {:induction false} IssuedAsMade(h: Host, s: Session, es: seq<Event>)
    requires Run(h, s, es)
    ensures After(h, s, es).issued == s.issued + CallsMade(es, |s.issued|)
    ensures After(h, s, es).final == s.final
            || exists e :: e in es && e.Finishes? && After(h, s, es).final == Some((e.output, e.error))
    decreases |es|
  {
    if es != [] {
      var e, t := es[0], Step(h, s, es[0]);
      assert e in es && forall x | x in es[1..] :: x in es;
      IssuedAsMade(h, t, es[1..]);
      assert e.Calls? ==> t.issued == s.issued + [Call(CallName(|s.issued| + 1), e.key, e.params)];
      assert !e.Calls? ==> t.issued == s.issued;
    }
  }

  lemma FinishedWith(s: Session, es: seq<Event>)
    requires FinalRight(s)
    requires s.final == None || exists e :: e in es && e.Finishes? && s.final == Some((e.output, e.error))
    requires s.end.Some? && s.end.value.Finished?
    ensures exists e :: e in es && e == Finishes(s.end.value.output, s.end.value.error)
  {
  }

  /**
   * Main result: calls carry the numbers, keys and params they were made with, in order, and a session
   * that finishes ends with the output and error of the program's own end.
   */
  lemma CallsAndOutputArrive(h: Host, es: seq<Event>)
    requires Run(h, Opening(), es)
    ensures var s := After(h, Opening(), es);
            && s.issued == CallsMade(es, 0)
            && (s.end.Some? && s.end.value.Finished? ==>
                  exists e :: e in es && e == Finishes(s.end.value.output, s.end.value.error))
  {
    IssuedAsMade(h, Opening(), es);
    RunRepliesRight(h, Opening(), es);
    var s := After(h, Opening(), es);
    if s.end.Some? && s.end.value.Finished? {
      FinishedWith(s, es);
    }
    assert [] + CallsMade(es, 0) == CallsMade(es, 0);
  }
}
