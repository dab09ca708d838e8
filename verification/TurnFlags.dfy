/**
 * The flags that turns hold until they finish. No destructor clears them: a turn dropped before it
 * has finished keeps its session blocked for ever, and nothing else does.
 */
module TurnFlags {
  import opened Wrappers
  import opened Conversation
  import opened HarnessModel
  import opened PromptTurns

  /** The turn has begun and not finished: it builds its runtime, or runs. */
  ghost predicate Runs(d: Desk, tid: nat, id: SessionId) {
    tid in d.turns && !d.turns[tid].phase.Finished? && d.turns[tid].id == id
  }

  ghost predicate Held(d: Desk, id: SessionId) {
    exists tid :: Runs(d, tid, id)
  }

  /** Every blocked session has a running turn that will free it. */
  ghost predicate ActiveHeld(d: Desk) {
    forall id | id in d.harness.active :: Held(d, id)
  }

  ghost predicate DropsUnfinished(d: Desk, e: Event) {
    e.TurnDropped? && e.tid in d.turns && !d.turns[e.tid].phase.Finished?
  }

  lemma OthersKeepHeld(d: Desk, e: Event)
    requires Enabled(d, e) && !e.TurnBegun? && !e.TurnBuilt? && !e.TurnRan? && !e.TurnDropped?
    ensures forall tid, id | Runs(d, tid, id) :: Runs(Step(d, e), tid, id)
  {
  }

  lemma BegunHeld(d: Desk, e: Event)
    requires ActiveHeld(d) && Enabled(d, e) && e.TurnBegun? && d.turns.Keys <= d.used
    ensures ActiveHeld(Step(d, e))
  {
    var c := Step(d, e);
    assert forall tid, id | Runs(d, tid, id) :: Runs(c, tid, id);
    forall id | id in c.harness.active ensures Held(c, id) {
      if id !in d.harness.active {
        assert Runs(c, e.tid, id);
      }
    }
  }

  lemma BuiltHeld(d: Desk, e: Event)
    requires ActiveHeld(d) && Enabled(d, e) && e.TurnBuilt?
    ensures ActiveHeld(Step(d, e))
  {
    var c := Step(d, e);
    assert forall tid, id | Runs(d, tid, id) && (tid != e.tid || e.built) :: Runs(c, tid, id);
    forall id | id in c.harness.active ensures Held(c, id) {
      var tid :| Runs(d, tid, id);
      assert tid != e.tid || e.built;
    }
  }

  lemma RanHeld(d: Desk, e: Event)
    requires ActiveHeld(d) && Enabled(d, e) && e.TurnRan?
    ensures ActiveHeld(Step(d, e))
  {
    var c := Step(d, e);
    assert forall tid, id | Runs(d, tid, id) && tid != e.tid :: Runs(c, tid, id);
    forall id | id in c.harness.active ensures Held(c, id) {
      var tid :| Runs(d, tid, id);
      assert tid != e.tid;
    }
  }

  lemma DroppedHeld(d: Desk, e: Event)
    requires ActiveHeld(d) && TurnsInOrder(d) && Enabled(d, e) && e.TurnDropped?
    ensures ActiveHeld(Step(d, e)) <==> !DropsUnfinished(d, e)
  {
    var c := Step(d, e);
    assert forall tid, id | Runs(d, tid, id) && tid != e.tid :: Runs(c, tid, id);
    if DropsUnfinished(d, e) {
      var id := d.turns[e.tid].id;
      assert id in c.harness.active;
      assert forall tid | Runs(d, tid, id) :: tid == e.tid;
    } else {
      forall id | id in c.harness.active ensures Held(c, id) {
        var tid :| Runs(d, tid, id);
        assert tid != e.tid;
      }
    }
  }

  /** Main result: every blocked session has its running turn exactly until an unfinished turn is dropped. */
  lemma ActiveHeldUnlessDropped(d: Desk, e: Event)
    requires ActiveHeld(d) && TurnsInOrder(d) && Enabled(d, e)
    ensures ActiveHeld(Step(d, e)) <==> !DropsUnfinished(d, e)
  {
    if e.TurnBegun? {
      BegunHeld(d, e);
    } else if e.TurnBuilt? {
      BuiltHeld(d, e);
    } else if e.TurnRan? {
      RanHeld(d, e);
    } else if e.TurnDropped? {
      DroppedHeld(d, e);
    } else {
      OthersKeepHeld(d, e);
      OthersLeaveTurns(d, e);
    }
  }

  ghost predicate Blocked(d: Desk, id: SessionId) {
    id in d.harness.active && !Held(d, id)
  }

  ghost predicate NeverDropped(d: Desk, es: seq<Event>)
    requires Run(d, es)
    decreases |es|
  {
    es == [] || (!DropsUnfinished(d, es[0]) && NeverDropped(Step(d, es[0]), es[1..]))
  }

  ghost predicate AlwaysHeld(d: Desk, es: seq<Event>)
    requires Run(d, es)
    decreases |es|
  {
    ActiveHeld(d) && (es == [] || AlwaysHeld(Step(d, es[0]), es[1..]))
  }

  /** Main result: over a whole run no session is ever blocked for nothing exactly when no unfinished one is dropped. */
  lemma {:induction false} RunHeldUnlessDropped(d: Desk, es: seq<Event>)
    requires ActiveHeld(d) && TurnsInOrder(d) && Run(d, es)
    ensures AlwaysHeld(d, es) <==> NeverDropped(d, es)
    decreases |es|
  {
    if es != [] {
      ActiveHeldUnlessDropped(d, es[0]);
      StepTurnsInOrder(d, es[0]);
      if !DropsUnfinished(d, es[0]) {
        RunHeldUnlessDropped(Step(d, es[0]), es[1..]);
      } else {
        assert !AlwaysHeld(Step(d, es[0]), es[1..]);
      }
    }
  }

  /** The session of a dropped unfinished turn is the one left blocked. */
  lemma DroppedIsBlocked(d: Desk, tid: nat)
    requires TurnsInOrder(d) && tid in d.turns && !d.turns[tid].phase.Finished?
    ensures Blocked(Step(d, TurnDropped(tid)), d.turns[tid].id)
  {
    var id := d.turns[tid].id;
    assert forall other | Runs(d, other, id) :: other == tid;
    assert forall other :: !Runs(Step(d, TurnDropped(tid)), other, id);
  }

  lemma StepBlocked(d: Desk, e: Event, id: SessionId)
    requires Blocked(d, id) && Enabled(d, e)
    ensures Blocked(Step(d, e), id)
  {
    var c := Step(d, e);
    assert (e.TurnRan? || e.TurnBuilt?) ==> (d.turns[e.tid].id == id ==> Runs(d, e.tid, id));
    forall tid ensures !Runs(c, tid, id) {
      assert !Runs(d, tid, id);
    }
  }

  /** Main result: a session whose unfinished turn was dropped refuses every prompt and setting change for ever. */
  lemma {:induction false} BlockedForEver(d: Desk, es: seq<Event>, id: SessionId, text: string, modelId: string,
                                          modeId: string)
    requires Blocked(d, id) && Run(d, es)
    ensures var h := After(d, es).harness;
            && Blocked(After(d, es), id)
            && StartPrompt(h, id, text).1.Failure?
            && SetModel(h, id, modelId).1 == Failure(PromptInFlight)
            && LoadForMode(h, id, modeId) == Failure(PromptInFlight)
    decreases |es|
  {
    if es != [] {
      StepBlocked(d, es[0], id);
      BlockedForEver(Step(d, es[0]), es[1..], id, text, modelId, modeId);
    }
  }
}
