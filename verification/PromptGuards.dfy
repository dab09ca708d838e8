/**
 * In-flight flags and the guards that own them. A flag always has a live guard, so no session stays
 * blocked; a live guard keeps its flag until a crash or a close of the session takes it away.
 */
module PromptGuards {
  import opened Wrappers
  import opened PoolModel
  import opened GatewaySystem

  /** Request `rid` owns a live prompt guard for the session. */
  ghost predicate Guard(s: System, rid: nat, ext: ExternalSid) {
    rid in s.transit && HoldsGuard(s.transit[rid], ext)
  }

  ghost predicate Live(s: System, ext: ExternalSid) {
    exists rid :: Guard(s, rid, ext)
  }

  ghost predicate FlagsOwned(s: System) {
    && s.pool.promptSenders.Keys <= s.pool.inFlight
    && forall ext | ext in s.pool.inFlight :: Live(s, ext)
  }

  /** At most one live guard, and it has its flag. */
  ghost predicate SoleGuard(s: System, ext: ExternalSid) {
    && (forall r1, r2 | Guard(s, r1, ext) && Guard(s, r2, ext) :: r1 == r2)
    && (Live(s, ext) <==> ext in s.pool.inFlight)
  }

  /** The event takes the session's flag away without ending a prompt. */
  predicate Revokes(s: System, e: Event, ext: ExternalSid)
    requires Enabled(s, e)
  {
    match e
    case BackendDied(slot, _) => ext in SessionsOn(s.pool, slot)
    case CloseReplied(rid) => s.transit[rid].ext == ext && ext in s.pool.sessions
    case _ => false
  }

  // ----- What an event does to flags and guards -----

  ghost predicate SameFlags(p: Pool, q: Pool) {
    q.inFlight == p.inFlight && q.promptSenders == p.promptSenders
  }

  ghost predicate SameGuards(s: System, t: System) {
    forall rid, ext :: Guard(t, rid, ext) <==> Guard(s, rid, ext)
  }

  ghost predicate EndsGuard(s: System, t: System, rid: nat) {
    && rid in s.transit
    && (forall r, ext :: Guard(t, r, ext) <==> Guard(s, r, ext) && r != rid)
    && (if exists ext :: Guard(s, rid, ext) then SameFlags(EndPrompt(s.pool, s.transit[rid].ext), t.pool)
        else SameFlags(s.pool, t.pool))
  }

  predicate Neutral(s: System, e: Event)
    requires Enabled(s, e)
  {
    || e.Initialize? || e.StartNew? || e.StartFork? || e.StartClose? || e.SenderRecorded? || e.Purged?
    || e.BackendSpawned? || e.StartLoad? || e.CreateReplied? || e.ForkReplied? || e.ReloadReplied?
    || (e.InitReplied? && Alive(s.pool.slots, s.transit[e.rid].slot))
  }

  lemma LoadFlags(s: System, rid: nat, ext: ExternalSid, frontend: FrontendId, spawned: bool)
    ensures SameFlags(s.pool, LoadStarted(s, rid, ext, frontend, spawned).pool)
  {
    ReloadFlags(RecordSender(s.pool, ext, frontend), ext, frontend, spawned, false);
  }

  lemma ReloadFlags(p: Pool, ext: ExternalSid, frontend: FrontendId, spawned: bool, prompting: bool)
    ensures SameFlags(p, Reload(p, ext, frontend, spawned, prompting).0)
  {
  }

  lemma NeutralFlags(s: System, e: Event)
    requires Enabled(s, e) && Neutral(s, e)
    ensures SameFlags(s.pool, Step(s, e).pool)
  {
    match e {
      case StartLoad(rid, ext, frontend, spawned) => LoadFlags(s, rid, ext, frontend, spawned);
      case ReloadReplied(rid, now) => ReloadedFlags(s, rid, now);
      case _ => QuietFlags(s, e);
    }
  }

  lemma ReloadedFlags(s: System, rid: nat, now: Instant)
    requires rid in s.transit && s.transit[rid].Reloading?
    ensures SameFlags(s.pool, Reloaded(s, rid, now).pool)
  {
  }

  lemma QuietFlags(s: System, e: Event)
    requires Enabled(s, e) && Neutral(s, e) && !e.StartLoad? && !e.ReloadReplied?
    ensures SameFlags(s.pool, Step(s, e).pool)
  {
  }

  lemma NeutralGuards(s: System, e: Event)
    requires Enabled(s, e) && Neutral(s, e)
    ensures SameGuards(s, Step(s, e))
  {
  }

  lemma FinishEndsGuard(s: System, rid: nat)
    requires rid in s.transit
    ensures EndsGuard(s, Finish(s, rid), rid)
  {
    var r := s.transit[rid];
    if r.Prompting? || (r.Reloading? && r.prompting) {
      assert Guard(s, rid, r.ext);
    }
  }

  ghost predicate PromptOutcome(s: System, t: System, rid: nat, ext: ExternalSid, frontend: FrontendId) {
    if rid in t.transit then
      && t.pool.inFlight == s.pool.inFlight + {ext}
      && t.pool.promptSenders == s.pool.promptSenders[ext := frontend]
      && forall r, x :: Guard(t, r, x) <==> Guard(s, r, x) || (r == rid && x == ext)
    else SameFlags(s.pool, t.pool) && SameGuards(s, t)
  }

  lemma BegunFlags(
      s: System, begun: Pool, rid: nat, ext: ExternalSid, frontend: FrontendId, spawned: bool, now: Instant)
    requires rid !in s.transit && ext !in s.pool.inFlight && ext !in s.pool.promptSenders
    requires begun.inFlight == s.pool.inFlight + {ext}
    requires begun.promptSenders == s.pool.promptSenders[ext := frontend]
    ensures PromptOutcome(s, PromptBegun(s, begun, rid, ext, frontend, spawned, now), rid, ext, frontend)
  {
    assert s.pool.inFlight + {ext} - {ext} == s.pool.inFlight;
    assert s.pool.promptSenders[ext := frontend] - {ext} == s.pool.promptSenders;
    ReloadFlags(begun, ext, frontend, spawned, true);
  }

  /** An accepted prompt: flag, sender and guard together, or none of them. */
  lemma PromptFlags(s: System, rid: nat, ext: ExternalSid, frontend: FrontendId, spawned: bool, now: Instant)
    requires rid !in s.transit && ext !in s.pool.inFlight && ext !in s.pool.promptSenders
    ensures PromptOutcome(s, PromptStarted(s, rid, ext, frontend, spawned, now), rid, ext, frontend)
  {
    BegunFlags(s, BeginPrompt(RecordSender(s.pool, ext, frontend), ext, frontend),
               rid, ext, frontend, spawned, now);
  }

  // ----- Flags are owned -----

  lemma StepFlagsOwned(s: System, e: Event)
    requires Enabled(s, e) && FlagsOwned(s)
    ensures FlagsOwned(Step(s, e))
  {
    var t := Step(s, e);
    if Neutral(s, e) {
      NeutralFlags(s, e);
      NeutralGuards(s, e);
      SameOwned(s, t);
    } else {
      match e {
        case InitReplied(rid) => FinishEndsGuard(s, rid); EndedOwned(s, t, rid);
        case RequestEnded(rid) => FinishEndsGuard(s, rid); EndedOwned(s, t, rid);
        case StartPrompt(rid, ext, frontend, authorized, spawned, now) =>
          if authorized && ext !in s.pool.inFlight {
            PromptFlags(s, rid, ext, frontend, spawned, now);
            PromptOwned(s, t, rid, ext, frontend);
          } else {
            SameOwned(s, t);
          }
        case CloseReplied(rid) => FewerOwned(s, t);
        case IdleEvicted(_, _) => FewerOwned(s, t);
        case BackendDied(_, _) => FewerOwned(s, t);
      }
    }
  }

  lemma SameOwned(s: System, t: System)
    requires FlagsOwned(s) && SameFlags(s.pool, t.pool) && SameGuards(s, t)
    ensures FlagsOwned(t)
  {
    FewerOwned(s, t);
  }

  lemma FewerOwned(s: System, t: System)
    requires FlagsOwned(s) && SameGuards(s, t)
    requires t.pool.inFlight <= s.pool.inFlight && t.pool.promptSenders.Keys <= t.pool.inFlight
    ensures FlagsOwned(t)
  {
    forall ext | ext in t.pool.inFlight ensures Live(t, ext) {
      var rid :| Guard(s, rid, ext);
      assert Guard(t, rid, ext);
    }
  }

  lemma EndedOwned(s: System, t: System, rid: nat)
    requires FlagsOwned(s) && EndsGuard(s, t, rid)
    ensures FlagsOwned(t)
  {
    forall ext | ext in t.pool.inFlight ensures Live(t, ext) {
      var r :| Guard(s, r, ext);
      assert r != rid && Guard(t, r, ext);
    }
  }

  lemma PromptOwned(s: System, t: System, rid: nat, ext: ExternalSid, frontend: FrontendId)
    requires FlagsOwned(s)
    requires PromptOutcome(s, t, rid, ext, frontend)
    ensures FlagsOwned(t)
  {
    forall x | x in t.pool.inFlight ensures Live(t, x) {
      if x == ext && rid in t.transit {
        assert Guard(t, rid, ext);
      } else {
        var r :| Guard(s, r, x);
        assert Guard(t, r, x);
      }
    }
  }

  /** Main result: in every reachable state each flag belongs to a live guard. */
  lemma {:induction false} RunFlagsOwned(s: System, es: seq<Event>)
    requires FlagsOwned(s) && Run(s, es)
    ensures FlagsOwned(After(s, es))
    decreases |es|
  {
    if es != [] {
      StepFlagsOwned(s, es[0]);
      RunFlagsOwned(Step(s, es[0]), es[1..]);
    }
  }

  /** Main result: once its guards are dropped, a session accepts the next authorized prompt. */
  lemma NeverStuck(strategy: Strategy, poolSize: nat, es: seq<Event>, ext: ExternalSid)
    requires Run(Boot(strategy, poolSize), es)
    requires !Live(After(Boot(strategy, poolSize), es), ext)
    ensures ext !in After(Boot(strategy, poolSize), es).pool.inFlight
  {
    RunFlagsOwned(Boot(strategy, poolSize), es);
  }

  // ----- One guard at a time -----

  lemma SoleSame(s: System, t: System, ext: ExternalSid)
    requires SoleGuard(s, ext) && SameGuards(s, t) && (ext in t.pool.inFlight <==> ext in s.pool.inFlight)
    ensures SoleGuard(t, ext)
  {
    assert forall r :: Guard(t, r, ext) <==> Guard(s, r, ext);
  }

  lemma SoleEnded(s: System, t: System, rid: nat, ext: ExternalSid)
    requires SoleGuard(s, ext) && EndsGuard(s, t, rid)
    ensures SoleGuard(t, ext)
  {
    assert forall r :: Guard(t, r, ext) <==> Guard(s, r, ext) && r != rid;
    if Guard(s, rid, ext) {
      assert !Live(t, ext);
    } else if r :| Guard(s, r, ext) {
      assert Guard(t, r, ext);
    }
  }

  lemma SolePrompt(s: System, t: System, rid: nat, x: ExternalSid, ext: ExternalSid)
    requires SoleGuard(s, ext) && x !in s.pool.inFlight
    requires t.pool.inFlight == s.pool.inFlight + {x}
    requires forall r, y :: Guard(t, r, y) <==> Guard(s, r, y) || (r == rid && y == x)
    ensures SoleGuard(t, ext)
  {
    assert forall r :: Guard(t, r, ext) <==> Guard(s, r, ext) || (r == rid && ext == x);
    if x == ext {
      assert !Live(s, ext);
      assert Guard(t, rid, ext);
    } else if r :| Guard(s, r, ext) {
      assert Guard(t, r, ext);
    }
  }

  lemma SoleRevoked(s: System, t: System, ext: ExternalSid)
    requires SoleGuard(s, ext) && SameGuards(s, t) && ext !in t.pool.inFlight
    ensures SoleGuard(t, ext) <==> !Live(s, ext)
  {
    assert forall r :: Guard(t, r, ext) <==> Guard(s, r, ext);
  }

  /** A sole guard stays sole and flagged exactly until a crash or a close revokes it. */
  lemma SoleUnlessRevoked(s: System, e: Event, ext: ExternalSid)
    requires Enabled(s, e) && FlagsOwned(s) && SoleGuard(s, ext)
    ensures SoleGuard(Step(s, e), ext) <==> !(Live(s, ext) && Revokes(s, e, ext))
  {
    var t := Step(s, e);
    if Neutral(s, e) {
      NeutralFlags(s, e);
      NeutralGuards(s, e);
      SoleSame(s, t, ext);
    } else {
      match e {
        case InitReplied(rid) => FinishEndsGuard(s, rid); SoleEnded(s, t, rid, ext);
        case RequestEnded(rid) => FinishEndsGuard(s, rid); SoleEnded(s, t, rid, ext);
        case StartPrompt(rid, x, frontend, authorized, spawned, now) =>
          if authorized && x !in s.pool.inFlight {
            PromptFlags(s, rid, x, frontend, spawned, now);
            if rid in t.transit {
              SolePrompt(s, t, rid, x, ext);
            } else {
              SoleSame(s, t, ext);
            }
          } else {
            SoleSame(s, t, ext);
          }
        case IdleEvicted(_, _) => SoleSame(s, t, ext);
        case CloseReplied(rid) => RevocationCase(s, e, ext);
        case BackendDied(_, _) => RevocationCase(s, e, ext);
      }
    }
  }

  lemma RevocationCase(s: System, e: Event, ext: ExternalSid)
    requires Enabled(s, e) && SoleGuard(s, ext) && (e.CloseReplied? || e.BackendDied?)
    ensures SoleGuard(Step(s, e), ext) <==> !(Live(s, ext) && Revokes(s, e, ext))
  {
    if Revokes(s, e, ext) {
      SoleRevoked(s, Step(s, e), ext);
    } else {
      SoleSame(s, Step(s, e), ext);
    }
  }

  ghost predicate NeverRevoked(s: System, es: seq<Event>, ext: ExternalSid)
    requires Run(s, es)
    decreases |es|
  {
    es == [] || (!(Live(s, ext) && Revokes(s, es[0], ext)) && NeverRevoked(Step(s, es[0]), es[1..], ext))
  }

  /** Main result: with no crash or close under a live prompt, prompts on a session never overlap. */
  lemma {:induction false} RunSoleGuard(s: System, es: seq<Event>, ext: ExternalSid)
    requires FlagsOwned(s) && SoleGuard(s, ext) && Run(s, es) && NeverRevoked(s, es, ext)
    ensures SoleGuard(After(s, es), ext)
    decreases |es|
  {
    if es != [] {
      StepFlagsOwned(s, es[0]);
      SoleUnlessRevoked(s, es[0], ext);
      RunSoleGuard(Step(s, es[0]), es[1..], ext);
    }
  }

  /**
   * The overlap is real: from any state with a prompt on an active session, a crash of its backend
   * and a respawn let a second prompt start while the first guard is still alive.
   */
  lemma CrashAllowsSecondGuard(s: System, r1: nat, r2: nat, ext: ExternalSid, frontend: FrontendId, now: Instant)
    requires s.pool.strategy.LeastConnections? && Guard(s, r1, ext) && r2 !in s.transit
    requires ext in s.pool.sessions && s.pool.sessions[ext].slotIndex < |s.pool.slots|
    ensures var i := s.pool.sessions[ext].slotIndex;
            var es := [BackendDied(i, now), BackendSpawned(i), StartPrompt(r2, ext, frontend, true, true, now)];
            Run(s, es) && Guard(After(s, es), r1, ext) && Guard(After(s, es), r2, ext)
  {
    var i := s.pool.sessions[ext].slotIndex;
    CrashAndRespawn(s, r1, ext, i, now);
    var e1, e2, e3 := BackendDied(i, now), BackendSpawned(i), StartPrompt(r2, ext, frontend, true, true, now);
    var s2 := Step(Step(s, e1), e2);
    SecondPrompt(s2, r2, ext, frontend, now);
    assert Guard(Step(s2, e3), r1, ext) && Guard(Step(s2, e3), r2, ext);
    ThreeSteps(s, e1, e2, e3);
  }

  lemma ThreeSteps(s: System, e1: Event, e2: Event, e3: Event)
    requires Enabled(s, e1) && Enabled(Step(s, e1), e2) && Enabled(Step(Step(s, e1), e2), e3)
    ensures Run(s, [e1, e2, e3]) && After(s, [e1, e2, e3]) == Step(Step(Step(s, e1), e2), e3)
  {
    assert [e1, e2, e3][1..] == [e2, e3];
    RunTwo(Step(s, e1), e2, e3);
  }

  lemma CrashAndRespawn(s: System, r1: nat, ext: ExternalSid, i: nat, now: Instant)
    requires s.pool.strategy.LeastConnections? && Guard(s, r1, ext)
    requires ext in s.pool.sessions && s.pool.sessions[ext].slotIndex == i < |s.pool.slots|
    ensures var t := Step(Step(s, BackendDied(i, now)), BackendSpawned(i));
            && t.pool.strategy.LeastConnections? && t.transit == s.transit && Guard(t, r1, ext)
            && ext in t.pool.evicted && ext !in t.pool.inFlight && ext !in t.pool.sessions
            && Alive(t.pool.slots, i)
  {
    assert ext in SessionsOn(s.pool, i);
  }

  lemma SecondPrompt(s: System, rid: nat, ext: ExternalSid, frontend: FrontendId, now: Instant)
    requires s.pool.strategy.LeastConnections? && rid !in s.transit
    requires ext in s.pool.evicted && ext !in s.pool.inFlight && ext !in s.pool.sessions
    requires exists i: nat :: Alive(s.pool.slots, i)
    ensures var t := PromptStarted(s, rid, ext, frontend, true, now);
            && (forall r, x | Guard(s, r, x) :: Guard(t, r, x)) && Guard(t, rid, ext)
  {
    var begun := BeginPrompt(RecordSender(s.pool, ext, frontend), ext, frontend);
    assert SelectSlot(TakeEvicted(begun, ext)).Some?;
    assert !Resolves(begun, ext) && ext in begun.evicted;
  }
}
