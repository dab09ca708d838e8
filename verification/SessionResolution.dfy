/**
 * Active sessions and live backends. A request for a session is forwarded only while its slot holds a
 * live backend; here is exactly which events leave an active session without one, and that such a
 * session is refused every request, a close included, until one of four things happens to it.
 */
module SessionResolution {
  import opened Wrappers
  import opened PoolModel
  import opened GatewaySystem
  import opened SessionDirectory
  import opened SlotAccounting
  import DM = DedicatedMode

  /** Every active session can be reached. */
  ghost predicate AllResolve(p: Pool) {
    forall ext | ext in p.sessions :: Resolves(p, ext)
  }

  /** Dedicated mode frees slots by their counters, so they have to be exact there. */
  ghost predicate Served(s: System) {
    Consistent(s) && AllResolve(s.pool) && (s.pool.strategy.Dedicated? ==> Exact(s.pool))
  }

  /** Evicting idle sessions frees a Dedicated slot under a session that is not idle. */
  ghost predicate FreesShared(p: Pool, now: Instant, timeout: nat) {
    p.strategy.Dedicated?
    && exists x, y :: x in IdleSessions(p, now, timeout) && y in p.sessions && y !in IdleSessions(p, now, timeout)
                      && p.sessions[x].slotIndex == p.sessions[y].slotIndex
  }

  /** An answer is taken after its slot died, or an eviction frees a shared slot. */
  ghost predicate Strands(s: System, e: Event)
    requires Enabled(s, e)
  {
    || (Registers(e) && !Alive(s.pool.slots, s.transit[e.rid].slot))
    || (e.IdleEvicted? && FreesShared(s.pool, e.now, e.timeout))
  }

  lemma RegisterResolves(p: Pool, ext: ExternalSid, back: BackendSid, slot: nat, cwd: Path, frontend: FrontendId,
                         now: Instant)
    requires AllResolve(p) && ext !in p.sessions
    ensures AllResolve(Register(p, ext, back, slot, cwd, frontend, now)) <==> Alive(p.slots, slot)
  {
    var q := Register(p, ext, back, slot, cwd, frontend, now);
    assert forall i: nat :: Alive(q.slots, i) <==> Alive(p.slots, i);
    assert q.sessions[ext].slotIndex == slot;
  }

  lemma ReloadedResolves(s: System, rid: nat, now: Instant)
    requires Served(s) && Enabled(s, ReloadReplied(rid, now))
    ensures AllResolve(Step(s, ReloadReplied(rid, now)).pool) <==> Alive(s.pool.slots, s.transit[rid].slot)
  {
    var r := s.transit[rid];
    assert Reloads(s, rid);
    var q := Register(s.pool, r.ext, r.entry.backendSid, r.slot, r.entry.cwd, r.frontend, now);
    RegisterResolves(s.pool, r.ext, r.entry.backendSid, r.slot, r.entry.cwd, r.frontend, now);
    assert forall ext | ext in q.sessions :: Resolves(Touch(q, r.ext, now), ext) <==> Resolves(q, ext);
  }

  lemma TwoOnSlot(p: Pool, x: ExternalSid, y: ExternalSid, slot: nat)
    requires x != y && x in SessionsOn(p, slot) && y in SessionsOn(p, slot)
    ensures |SessionsOn(p, slot)| >= 2
  {
    assert SessionsOn(p, slot) == {x, y} + (SessionsOn(p, slot) - {x, y});
  }

  lemma RemoveResolves(p: Pool, ext: ExternalSid)
    requires AllResolve(p) && (p.strategy.Dedicated? ==> Exact(p)) && ext in p.sessions
    ensures AllResolve(Remove(p, ext))
  {
    var q, slot := Remove(p, ext), p.sessions[ext].slotIndex;
    forall x | x in q.sessions ensures Resolves(q, x) {
      if p.strategy.Dedicated? && p.sessions[x].slotIndex == slot {
        TwoOnSlot(p, x, ext, slot);
      }
    }
  }

  /** A session that is not idle keeps its slot, unless the eviction frees it. */
  lemma EvictedSlotAlive(p: Pool, gone: set<ExternalSid>, i: nat)
    ensures Alive(EvictedSlots(p, gone), i)
            <==> Alive(p.slots, i) && !(p.strategy.Dedicated? && gone * SessionsOn(p, i) != {})
  {
  }

  lemma EvictKeepsSessions(p: Pool, now: Instant, timeout: nat, y: ExternalSid)
    ensures var q := EvictIdle(p, now, timeout);
            && (y in q.sessions <==> y in p.sessions && y !in IdleSessions(p, now, timeout))
            && (y in q.sessions ==> q.sessions[y] == p.sessions[y])
            && q.slots == EvictedSlots(p, IdleSessions(p, now, timeout))
  {
  }

  lemma EvictResolves(p: Pool, now: Instant, timeout: nat)
    requires AllResolve(p)
    ensures AllResolve(EvictIdle(p, now, timeout)) <==> !FreesShared(p, now, timeout)
  {
    var gone, q := IdleSessions(p, now, timeout), EvictIdle(p, now, timeout);
    if FreesShared(p, now, timeout) {
      var x, y :| x in gone && y in p.sessions && y !in gone && p.sessions[x].slotIndex == p.sessions[y].slotIndex;
      EvictionStrands(p, x, y, now, timeout);
    } else {
      forall y | y in q.sessions ensures Resolves(q, y) {
        EvictKeepsSessions(p, now, timeout, y);
        EvictedSlotAlive(p, gone, p.sessions[y].slotIndex);
      }
    }
  }

  predicate Stranded(p: Pool, ext: ExternalSid) {
    ext in p.sessions && !Resolves(p, ext)
  }

  /** An eviction of one of two sessions that share a Dedicated slot strands the other. */
  lemma EvictionStrands(p: Pool, x: ExternalSid, y: ExternalSid, now: Instant, timeout: nat)
    requires p.strategy.Dedicated? && x in IdleSessions(p, now, timeout)
    requires y in p.sessions && y !in IdleSessions(p, now, timeout)
    requires p.sessions[x].slotIndex == p.sessions[y].slotIndex
    ensures Stranded(EvictIdle(p, now, timeout), y)
  {
    var gone, slot := IdleSessions(p, now, timeout), p.sessions[y].slotIndex;
    assert x in gone * SessionsOn(p, slot);
    EvictKeepsSessions(p, now, timeout, y);
    EvictedSlotAlive(p, gone, slot);
  }

  lemma DeathResolves(p: Pool, slot: nat, now: Instant)
    requires AllResolve(p)
    ensures AllResolve(BackendDeath(p, slot, now))
  {
    assert forall ext | ext in p.sessions && p.sessions[ext].slotIndex == slot :: ext in SessionsOn(p, slot);
  }

  lemma CountingResolves(s: System, e: Event)
    requires Served(s) && Enabled(s, e) && Counting(e)
    ensures AllResolve(Step(s, e).pool) <==> !Strands(s, e)
  {
    match e {
      case CreateReplied(rid, ext, back, now) =>
        var r := s.transit[rid];
        RegisterResolves(s.pool, ext, back, r.slot, r.cwd, r.frontend, now);
      case ForkReplied(rid, ext, back, now) =>
        var r := s.transit[rid];
        RegisterResolves(s.pool, ext, back, r.slot, r.cwd, r.frontend, now);
      case ReloadReplied(rid, now) => ReloadedResolves(s, rid, now);
      case CloseReplied(rid) =>
        if s.transit[rid].ext in s.pool.sessions {
          RemoveResolves(s.pool, s.transit[rid].ext);
        }
      case IdleEvicted(now, timeout) => EvictResolves(s.pool, now, timeout);
      case BackendDied(slot, now) => DeathResolves(s.pool, slot, now);
    }
  }

  lemma SpawnKeepsAlive(p: Pool, at: Option<nat>)
    ensures forall i: nat | Alive(p.slots, i) :: Alive(SpawnedInto(p, at), i)
  {
  }

  lemma OtherEventsResolve(s: System, e: Event)
    requires AllResolve(s.pool) && Enabled(s, e) && !Counting(e)
    ensures AllResolve(Step(s, e).pool)
  {
    OtherEventsUse(s, e);
    SpawnKeepsAlive(s.pool, Spawns(s, e));
  }

  /** In Dedicated mode a backend is spawned only where none is alive, so over no session. */
  lemma CountersStayExact(s: System, e: Event)
    requires Served(s) && Enabled(s, e)
    ensures Step(s, e).pool.strategy.Dedicated? ==> Exact(Step(s, e).pool)
  {
    DM.ConfigKept(s, e);
    if s.pool.strategy.Dedicated? {
      if Spawns(s, e).Some? {
        assert !Alive(s.pool.slots, Spawns(s, e).value);
        assert SessionsOn(s.pool, Spawns(s, e).value) == {};
      }
      ExactUnlessClobbered(s, e);
    }
  }

  /**
   * Main result: every active session can be reached, until exactly an answer is taken after its slot
   * died, or an eviction of idle sessions frees a Dedicated slot that a session in use shares.
   */
  lemma ResolvesUnlessStranded(s: System, e: Event)
    requires Served(s) && Enabled(s, e)
    ensures Consistent(Step(s, e)) && (Step(s, e).pool.strategy.Dedicated? ==> Exact(Step(s, e).pool))
    ensures AllResolve(Step(s, e).pool) <==> !Strands(s, e)
  {
    StepKeepsConsistent(s, e);
    CountersStayExact(s, e);
    if Counting(e) {
      CountingResolves(s, e);
    } else {
      OtherEventsResolve(s, e);
    }
  }

  ghost predicate NeverStrands(s: System, es: seq<Event>)
    requires Run(s, es)
    decreases |es|
  {
    es == [] || (!Strands(s, es[0]) && NeverStrands(Step(s, es[0]), es[1..]))
  }

  ghost predicate AlwaysResolve(s: System, es: seq<Event>)
    requires Run(s, es)
    decreases |es|
  {
    AllResolve(s.pool) && (es == [] || AlwaysResolve(Step(s, es[0]), es[1..]))
  }

  lemma {:induction false} RunResolves(s: System, es: seq<Event>)
    requires Served(s) && Run(s, es)
    ensures AlwaysResolve(s, es) <==> NeverStrands(s, es)
    decreases |es|
  {
    if es != [] {
      ResolvesUnlessStranded(s, es[0]);
      if Strands(s, es[0]) {
        assert !AlwaysResolve(Step(s, es[0]), es[1..]);
      } else {
        RunResolves(Step(s, es[0]), es[1..]);
      }
    }
  }

  /** Main result: from the start, every active session can be reached throughout exactly when no event strands one. */
  lemma RunResolvesFromBoot(strategy: Strategy, poolSize: nat, es: seq<Event>)
    requires Run(Boot(strategy, poolSize), es)
    ensures AlwaysResolve(Boot(strategy, poolSize), es) <==> NeverStrands(Boot(strategy, poolSize), es)
  {
    assert Served(Boot(strategy, poolSize));
    RunResolves(Boot(strategy, poolSize), es);
  }

  // ----- What becomes of a stranded session -----

  /** The four ways out: idle eviction, a late death report, a spawn into the slot, a close already under way. */
  predicate Releases(s: System, e: Event, ext: ExternalSid)
    requires Enabled(s, e) && ext in s.pool.sessions
  {
    || (e.IdleEvicted? && ext in IdleSessions(s.pool, e.now, e.timeout))
    || (e.BackendDied? && e.slot == s.pool.sessions[ext].slotIndex)
    || Spawns(s, e) == Some(s.pool.sessions[ext].slotIndex)
    || (e.CloseReplied? && s.transit[e.rid].ext == ext)
  }

  lemma RegisterLeavesStranded(p: Pool, other: ExternalSid, back: BackendSid, slot: nat, cwd: Path,
                               frontend: FrontendId, now: Instant, ext: ExternalSid)
    requires Stranded(p, ext) && other != ext
    ensures Stranded(Register(p, other, back, slot, cwd, frontend, now), ext)
  {
  }

  lemma ReloadLeavesStranded(s: System, rid: nat, now: Instant, ext: ExternalSid)
    requires Consistent(s) && Enabled(s, ReloadReplied(rid, now)) && Stranded(s.pool, ext)
    ensures Stranded(Step(s, ReloadReplied(rid, now)).pool, ext)
  {
    var r := s.transit[rid];
    assert Reloads(s, rid);
    RegisterLeavesStranded(s.pool, r.ext, r.entry.backendSid, r.slot, r.entry.cwd, r.frontend, now, ext);
  }

  lemma AnswersLeaveStranded(s: System, e: Event, ext: ExternalSid)
    requires Consistent(s) && Enabled(s, e) && Registers(e) && Stranded(s.pool, ext)
    ensures Stranded(Step(s, e).pool, ext)
  {
    if e.ReloadReplied? {
      ReloadLeavesStranded(s, e.rid, e.now, ext);
    } else {
      var r := s.transit[e.rid];
      RegisterLeavesStranded(s.pool, e.ext, e.back, r.slot, r.cwd, r.frontend, e.now, ext);
    }
  }

  lemma LeavingStranded(s: System, e: Event, ext: ExternalSid)
    requires Enabled(s, e) && Counting(e) && !Registers(e) && Stranded(s.pool, ext)
    ensures Stranded(Step(s, e).pool, ext) <==> !Releases(s, e, ext)
  {
    if e.CloseReplied? {
      RemoveLeavesStranded(s.pool, s.transit[e.rid].ext, ext);
    } else if e.IdleEvicted? {
      EvictLeavesStranded(s.pool, e.now, e.timeout, ext);
    } else {
      DeathLeavesStranded(s.pool, e.slot, e.now, ext);
    }
  }

  lemma CountingStranded(s: System, e: Event, ext: ExternalSid)
    requires Consistent(s) && Enabled(s, e) && Counting(e) && Stranded(s.pool, ext)
    ensures Stranded(Step(s, e).pool, ext) <==> !Releases(s, e, ext)
  {
    if Registers(e) {
      AnswersLeaveStranded(s, e, ext);
    } else {
      LeavingStranded(s, e, ext);
    }
  }

  lemma EvictLeavesStranded(p: Pool, now: Instant, timeout: nat, ext: ExternalSid)
    requires Stranded(p, ext)
    ensures Stranded(EvictIdle(p, now, timeout), ext) <==> ext !in IdleSessions(p, now, timeout)
  {
    EvictKeepsSessions(p, now, timeout, ext);
    EvictedSlotAlive(p, IdleSessions(p, now, timeout), p.sessions[ext].slotIndex);
  }

  lemma RemoveLeavesStranded(p: Pool, other: ExternalSid, ext: ExternalSid)
    requires Stranded(p, ext)
    ensures Stranded(Remove(p, other), ext) <==> other != ext
  {
  }

  lemma DeathLeavesStranded(p: Pool, slot: nat, now: Instant, ext: ExternalSid)
    requires Stranded(p, ext)
    ensures Stranded(BackendDeath(p, slot, now), ext) <==> slot != p.sessions[ext].slotIndex
  {
  }

  lemma OtherEventsStranded(s: System, e: Event, ext: ExternalSid)
    requires Enabled(s, e) && !Counting(e) && Stranded(s.pool, ext)
    ensures Stranded(Step(s, e).pool, ext) <==> !Releases(s, e, ext)
  {
    OtherEventsUse(s, e);
  }

  /** Main result: a session stays stranded until exactly one of these happens to it. */
  lemma StrandedUntilReleased(s: System, e: Event, ext: ExternalSid)
    requires Consistent(s) && Enabled(s, e) && Stranded(s.pool, ext)
    ensures Stranded(Step(s, e).pool, ext) <==> !Releases(s, e, ext)
  {
    if Counting(e) {
      CountingStranded(s, e, ext);
    } else {
      OtherEventsStranded(s, e, ext);
    }
  }

  /** Meanwhile nothing starts on it: prompt, load, fork and even close are refused. */
  lemma StrandedIsRefused(s: System, e: Event, ext: ExternalSid)
    requires Consistent(s) && Enabled(s, e) && Stranded(s.pool, ext)
    requires (e.StartPrompt? || e.StartLoad? || e.StartFork? || e.StartClose?) && e.ext == ext
    ensures e.rid !in Step(s, e).transit
  {
    RecordSenderShape(s.pool, ext, e.frontend);
    if e.StartPrompt? {
      PromptIsRefused(s, e, ext);
    }
  }

  lemma PromptIsRefused(s: System, e: Event, ext: ExternalSid)
    requires Consistent(s) && Enabled(s, e) && Stranded(s.pool, ext) && e.StartPrompt? && e.ext == ext
    ensures e.rid !in Step(s, e).transit
  {
    if ext !in s.pool.inFlight {
      var recorded := RecordSender(s.pool, ext, e.frontend);
      var begun := BeginPrompt(recorded, ext, e.frontend);
      RecordSenderShape(s.pool, ext, e.frontend);
      BeginPromptShape(recorded, ext, e.frontend);
      BegunIsRefused(s, begun, e, ext);
    }
  }

  lemma BegunIsRefused(s: System, begun: Pool, e: Event, ext: ExternalSid)
    requires Consistent(s) && Enabled(s, e) && Stranded(s.pool, ext) && e.StartPrompt? && e.ext == ext
    requires SameShape(s.pool, begun)
    ensures e.rid !in PromptBegun(s, begun, e.rid, ext, e.frontend, e.spawned, e.now).transit
  {
  }

  // ----- A late answer -----

  /** A backend that dies before its answer is taken strands the new session, in least-connections mode too. */
  lemma LateAnswerStrands(s: System, rid: nat, cwd: Path, frontend: FrontendId, ext: ExternalSid, back: BackendSid,
                          died: Instant, now: Instant)
    requires s.pool.strategy.LeastConnections? && SelectSlot(s.pool).Some? && rid !in s.transit && Fresh(s, ext, back)
    ensures var i := SelectSlot(s.pool).value;
            var es := [StartNew(rid, cwd, frontend, false)]
                      + [BackendDied(i, died), CreateReplied(rid, ext, back, now)];
            Run(s, es) && Stranded(After(s, es).pool, ext)
  {
    var i := SelectSlot(s.pool).value;
    var start, death := StartNew(rid, cwd, frontend, false), BackendDied(i, died);
    var t := s.(transit := s.transit[rid := Creating(i, cwd, frontend, Calling)]);
    assert Step(s, start) == t;
    DeadSlotStrands(t, rid, i, cwd, frontend, ext, back, died, now);
    RunOne(s, start);
    RunTwo(t, death, CreateReplied(rid, ext, back, now));
    RunAppend(s, [start], [death, CreateReplied(rid, ext, back, now)]);
  }

  lemma DeadSlotStrands(s: System, rid: nat, i: nat, cwd: Path, frontend: FrontendId, ext: ExternalSid,
                        back: BackendSid, died: Instant, now: Instant)
    requires rid in s.transit && s.transit[rid] == Creating(i, cwd, frontend, Calling)
    requires i < |s.pool.slots| && Fresh(s, ext, back)
    ensures var death, answer := BackendDied(i, died), CreateReplied(rid, ext, back, now);
            && Enabled(s, death) && Enabled(Step(s, death), answer)
            && Stranded(Step(Step(s, death), answer).pool, ext)
  {
    var dead := BackendDeath(s.pool, i, died);
    assert !Alive(dead.slots, i);
    assert !Alive(Register(dead, ext, back, i, cwd, frontend, now).slots, i);
  }
}
