/**
 * A discipline under which Dedicated mode never crowds a slot: requests that look for a slot come
 * one at a time, sessions are not forked, and a reply is taken only from a backend that is there.
 * Without it, three runs in which a session ends up without a backend of its own.
 */
module DedicatedDiscipline {
  import opened Wrappers
  import opened PoolModel
  import opened GatewaySystem
  import opened SessionDirectory
  import opened SlotAccounting
  import opened DedicatedMode
  import opened RequestPlacing

  ghost predicate Waiting(s: System) {
    && (forall rid | Placing(s, rid) :: SessionsOn(s.pool, s.transit[rid].slot) == {})
    && (forall r1, r2 | Placing(s, r1) && Placing(s, r2) :: r1 == r2)
    && (forall rid | rid in s.transit :: !s.transit[rid].Forking?)
  }

  /** A crash may come at any time; the request that waits on its slot may then not register there. */
  ghost predicate OneAtATime(s: System, e: Event)
    requires Enabled(s, e)
  {
    match e
    case StartNew(_, _, _, _) => forall rid :: !Placing(s, rid)
    case StartLoad(_, ext, _, _) => ext in s.pool.evicted ==> forall rid :: !Placing(s, rid)
    case StartPrompt(_, ext, _, _, _, _) => ext in s.pool.evicted ==> forall rid :: !Placing(s, rid)
    case StartFork(_, ext, _, _) => !Resolves(s.pool, ext)
    case CreateReplied(rid, _, _, _) => Populated(s.pool.slots, s.transit[rid].slot)
    case ReloadReplied(rid, _) => Populated(s.pool.slots, s.transit[rid].slot)
    case _ => true
  }

  /** A load or prompt that reloads nothing gives out no slot. */
  lemma NoReloadNoPlace(s: System, e: Event)
    requires Enabled(s, e) && (e.StartLoad? || e.StartPrompt?) && e.ext !in s.pool.evicted
    ensures forall rid | Placing(Step(s, e), rid) :: Placing(s, rid)
  {
    if e.StartLoad? {
      RecordSenderShape(s.pool, e.ext, e.frontend);
    } else if e.authorized && e.ext !in s.pool.inFlight {
      var recorded := RecordSender(s.pool, e.ext, e.frontend);
      RecordSenderShape(s.pool, e.ext, e.frontend);
      BeginPromptShape(recorded, e.ext, e.frontend);
    }
  }

  lemma OtherEventsWait(s: System, e: Event)
    requires Exclusive(s) && Waiting(s) && Enabled(s, e) && !Counting(e) && OneAtATime(s, e)
    ensures Waiting(Step(s, e))
  {
    var t := Step(s, e);
    OtherEventsUse(s, e);
    OtherEventsPlaced(s, e);
    SelectedIsFree(s.pool);
    if (e.StartLoad? || e.StartPrompt?) && e.ext !in s.pool.evicted {
      NoReloadNoPlace(s, e);
    }
    forall i: nat ensures SessionsOn(t.pool, i) == SessionsOn(s.pool, i) {
      SameUseOn(s.pool, t.pool, i);
    }
    PlacedIsWaiting(s, t, Starts(e));
  }

  lemma PlacedIsWaiting(s: System, t: System, started: bool)
    requires Waiting(s) && PlacedWell(s, t, started) && NoNewFork(s, t)
    requires forall i: nat :: SessionsOn(t.pool, i) == SessionsOn(s.pool, i)
    requires SelectSlot(s.pool).Some? ==> SessionsOn(s.pool, SelectSlot(s.pool).value) == {}
    requires (forall rid :: !Placing(s, rid)) || (forall rid | Placing(t, rid) :: Placing(s, rid))
    ensures Waiting(t)
  {
  }

  lemma FewerPlacing(s: System, t: System)
    requires Waiting(s)
    requires forall rid | Placing(t, rid) :: Placing(s, rid) && t.transit[rid].slot == s.transit[rid].slot
    requires forall rid | rid in t.transit && t.transit[rid].Forking? :: rid in s.transit && s.transit[rid].Forking?
    requires forall i: nat :: SessionsOn(t.pool, i) <= SessionsOn(s.pool, i)
    ensures Waiting(t)
  {
  }

  lemma OnlyPlacing(s: System, rid: nat, t: System)
    requires Waiting(s) && Placing(s, rid)
    requires forall r | r in t.transit && (Placing(t, r) || t.transit[r].Forking?) ::
               r != rid && r in s.transit && t.transit[r] == s.transit[r]
    ensures Waiting(t)
  {
    assert forall r | Placing(t, r) :: Placing(s, r);
  }

  lemma CountingWait(s: System, e: Event)
    requires Waiting(s) && Enabled(s, e) && Counting(e) && !e.ForkReplied?
    ensures Waiting(Step(s, e))
  {
    var t := Step(s, e);
    match e {
      case CreateReplied(rid, _, _, _) => OnlyPlacing(s, rid, t);
      case ReloadReplied(rid, _) => OnlyPlacing(s, rid, t);
      case CloseReplied(_) => FewerPlacing(s, t);
      case IdleEvicted(_, _) => FewerPlacing(s, t);
      case BackendDied(_, _) => FewerPlacing(s, t);
    }
  }

  lemma DisciplinedStep(s: System, e: Event)
    requires Exclusive(s) && Waiting(s) && Enabled(s, e) && OneAtATime(s, e)
    ensures !Crowds(s, e) && Exclusive(Step(s, e)) && Waiting(Step(s, e))
  {
    assert Registers(e) ==> Placing(s, e.rid);
    OneEachUnlessCrowded(s, e);
    if Counting(e) {
      CountingWait(s, e);
    } else {
      OtherEventsWait(s, e);
    }
  }

  ghost predicate Disciplined(s: System, es: seq<Event>)
    requires Run(s, es)
    decreases |es|
  {
    es == [] || (OneAtATime(s, es[0]) && Disciplined(Step(s, es[0]), es[1..]))
  }

  /** Main result: a disciplined run crowds no slot, so every session has a live backend to itself throughout. */
  lemma {:induction false} DisciplinedIsUncrowded(s: System, es: seq<Event>)
    requires Exclusive(s) && Waiting(s) && Run(s, es) && Disciplined(s, es)
    ensures Uncrowded(s, es) && AlwaysOneEach(s, es)
    decreases |es|
  {
    if es != [] {
      DisciplinedStep(s, es[0]);
      DisciplinedIsUncrowded(Step(s, es[0]), es[1..]);
    }
  }

  // ----- Without the discipline -----

  /** What it takes for the request to be answered: the replayed initialize, if there is one to wait for. */
  function Ready(s: System, rid: nat): seq<Event> {
    if rid in s.transit && s.transit[rid].Creating? && s.transit[rid].phase.Initializing?
    then [InitReplied(rid)]
    else []
  }

  lemma GetsReady(s: System, rid: nat, slot: nat, cwd: Path, frontend: FrontendId, phase: Phase)
    requires rid in s.transit && s.transit[rid] == Creating(slot, cwd, frontend, phase) && Alive(s.pool.slots, slot)
    ensures Run(s, Ready(s, rid))
    ensures After(s, Ready(s, rid)) == s.(transit := s.transit[rid := Creating(slot, cwd, frontend, Calling)])
  {
    if phase.Initializing? {
      RunOne(s, InitReplied(rid));
    } else {
      assert s.transit[rid := Creating(slot, cwd, frontend, Calling)] == s.transit;
    }
  }

  lemma AssignedStays(p: Pool)
    requires p.strategy.Dedicated? && SelectSlot(p).Some?
    ensures var i, placed := SelectSlot(p).value, AssignSlot(p, true);
            && placed.1.Some? && placed.1.value.0 == i
            && placed.0.sessions == p.sessions && placed.0.strategy.Dedicated?
            && SelectSlot(placed.0) == Some(i) && Alive(placed.0.slots, i)
            && (Populated(p.slots, i) ==> placed.0 == p && placed.1.value.1.Calling?)
  {
    var i, placed := SelectSlot(p).value, AssignSlot(p, true);
    assert i < |p.slots|;
    assert Idle(placed.0.slots[i]);
  }

  /** The slot given out stays the selected one: its count is zero until a session is registered. */
  lemma StillSelected(s: System, rid: nat, cwd: Path, frontend: FrontendId)
    requires s.pool.strategy.Dedicated? && rid !in s.transit && SelectSlot(s.pool).Some?
    ensures var i, t := SelectSlot(s.pool).value, Step(s, StartNew(rid, cwd, frontend, true));
            && rid in t.transit && t.transit[rid].Creating?
            && t.transit == s.transit[rid := Creating(i, cwd, frontend, t.transit[rid].phase)]
            && t.bound == s.bound && t.pool.sessions == s.pool.sessions && t.pool.strategy.Dedicated?
            && SelectSlot(t.pool) == Some(i) && Alive(t.pool.slots, i)
            && (Populated(s.pool.slots, i) ==> t.pool == s.pool && t.transit[rid].phase.Calling?)
  {
    AssignedStays(s.pool);
  }

  lemma TwoReplies(s: System, r1: nat, r2: nat, slot: nat, cwd: Path, frontend: FrontendId, x: ExternalSid,
                   backX: BackendSid, y: ExternalSid, backY: BackendSid, now: Instant)
    requires r1 in s.transit && s.transit[r1] == Creating(slot, cwd, frontend, Calling) && r1 != r2
    requires r2 in s.transit && s.transit[r2] == Creating(slot, cwd, frontend, Calling)
    requires Fresh(s, x, backX) && Fresh(s, y, backY) && x != y && backX != backY
    ensures var c1, c2 := CreateReplied(r1, x, backX, now), CreateReplied(r2, y, backY, now);
            && Enabled(s, c1) && Enabled(Step(s, c1), c2)
            && var p := Step(Step(s, c1), c2).pool;
               x in p.sessions && y in p.sessions && p.sessions[x].slotIndex == p.sessions[y].slotIndex == slot
  {
  }

  /**
   * Two requests at once: from any state with a slot to give, both are given the same one, and end up
   * as two sessions on it.
   */
  lemma ConcurrentRequestsShareASlot(s: System, r1: nat, r2: nat, cwd: Path, frontend: FrontendId, x: ExternalSid,
                                     backX: BackendSid, y: ExternalSid, backY: BackendSid, now: Instant)
    requires s.pool.strategy.Dedicated? && SelectSlot(s.pool).Some?
    requires r1 !in s.transit && r2 !in s.transit && r1 != r2
    requires Fresh(s, x, backX) && Fresh(s, y, backY) && x != y && backX != backY
    ensures var starts := [StartNew(r1, cwd, frontend, true), StartNew(r2, cwd, frontend, true)];
            && Run(s, starts)
            && var es := starts + Ready(After(s, starts), r1)
                         + [CreateReplied(r1, x, backX, now), CreateReplied(r2, y, backY, now)];
               && Run(s, es)
               && var p := After(s, es).pool;
                  x in p.sessions && y in p.sessions && p.sessions[x].slotIndex == p.sessions[y].slotIndex
  {
    var e1, e2 := StartNew(r1, cwd, frontend, true), StartNew(r2, cwd, frontend, true);
    var i := SelectSlot(s.pool).value;
    StillSelected(s, r1, cwd, frontend);
    var t := Step(s, e1);
    StillSelected(t, r2, cwd, frontend);
    var u := Step(t, e2);
    RunTwo(s, e1, e2);
    GetsReady(u, r1, i, cwd, frontend, u.transit[r1].phase);
    var v := After(u, Ready(u, r1));
    RunAppend(s, [e1, e2], Ready(u, r1));
    TwoReplies(v, r1, r2, i, cwd, frontend, x, backX, y, backY, now);
    var c1, c2 := CreateReplied(r1, x, backX, now), CreateReplied(r2, y, backY, now);
    RunTwo(v, c1, c2);
    RunAppend(s, [e1, e2] + Ready(u, r1), [c1, c2]);
  }

  /** A fork: from any state with an active session, its fork is a second session on the same slot. */
  lemma ForkSharesASlot(s: System, rid: nat, ext: ExternalSid, cwd: Path, frontend: FrontendId, fork: ExternalSid,
                        back: BackendSid, now: Instant)
    requires Consistent(s) && Resolves(s.pool, ext) && rid !in s.transit && Fresh(s, fork, back)
    ensures var es := [StartFork(rid, ext, cwd, frontend), ForkReplied(rid, fork, back, now)];
            && Run(s, es)
            && var p := After(s, es).pool;
               && ext in p.sessions && fork in p.sessions && fork != ext
               && p.sessions[ext].slotIndex == p.sessions[fork].slotIndex
  {
    var e1, e2 := StartFork(rid, ext, cwd, frontend), ForkReplied(rid, fork, back, now);
    assert ext in s.bound;
    RunTwo(s, e1, e2);
  }

  lemma DeadThenAnswered(s: System, rid: nat, i: nat, cwd: Path, frontend: FrontendId, x: ExternalSid,
                         backX: BackendSid, died: Instant, now: Instant)
    requires s.pool.strategy.Dedicated? && i < |s.pool.slots| && Fresh(s, x, backX)
    requires rid in s.transit && s.transit[rid] == Creating(i, cwd, frontend, Calling)
    ensures var e1, e2 := BackendDied(i, died), CreateReplied(rid, x, backX, now);
            && Enabled(s, e1) && Enabled(Step(s, e1), e2)
            && var p := Step(Step(s, e1), e2).pool;
               x in p.sessions && p.sessions[x].slotIndex == i && !Populated(p.slots, i)
  {
    var dead := Step(s, BackendDied(i, died));
    assert dead == s.(pool := PoolModel.BackendDeath(s.pool, i, died));
  }

  /** A crash: a backend that answers and dies before the answer is taken leaves a session on an empty slot. */
  lemma CrashLeavesNoBackend(s: System, rid: nat, cwd: Path, frontend: FrontendId, x: ExternalSid, backX: BackendSid,
                             died: Instant, now: Instant)
    requires s.pool.strategy.Dedicated? && SelectSlot(s.pool).Some? && rid !in s.transit && Fresh(s, x, backX)
    ensures var start := StartNew(rid, cwd, frontend, true);
            var i := SelectSlot(s.pool).value;
            var es := [start] + Ready(Step(s, start), rid) + [BackendDied(i, died), CreateReplied(rid, x, backX, now)];
            && Run(s, es)
            && var p := After(s, es).pool;
               x in p.sessions && p.sessions[x].slotIndex == i && !Populated(p.slots, i)
  {
    var start := StartNew(rid, cwd, frontend, true);
    var i := SelectSlot(s.pool).value;
    StillSelected(s, rid, cwd, frontend);
    var t := Step(s, start);
    GetsReady(t, rid, i, cwd, frontend, t.transit[rid].phase);
    RunOne(s, start);
    RunAppend(s, [start], Ready(t, rid));
    var v := After(t, Ready(t, rid));
    DeadThenAnswered(v, rid, i, cwd, frontend, x, backX, died, now);
    RunTwo(v, BackendDied(i, died), CreateReplied(rid, x, backX, now));
    RunAppend(s, [start] + Ready(t, rid), [BackendDied(i, died), CreateReplied(rid, x, backX, now)]);
  }
}
