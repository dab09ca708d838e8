/**
 * Dedicated mode gives each session a live backend of its own exactly as long as no reply registers
 * a session on a slot that is empty or already has one; slot selection then fails exactly when
 * `poolSize` sessions are active. One request for a slot at a time, and no forks, is one way to
 * get there, crashes included.
 */
module DedicatedMode {
  import opened Wrappers
  import opened PoolModel
  import opened GatewaySystem
  import opened SessionDirectory
  import opened SlotAccounting

  ghost predicate OneEach(p: Pool) {
    && p.strategy.Dedicated? && |p.slots| == p.poolSize >= 1
    && (forall i | 0 <= i < |p.slots| && p.slots[i].Some? :: p.slots[i].value.alive)
    && (forall ext | ext in p.sessions :: Populated(p.slots, p.sessions[ext].slotIndex))
    && (forall x, y |
          x in p.sessions && y in p.sessions && p.sessions[x].slotIndex == p.sessions[y].slotIndex :: x == y)
  }

  ghost predicate Exclusive(s: System) {
    Consistent(s) && Exact(s.pool) && OneEach(s.pool)
  }

  /** The event registers a session on a slot that is empty or carries a session already. */
  ghost predicate Crowds(s: System, e: Event)
    requires Enabled(s, e)
  {
    Registers(e) && !(Populated(s.pool.slots, s.transit[e.rid].slot) && SessionsOn(s.pool, s.transit[e.rid].slot) == {})
  }

  // ----- Selection -----

  lemma SelectedIsFree(p: Pool)
    requires OneEach(p) && Exact(p)
    ensures SelectSlot(p).Some? ==>
              var i := SelectSlot(p).value;
              i < |p.slots| && SessionsOn(p, i) == {} && (p.slots[i].None? || Idle(p.slots[i]))
  {
    if SelectSlot(p).Some? {
      var i := SelectSlot(p).value;
      if p.slots[i].Some? {
        assert Populated(p.slots, i) && Load(p.slots, i) == |SessionsOn(p, i)|;
      } else {
        assert forall ext | ext in p.sessions :: Populated(p.slots, p.sessions[ext].slotIndex);
      }
    }
  }

  ghost function UsedSlots(p: Pool, some: set<ExternalSid>): set<nat> {
    set ext | ext in some && ext in p.sessions :: p.sessions[ext].slotIndex
  }

  lemma {:induction false} UsedSlotsCount(p: Pool, some: set<ExternalSid>)
    requires OneEach(p) && some <= p.sessions.Keys
    ensures |UsedSlots(p, some)| == |some|
    decreases |some|
  {
    if some != {} {
      var ext :| ext in some;
      UsedSlotsCount(p, some - {ext});
      assert UsedSlots(p, some) == UsedSlots(p, some - {ext}) + {p.sessions[ext].slotIndex};
    }
  }

  lemma {:induction false} BoundedSet(a: set<nat>, n: nat)
    requires forall i | i in a :: i < n
    ensures |a| <= n
    ensures |a| == n <==> forall i: nat | i < n :: i in a
  {
    if n > 0 {
      var b := a - {n - 1};
      BoundedSet(b, n - 1);
      if n - 1 in a {
        assert a == b + {n - 1};
        assert forall i: nat | i < n - 1 :: i in a <==> i in b;
      } else {
        assert a == b;
      }
    } else {
      assert a == {};
    }
  }

  /** Main result: a new session is refused exactly when every slot already has its session. */
  lemma ExhaustedExactlyWhenFull(p: Pool)
    requires OneEach(p) && Exact(p)
    ensures |p.sessions| <= p.poolSize
    ensures SelectSlot(p).None? <==> |p.sessions| == p.poolSize
  {
    var used := UsedSlots(p, p.sessions.Keys);
    UsedSlotsCount(p, p.sessions.Keys);
    BoundedSet(used, p.poolSize);
    SelectedIsFree(p);
    if SelectSlot(p).Some? {
      var i := SelectSlot(p).value;
      assert forall ext | ext in p.sessions && p.sessions[ext].slotIndex == i :: ext in SessionsOn(p, i);
      assert i !in used;
    } else {
      forall i: nat | i < p.poolSize ensures i in used {
        assert !Idle(p.slots[i]);
        assert Populated(p.slots, i) && Load(p.slots, i) == |SessionsOn(p, i)|;
        var ext :| ext in SessionsOn(p, i);
      }
    }
  }

  // ----- Events that leave sessions on their slots -----

  lemma SpawnKeepsOneEach(p: Pool, q: Pool, at: Option<nat>)
    requires OneEach(p) && SameUse(p, q) && q.strategy == p.strategy && q.poolSize == p.poolSize
    requires q.slots == SpawnedInto(p, at)
    requires at.Some? ==> at.value < |p.slots| && p.slots[at.value].None?
    ensures OneEach(q)
    ensures forall i: nat | Populated(p.slots, i) :: Populated(q.slots, i)
    ensures forall i: nat :: SessionsOn(q, i) == SessionsOn(p, i)
  {
    forall i: nat ensures SessionsOn(q, i) == SessionsOn(p, i) {
      SameUseOn(p, q, i);
    }
  }

  lemma SpawnsIntoEmpty(s: System, e: Event)
    requires Exclusive(s) && Enabled(s, e)
    ensures Spawns(s, e).Some? ==>
              var i := Spawns(s, e).value;
              i < |s.pool.slots| && s.pool.slots[i].None? && SessionsOn(s.pool, i) == {}
  {
    SelectedIsFree(s.pool);
    if Spawns(s, e).Some? {
      var i := Spawns(s, e).value;
      assert e.Initialize? ==> !Alive(s.pool.slots, 0);
      assert !Populated(s.pool.slots, i);
      assert forall ext | ext in s.pool.sessions :: s.pool.sessions[ext].slotIndex != i;
    }
  }

  lemma ReloadConfig(p: Pool, ext: ExternalSid, frontend: FrontendId, spawned: bool, prompting: bool)
    ensures var q := Reload(p, ext, frontend, spawned, prompting).0;
            q.strategy == p.strategy && q.poolSize == p.poolSize
  {
  }

  lemma PromptBegunConfig(s: System, begun: Pool, rid: nat, ext: ExternalSid, frontend: FrontendId, spawned: bool,
                          now: Instant)
    ensures var q := PromptBegun(s, begun, rid, ext, frontend, spawned, now).pool;
            q.strategy == begun.strategy && q.poolSize == begun.poolSize
  {
    ReloadConfig(begun, ext, frontend, spawned, true);
  }

  lemma PromptStartedConfig(s: System, rid: nat, ext: ExternalSid, frontend: FrontendId, spawned: bool, now: Instant)
    requires ext !in s.pool.inFlight
    ensures var q := PromptStarted(s, rid, ext, frontend, spawned, now).pool;
            q.strategy == s.pool.strategy && q.poolSize == s.pool.poolSize
  {
    var recorded := RecordSender(s.pool, ext, frontend);
    PromptBegunConfig(s, BeginPrompt(recorded, ext, frontend), rid, ext, frontend, spawned, now);
  }

  lemma PlainConfig(s: System, e: Event)
    requires Enabled(s, e) && !e.StartLoad? && !e.StartPrompt?
    ensures Step(s, e).pool.strategy == s.pool.strategy && Step(s, e).pool.poolSize == s.pool.poolSize
  {
  }

  lemma ConfigKept(s: System, e: Event)
    requires Enabled(s, e)
    ensures Step(s, e).pool.strategy == s.pool.strategy && Step(s, e).pool.poolSize == s.pool.poolSize
  {
    match e {
      case StartLoad(_, ext, frontend, spawned) =>
        ReloadConfig(RecordSender(s.pool, ext, frontend), ext, frontend, spawned, false);
      case StartPrompt(rid, ext, frontend, authorized, spawned, now) =>
        if ext !in s.pool.inFlight {
          PromptStartedConfig(s, rid, ext, frontend, spawned, now);
        }
      case _ => PlainConfig(s, e);
    }
  }

  // ----- Events that move sessions or free slots -----

  lemma RegisterOneEach(p: Pool, ext: ExternalSid, back: BackendSid, slot: nat, cwd: Path, frontend: FrontendId,
                        now: Instant)
    requires OneEach(p) && ext !in p.sessions && Populated(p.slots, slot) && SessionsOn(p, slot) == {}
    ensures OneEach(Register(p, ext, back, slot, cwd, frontend, now))
  {
    assert forall x | x in p.sessions && p.sessions[x].slotIndex == slot :: x in SessionsOn(p, slot);
  }

  lemma RemoveOneEach(p: Pool, ext: ExternalSid)
    requires OneEach(p) && Exact(p) && ext in p.sessions
    ensures var q, slot := Remove(p, ext), p.sessions[ext].slotIndex;
            OneEach(q) && forall i: nat | i != slot && Populated(p.slots, i) :: Populated(q.slots, i)
  {
    var q, slot := Remove(p, ext), p.sessions[ext].slotIndex;
    assert forall x | x in q.sessions :: p.sessions[x].slotIndex != slot;
    assert forall i: nat | i != slot && Populated(p.slots, i) :: Populated(q.slots, i);
  }

  /** Eviction frees exactly the slots of evicted sessions. */
  lemma EvictedSlotIs(p: Pool, now: Instant, timeout: nat, i: nat)
    requires p.strategy.Dedicated? && i < |p.slots|
    ensures EvictIdle(p, now, timeout).slots[i]
            == if IdleSessions(p, now, timeout) * SessionsOn(p, i) == {} then p.slots[i] else None
  {
  }

  lemma EvictedSessions(p: Pool, now: Instant, timeout: nat)
    ensures var q := EvictIdle(p, now, timeout);
            && q.strategy == p.strategy && q.poolSize == p.poolSize && |q.slots| == |p.slots|
            && forall ext | ext in q.sessions ::
                 ext in p.sessions && ext !in IdleSessions(p, now, timeout) && q.sessions[ext] == p.sessions[ext]
  {
  }

  lemma KeptOnItsSlot(p: Pool, now: Instant, timeout: nat, ext: ExternalSid)
    requires OneEach(p) && ext in p.sessions && ext !in IdleSessions(p, now, timeout)
    ensures Populated(EvictIdle(p, now, timeout).slots, p.sessions[ext].slotIndex)
  {
    var i := p.sessions[ext].slotIndex;
    EvictedSlotIs(p, now, timeout, i);
    assert IdleSessions(p, now, timeout) * SessionsOn(p, i) == {};
  }

  lemma EvictOneEach(p: Pool, now: Instant, timeout: nat)
    requires OneEach(p)
    ensures var q := EvictIdle(p, now, timeout);
            && OneEach(q)
            && forall i: nat | Populated(p.slots, i) && SessionsOn(p, i) == {} :: Populated(q.slots, i)
  {
    var q := EvictIdle(p, now, timeout);
    EvictedSessions(p, now, timeout);
    forall i: nat | i < |p.slots|
      ensures q.slots[i].None? || q.slots[i] == p.slots[i]
      ensures SessionsOn(p, i) == {} ==> q.slots[i] == p.slots[i]
    {
      EvictedSlotIs(p, now, timeout, i);
    }
    forall ext | ext in q.sessions ensures Populated(q.slots, q.sessions[ext].slotIndex) {
      KeptOnItsSlot(p, now, timeout, ext);
    }
  }

  lemma DeathOneEach(p: Pool, slot: nat, now: Instant)
    requires OneEach(p)
    ensures OneEach(BackendDeath(p, slot, now))
    ensures forall i: nat | i != slot && Populated(p.slots, i) :: Populated(BackendDeath(p, slot, now).slots, i)
  {
    assert forall ext | ext in p.sessions && p.sessions[ext].slotIndex == slot :: ext in SessionsOn(p, slot);
  }

  /** A registration on an empty or used slot is the end of it. */
  lemma CrowdedRegister(p: Pool, ext: ExternalSid, back: BackendSid, slot: nat, cwd: Path, frontend: FrontendId,
                        now: Instant)
    requires ext !in p.sessions && !(Populated(p.slots, slot) && SessionsOn(p, slot) == {})
    ensures !OneEach(Register(p, ext, back, slot, cwd, frontend, now))
  {
    var q := Register(p, ext, back, slot, cwd, frontend, now);
    assert q.sessions[ext].slotIndex == slot;
    if Populated(p.slots, slot) {
      var other :| other in SessionsOn(p, slot);
      assert q.sessions[other].slotIndex == slot && other != ext;
    }
  }

  lemma RegisterExactly(p: Pool, ext: ExternalSid, back: BackendSid, slot: nat, cwd: Path, frontend: FrontendId,
                        now: Instant)
    requires OneEach(p) && ext !in p.sessions
    ensures OneEach(Register(p, ext, back, slot, cwd, frontend, now))
            <==> Populated(p.slots, slot) && SessionsOn(p, slot) == {}
  {
    if Populated(p.slots, slot) && SessionsOn(p, slot) == {} {
      RegisterOneEach(p, ext, back, slot, cwd, frontend, now);
    } else {
      CrowdedRegister(p, ext, back, slot, cwd, frontend, now);
    }
  }

  lemma SameUseOneEach(p: Pool, q: Pool)
    requires SameUse(p, q) && q.slots == p.slots && q.strategy == p.strategy && q.poolSize == p.poolSize
    ensures OneEach(p) ==> OneEach(q)
  {
  }

  lemma TouchOneEach(p: Pool, ext: ExternalSid, now: Instant)
    ensures OneEach(Touch(p, ext, now)) <==> OneEach(p)
  {
    SameUseOneEach(p, Touch(p, ext, now));
    SameUseOneEach(Touch(p, ext, now), p);
  }

  lemma ReloadedOneEach(s: System, rid: nat, now: Instant)
    requires Exclusive(s) && Enabled(s, ReloadReplied(rid, now))
    ensures OneEach(Step(s, ReloadReplied(rid, now)).pool) <==> !Crowds(s, ReloadReplied(rid, now))
  {
    var r := s.transit[rid];
    assert Reloads(s, rid);
    RegisterExactly(s.pool, r.ext, r.entry.backendSid, r.slot, r.entry.cwd, r.frontend, now);
    TouchOneEach(Register(s.pool, r.ext, r.entry.backendSid, r.slot, r.entry.cwd, r.frontend, now), r.ext, now);
  }

  lemma CountingOneEach(s: System, e: Event)
    requires Exclusive(s) && Enabled(s, e) && Counting(e)
    ensures OneEach(Step(s, e).pool) <==> !Crowds(s, e)
  {
    match e {
      case CreateReplied(rid, ext, back, now) =>
        var r := s.transit[rid];
        RegisterExactly(s.pool, ext, back, r.slot, r.cwd, r.frontend, now);
      case ForkReplied(rid, ext, back, now) =>
        var r := s.transit[rid];
        RegisterExactly(s.pool, ext, back, r.slot, r.cwd, r.frontend, now);
      case ReloadReplied(rid, now) => ReloadedOneEach(s, rid, now);
      case CloseReplied(rid) =>
        if s.transit[rid].ext in s.pool.sessions {
          RemoveOneEach(s.pool, s.transit[rid].ext);
        }
      case IdleEvicted(now, timeout) => EvictOneEach(s.pool, now, timeout);
      case BackendDied(slot, now) => DeathOneEach(s.pool, slot, now);
    }
  }

  lemma OtherEventsOneEach(s: System, e: Event)
    requires Exclusive(s) && Enabled(s, e) && !Counting(e)
    ensures OneEach(Step(s, e).pool)
  {
    OtherEventsUse(s, e);
    SpawnsIntoEmpty(s, e);
    ConfigKept(s, e);
    SpawnKeepsOneEach(s.pool, Step(s, e).pool, Spawns(s, e));
  }

  // ----- Every event, and every run -----

  /**
   * Main result: one live backend per session is kept by every event but one that registers a
   * session on an empty or used slot; counters and directory are kept by that event too.
   */
  lemma OneEachUnlessCrowded(s: System, e: Event)
    requires Exclusive(s) && Enabled(s, e)
    ensures Consistent(Step(s, e)) && Exact(Step(s, e).pool)
    ensures OneEach(Step(s, e).pool) <==> !Crowds(s, e)
  {
    StepKeepsConsistent(s, e);
    SpawnsIntoEmpty(s, e);
    ExactUnlessClobbered(s, e);
    if Counting(e) {
      CountingOneEach(s, e);
    } else {
      OtherEventsOneEach(s, e);
    }
  }

  ghost predicate Uncrowded(s: System, es: seq<Event>)
    requires Run(s, es)
    decreases |es|
  {
    es == [] || (!Crowds(s, es[0]) && Uncrowded(Step(s, es[0]), es[1..]))
  }

  /** Every state of the run gives each session a live backend of its own. */
  ghost predicate AlwaysOneEach(s: System, es: seq<Event>)
    requires Run(s, es)
    decreases |es|
  {
    OneEach(s.pool) && (es == [] || AlwaysOneEach(Step(s, es[0]), es[1..]))
  }

  /** Main result: over a whole run, one backend per session throughout is no crowding throughout. */
  lemma {:induction false} RunOneEachUnlessCrowded(s: System, es: seq<Event>)
    requires Exclusive(s) && Run(s, es)
    ensures AlwaysOneEach(s, es) <==> Uncrowded(s, es)
    ensures Uncrowded(s, es) ==> Exclusive(After(s, es))
    decreases |es|
  {
    if es != [] {
      var t := Step(s, es[0]);
      OneEachUnlessCrowded(s, es[0]);
      if Crowds(s, es[0]) {
        assert !AlwaysOneEach(t, es[1..]);
      } else {
        RunOneEachUnlessCrowded(t, es[1..]);
      }
    }
  }

  lemma BootExclusive(poolSize: nat)
    requires poolSize >= 1
    ensures Exclusive(Boot(Dedicated, poolSize))
  {
  }

  lemma {:induction false} PoolSizeKept(s: System, es: seq<Event>)
    requires Run(s, es)
    ensures After(s, es).pool.poolSize == s.pool.poolSize
    decreases |es|
  {
    if es != [] {
      ConfigKept(s, es[0]);
      PoolSizeKept(Step(s, es[0]), es[1..]);
    }
  }

  /**
   * Main result: after every uncrowded run of creates, forks, closes, evictions, reloads and crashes
   * sessions map one to one to live backends, and selection fails exactly when the pool is full.
   */
  lemma DedicatedIsExclusive(poolSize: nat, es: seq<Event>)
    requires poolSize >= 1 && Run(Boot(Dedicated, poolSize), es) && Uncrowded(Boot(Dedicated, poolSize), es)
    ensures var p := After(Boot(Dedicated, poolSize), es).pool;
            && (forall ext | ext in p.sessions :: Alive(p.slots, p.sessions[ext].slotIndex))
            && (forall x, y | x in p.sessions && y in p.sessions && x != y ::
                  p.sessions[x].slotIndex != p.sessions[y].slotIndex)
            && (SelectSlot(p).None? <==> |p.sessions| == poolSize)
  {
    BootExclusive(poolSize);
    RunOneEachUnlessCrowded(Boot(Dedicated, poolSize), es);
    ExhaustedExactlyWhenFull(After(Boot(Dedicated, poolSize), es).pool);
    PoolSizeKept(Boot(Dedicated, poolSize), es);
  }
}
