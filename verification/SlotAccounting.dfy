/**
 * The load counters of the slots. They never exceed the sessions mapped to a slot, in every
 * interleaving; they are exact until a backend is spawned into a slot that sessions still refer to.
 */
module SlotAccounting {
  import opened Wrappers
  import opened PoolModel
  import opened GatewaySystem
  import opened SessionDirectory

  ghost predicate NeverOver(p: Pool) {
    forall i: nat | Populated(p.slots, i) :: Load(p.slots, i) <= |SessionsOn(p, i)|
  }

  ghost predicate Exact(p: Pool) {
    forall i: nat | Populated(p.slots, i) :: Load(p.slots, i) == |SessionsOn(p, i)|
  }

  // ----- The five operations that change counters or slots -----

  lemma RegisterCounts(p: Pool, ext: ExternalSid, back: BackendSid, slot: nat, cwd: Path, frontend: FrontendId,
                       now: Instant, i: nat)
    requires ext !in p.sessions
    ensures var q := Register(p, ext, back, slot, cwd, frontend, now);
            && |SessionsOn(q, i)| == |SessionsOn(p, i)| + (if i == slot then 1 else 0)
            && (Populated(q.slots, i) <==> Populated(p.slots, i))
            && (Populated(p.slots, i) ==> Load(q.slots, i) == Load(p.slots, i) + (if i == slot then 1 else 0))
  {
    var q := Register(p, ext, back, slot, cwd, frontend, now);
    if i == slot {
      assert SessionsOn(q, i) == SessionsOn(p, i) + {ext};
    } else {
      assert SessionsOn(q, i) == SessionsOn(p, i);
    }
  }

  lemma RemoveCounts(p: Pool, ext: ExternalSid, i: nat)
    requires ext in p.sessions
    ensures var q, on := Remove(p, ext), p.sessions[ext].slotIndex == i;
            && |SessionsOn(q, i)| == |SessionsOn(p, i)| - (if on then 1 else 0)
            && (on ==> |SessionsOn(p, i)| >= 1)
            && (Populated(q.slots, i) ==>
                  Populated(p.slots, i) && Load(q.slots, i) == SaturatingSub(Load(p.slots, i), if on then 1 else 0))
  {
    var q := Remove(p, ext);
    if p.sessions[ext].slotIndex == i {
      assert ext in SessionsOn(p, i);
      assert SessionsOn(q, i) == SessionsOn(p, i) - {ext};
    } else {
      assert SessionsOn(q, i) == SessionsOn(p, i);
    }
  }

  lemma EvictCounts(p: Pool, gone: set<ExternalSid>, now: Instant, i: nat)
    requires gone <= p.sessions.Keys
    ensures var q := Park(p, gone, now).(slots := EvictedSlots(p, gone));
            && |SessionsOn(q, i)| == |SessionsOn(p, i)| - |gone * SessionsOn(p, i)|
            && (Populated(q.slots, i) ==>
                  Populated(p.slots, i)
                  && Load(q.slots, i) == SaturatingSub(Load(p.slots, i), |gone * SessionsOn(p, i)|))
  {
    EvictLeaves(p, gone, now, i);
  }

  lemma EvictLeaves(p: Pool, gone: set<ExternalSid>, now: Instant, i: nat)
    requires gone <= p.sessions.Keys
    ensures var q := Park(p, gone, now).(slots := EvictedSlots(p, gone));
            SessionsOn(q, i) == SessionsOn(p, i) - gone * SessionsOn(p, i)
  {
  }

  lemma DeathCounts(p: Pool, slot: nat, now: Instant, i: nat)
    ensures var q := BackendDeath(p, slot, now);
            && (Populated(q.slots, i) ==> Populated(p.slots, i))
            && (i != slot ==> SessionsOn(q, i) == SessionsOn(p, i) && Load(q.slots, i) == Load(p.slots, i))
            && (i == slot ==> SessionsOn(q, i) == {} && Load(q.slots, i) == 0)
  {
    var q := BackendDeath(p, slot, now);
    assert i != slot ==> SessionsOn(q, i) == SessionsOn(p, i);
  }

  // ----- All the other events -----

  function SpawnIndex(p: Pool, spawned: bool): Option<nat> {
    match SelectSlot(p)
    case Some(i) => if p.strategy.Dedicated? && !Populated(p.slots, i) && spawned then Some(i) else None
    case None => None
  }

  /** The slot, if any, into which the event spawns a backend. */
  function Spawns(s: System, e: Event): Option<nat> {
    match e
    case BackendSpawned(i) => Some(i)
    case Initialize(_, spawned) =>
      if s.pool.strategy.Dedicated? && spawned && forall i: nat | i < |s.pool.slots| :: !Alive(s.pool.slots, i)
      then Some(0) else None
    case StartNew(_, _, _, spawned) => SpawnIndex(s.pool, spawned)
    case StartLoad(_, ext, _, spawned) =>
      if !Resolves(s.pool, ext) && ext in s.pool.evicted then SpawnIndex(s.pool, spawned) else None
    case StartPrompt(_, ext, _, authorized, spawned, _) =>
      if authorized && ext !in s.pool.inFlight && !Resolves(s.pool, ext) && ext in s.pool.evicted
      then SpawnIndex(s.pool, spawned) else None
    case _ => None
  }

  /** Sessions stay on their slots. */
  ghost predicate SameUse(p: Pool, q: Pool) {
    && q.sessions.Keys == p.sessions.Keys
    && (forall ext | ext in p.sessions :: q.sessions[ext].slotIndex == p.sessions[ext].slotIndex)
  }

  predicate Counting(e: Event) {
    e.CreateReplied? || e.ForkReplied? || e.ReloadReplied? || e.CloseReplied? || e.IdleEvicted? || e.BackendDied?
  }

  function SpawnedInto(p: Pool, at: Option<nat>): seq<Option<Slot>> {
    match at
    case None => p.slots
    case Some(i) => InsertSlot(p, i, FRESH_SLOT).slots
  }

  /** Sessions, slots and evicted ids are the same, so slot selection is too. */
  ghost predicate SameShape(p: Pool, q: Pool) {
    SameUse(p, q) && q.slots == p.slots && q.strategy == p.strategy && q.evicted.Keys == p.evicted.Keys
  }

  lemma RecordSenderShape(p: Pool, ext: ExternalSid, frontend: FrontendId)
    ensures SameShape(p, RecordSender(p, ext, frontend))
  {
  }

  lemma ReloadUse(p: Pool, q: Pool, ext: ExternalSid, frontend: FrontendId, spawned: bool, prompting: bool)
    requires SameShape(p, q)
    ensures var r := Reload(q, ext, frontend, spawned, prompting).0;
            SameUse(p, r) && r.slots == SpawnedInto(p, if ext in p.evicted then SpawnIndex(p, spawned) else None)
  {
    assert SelectSlot(TakeEvicted(q, ext)) == SelectSlot(p);
  }

  lemma PromptBegunUse(s: System, begun: Pool, rid: nat, ext: ExternalSid, frontend: FrontendId, spawned: bool,
                       now: Instant)
    requires SameShape(s.pool, begun)
    ensures var q := PromptBegun(s, begun, rid, ext, frontend, spawned, now).pool;
            && SameUse(s.pool, q)
            && q.slots == SpawnedInto(s.pool, if !Resolves(s.pool, ext) && ext in s.pool.evicted
                                              then SpawnIndex(s.pool, spawned) else None)
  {
    if Resolves(begun, ext) {
      TouchUse(begun, ext, now);
    } else {
      ReloadUse(s.pool, begun, ext, frontend, spawned, true);
    }
  }

  lemma TouchUse(p: Pool, ext: ExternalSid, now: Instant)
    ensures SameUse(p, Touch(p, ext, now)) && Touch(p, ext, now).slots == p.slots
  {
  }

  lemma BeginPromptShape(p: Pool, ext: ExternalSid, frontend: FrontendId)
    requires ext !in p.inFlight
    ensures SameShape(p, BeginPrompt(p, ext, frontend))
  {
    RecordSenderShape(p.(inFlight := p.inFlight + {ext}, promptSenders := p.promptSenders[ext := frontend]),
                      ext, frontend);
  }

  lemma PromptUse(s: System, e: Event)
    requires Enabled(s, e) && e.StartPrompt?
    ensures SameUse(s.pool, Step(s, e).pool) && Step(s, e).pool.slots == SpawnedInto(s.pool, Spawns(s, e))
  {
    var recorded := RecordSender(s.pool, e.ext, e.frontend);
    RecordSenderShape(s.pool, e.ext, e.frontend);
    if e.authorized && e.ext !in s.pool.inFlight {
      var begun := BeginPrompt(recorded, e.ext, e.frontend);
      BeginPromptShape(recorded, e.ext, e.frontend);
      PromptBegunUse(s, begun, e.rid, e.ext, e.frontend, e.spawned, e.now);
    }
  }

  lemma LoadUse(s: System, rid: nat, ext: ExternalSid, frontend: FrontendId, spawned: bool)
    ensures var q := LoadStarted(s, rid, ext, frontend, spawned).pool;
            && SameUse(s.pool, q)
            && q.slots == SpawnedInto(s.pool, Spawns(s, StartLoad(rid, ext, frontend, spawned)))
  {
    RecordSenderShape(s.pool, ext, frontend);
    ReloadUse(s.pool, RecordSender(s.pool, ext, frontend), ext, frontend, spawned, false);
  }

  lemma OtherEventsUse(s: System, e: Event)
    requires Enabled(s, e) && !Counting(e)
    ensures SameUse(s.pool, Step(s, e).pool) && Step(s, e).pool.slots == SpawnedInto(s.pool, Spawns(s, e))
  {
    match e {
      case StartPrompt(_, _, _, _, _, _) => PromptUse(s, e);
      case StartLoad(rid, ext, frontend, spawned) => LoadUse(s, rid, ext, frontend, spawned);
      case StartFork(_, ext, _, frontend) => RecordSenderShape(s.pool, ext, frontend);
      case StartClose(_, ext, frontend) => RecordSenderShape(s.pool, ext, frontend);
      case SenderRecorded(ext, frontend) => RecordSenderShape(s.pool, ext, frontend);
      case StartNew(_, _, _, _) => NewUse(s, e);
      case InitReplied(_) => FinishUse(s, e);
      case RequestEnded(_) => FinishUse(s, e);
      case _ => PlainUse(s, e);
    }
  }

  lemma NewUse(s: System, e: Event)
    requires Enabled(s, e) && e.StartNew?
    ensures SameUse(s.pool, Step(s, e).pool) && Step(s, e).pool.slots == SpawnedInto(s.pool, Spawns(s, e))
  {
  }

  lemma FinishUse(s: System, e: Event)
    requires Enabled(s, e) && (e.InitReplied? || e.RequestEnded?)
    ensures SameUse(s.pool, Step(s, e).pool) && Step(s, e).pool.slots == SpawnedInto(s.pool, Spawns(s, e))
  {
  }

  lemma PlainUse(s: System, e: Event)
    requires Enabled(s, e)
    requires e.Initialize? || e.Purged? || e.BackendSpawned?
    ensures SameUse(s.pool, Step(s, e).pool) && Step(s, e).pool.slots == SpawnedInto(s.pool, Spawns(s, e))
  {
  }

  lemma SameUseOn(p: Pool, q: Pool, i: nat)
    requires SameUse(p, q)
    ensures SessionsOn(q, i) == SessionsOn(p, i)
  {
  }

  // ----- Every event -----

  /** What an event does to the counter of slot `i` and to the number of sessions on it. */
  datatype Change = Change(populated: bool, load: nat, mapped: nat)

  ghost function At(p: Pool, i: nat): Change {
    Change(Populated(p.slots, i), Load(p.slots, i), |SessionsOn(p, i)|)
  }

  /** A freshly spawned backend counts from zero; any other change keeps the two in step. */
  ghost predicate Moves(was: Change, now: Change, spawned: bool) {
    now.populated ==>
      if spawned then now.load == 0 && now.mapped == was.mapped
      else
        && was.populated
        && (was.load <= was.mapped ==> now.load <= now.mapped)
        && (was.load == was.mapped ==> now.load == now.mapped)
  }

  lemma CreatedMoves(p: Pool, ext: ExternalSid, back: BackendSid, slot: nat, cwd: Path, frontend: FrontendId,
                     now: Instant, i: nat)
    requires ext !in p.sessions
    ensures Moves(At(p, i), At(Register(p, ext, back, slot, cwd, frontend, now), i), false)
  {
    RegisterCounts(p, ext, back, slot, cwd, frontend, now, i);
  }

  lemma ReloadedMoves(s: System, rid: nat, t: Instant, i: nat)
    requires Consistent(s) && Enabled(s, ReloadReplied(rid, t))
    ensures Moves(At(s.pool, i), At(Step(s, ReloadReplied(rid, t)).pool, i), false)
  {
    var r := s.transit[rid];
    assert Reloads(s, rid);
    CreatedMoves(s.pool, r.ext, r.entry.backendSid, r.slot, r.entry.cwd, r.frontend, t, i);
    var q := Register(s.pool, r.ext, r.entry.backendSid, r.slot, r.entry.cwd, r.frontend, t);
    SameUseOn(q, Touch(q, r.ext, t), i);
  }

  lemma RemovedMoves(p: Pool, ext: ExternalSid, i: nat)
    ensures Moves(At(p, i), At(Remove(p, ext), i), false)
  {
    if ext in p.sessions {
      RemoveCounts(p, ext, i);
    }
  }

  lemma EvictedMoves(p: Pool, t: Instant, timeout: nat, i: nat)
    ensures Moves(At(p, i), At(EvictIdle(p, t, timeout), i), false)
  {
    EvictCounts(p, IdleSessions(p, t, timeout), t, i);
  }

  lemma DiedMoves(p: Pool, slot: nat, t: Instant, i: nat)
    ensures Moves(At(p, i), At(BackendDeath(p, slot, t), i), false)
  {
    DeathCounts(p, slot, t, i);
  }

  lemma CountingMoves(s: System, e: Event, i: nat)
    requires Consistent(s) && Enabled(s, e) && Counting(e)
    ensures Moves(At(s.pool, i), At(Step(s, e).pool, i), false)
  {
    match e {
      case CreateReplied(rid, ext, back, t) =>
        var r := s.transit[rid];
        CreatedMoves(s.pool, ext, back, r.slot, r.cwd, r.frontend, t, i);
      case ForkReplied(rid, ext, back, t) =>
        var r := s.transit[rid];
        CreatedMoves(s.pool, ext, back, r.slot, r.cwd, r.frontend, t, i);
      case ReloadReplied(rid, t) => ReloadedMoves(s, rid, t, i);
      case CloseReplied(rid) => RemovedMoves(s.pool, s.transit[rid].ext, i);
      case IdleEvicted(t, timeout) => EvictedMoves(s.pool, t, timeout, i);
      case BackendDied(slot, t) => DiedMoves(s.pool, slot, t, i);
    }
  }

  lemma SpawnMoves(p: Pool, q: Pool, spawn: Option<nat>, i: nat)
    requires SameUse(p, q) && q.slots == SpawnedInto(p, spawn)
    ensures Moves(At(p, i), At(q, i), spawn == Some(i))
  {
    SameUseOn(p, q, i);
  }

  lemma StepMoves(s: System, e: Event, i: nat)
    requires Consistent(s) && Enabled(s, e)
    ensures Moves(At(s.pool, i), At(Step(s, e).pool, i), Spawns(s, e) == Some(i))
  {
    if Counting(e) {
      CountingMoves(s, e, i);
    } else {
      OtherEventsUse(s, e);
      SpawnMoves(s.pool, Step(s, e).pool, Spawns(s, e), i);
    }
  }

  lemma StepNeverOver(s: System, e: Event)
    requires Consistent(s) && Enabled(s, e) && NeverOver(s.pool)
    ensures NeverOver(Step(s, e).pool)
  {
    forall i: nat | Populated(Step(s, e).pool.slots, i)
      ensures Load(Step(s, e).pool.slots, i) <= |SessionsOn(Step(s, e).pool, i)|
    {
      StepMoves(s, e, i);
    }
  }

  lemma ClobberedInexact(p: Pool, q: Pool, i: nat)
    requires SameUse(p, q) && SessionsOn(p, i) != {} && q.slots == SpawnedInto(p, Some(i))
    ensures !Exact(q)
  {
    SameUseOn(p, q, i);
    assert Populated(q.slots, i) && Load(q.slots, i) == 0 && |SessionsOn(q, i)| > 0;
  }

  /** Spawning into a slot that sessions still refer to is the one way to lose exactness. */
  lemma ExactUnlessClobbered(s: System, e: Event)
    requires Consistent(s) && Enabled(s, e) && Exact(s.pool)
    ensures Exact(Step(s, e).pool) <==> (Spawns(s, e).Some? ==> SessionsOn(s.pool, Spawns(s, e).value) == {})
  {
    var q := Step(s, e).pool;
    if Spawns(s, e).Some? && SessionsOn(s.pool, Spawns(s, e).value) != {} {
      OtherEventsUse(s, e);
      ClobberedInexact(s.pool, q, Spawns(s, e).value);
    } else {
      forall i: nat | Populated(q.slots, i)
        ensures Load(q.slots, i) == |SessionsOn(q, i)|
      {
        StepMoves(s, e, i);
      }
    }
  }

  /** While exact, neither a close nor an eviction ever subtracts below zero. */
  lemma ExactNeverSaturates(p: Pool, ext: ExternalSid, gone: set<ExternalSid>, i: nat)
    requires Exact(p) && Populated(p.slots, i)
    ensures ext in p.sessions && p.sessions[ext].slotIndex == i ==> 1 <= Load(p.slots, i)
    ensures |gone * SessionsOn(p, i)| <= Load(p.slots, i)
  {
    if ext in p.sessions && p.sessions[ext].slotIndex == i {
      assert ext in SessionsOn(p, i);
    }
    assert SessionsOn(p, i) == gone * SessionsOn(p, i) + (SessionsOn(p, i) - gone);
    assert |SessionsOn(p, i)| == |gone * SessionsOn(p, i)| + |SessionsOn(p, i) - gone|;
  }

  // ----- Every run -----

  /** Main result: in every interleaving no counter exceeds the number of sessions on its slot. */
  lemma {:induction false} RunNeverOver(s: System, es: seq<Event>)
    requires Consistent(s) && NeverOver(s.pool) && Run(s, es)
    ensures NeverOver(After(s, es).pool)
    decreases |es|
  {
    if es != [] {
      StepKeepsConsistent(s, es[0]);
      StepNeverOver(s, es[0]);
      RunNeverOver(Step(s, es[0]), es[1..]);
    }
  }

  /** No backend is spawned into a slot that some session refers to. */
  ghost predicate NoClobber(s: System, es: seq<Event>)
    requires Run(s, es)
    decreases |es|
  {
    es == [] ||
    ((Spawns(s, es[0]).Some? ==> SessionsOn(s.pool, Spawns(s, es[0]).value) == {})
     && NoClobber(Step(s, es[0]), es[1..]))
  }

  /** Main result: runs that spawn no backend over sessions keep every counter exact. */
  lemma {:induction false} RunExact(s: System, es: seq<Event>)
    requires Consistent(s) && Exact(s.pool) && Run(s, es) && NoClobber(s, es)
    ensures Exact(After(s, es).pool)
    decreases |es|
  {
    if es != [] {
      StepKeepsConsistent(s, es[0]);
      ExactUnlessClobbered(s, es[0]);
      RunExact(Step(s, es[0]), es[1..]);
    }
  }

  // ----- The exception is reachable -----

  /**
   * A respawn whose initialization fails is tried again over the slot it has just filled; a session
   * registered in between is then on a slot that counts none.
   */
  lemma RespawnOverSession(rid: nat, cwd: Path, frontend: FrontendId, ext: ExternalSid, back: BackendSid, now: Instant)
    ensures var s := Boot(LeastConnections, 1);
            var serve := [BackendSpawned(0), StartNew(rid, cwd, frontend, false)];
            var es := serve + [CreateReplied(rid, ext, back, now), BackendSpawned(0)];
            && Run(s, es)
            && var p := After(s, es).pool;
               SessionsOn(p, 0) == {ext} && Populated(p.slots, 0) && Load(p.slots, 0) == 0 && !Exact(p)
  {
    var s := Boot(LeastConnections, 1);
    var e1, e2 := BackendSpawned(0), StartNew(rid, cwd, frontend, false);
    var e3 := CreateReplied(rid, ext, back, now);
    RunTwo(s, e1, e2);
    FirstSession(rid, cwd, frontend);
    var t := Step(Step(s, e1), e2);
    SpawnedOver(t, rid, cwd, frontend, ext, back, now);
    RunTwo(t, e3, e1);
    RunAppend(s, [e1, e2], [e3, e1]);
  }

  lemma SpawnedOver(
      t: System, rid: nat, cwd: Path, frontend: FrontendId, ext: ExternalSid, back: BackendSid, now: Instant)
    requires t.transit == map[rid := Creating(0, cwd, frontend, Calling)] && t.bound == map[]
    requires t.pool.strategy.LeastConnections? && t.pool.sessions == map[] && |t.pool.slots| == 1
    ensures var e := CreateReplied(rid, ext, back, now);
            && Enabled(t, e) && Enabled(Step(t, e), BackendSpawned(0))
            && var p := Step(Step(t, e), BackendSpawned(0)).pool;
               SessionsOn(p, 0) == {ext} && Populated(p.slots, 0) && Load(p.slots, 0) == 0 && !Exact(p)
  {
    var p := Step(Step(t, CreateReplied(rid, ext, back, now)), BackendSpawned(0)).pool;
    assert SessionsOn(p, 0) == {ext};
    assert Populated(p.slots, 0) && Load(p.slots, 0) == 0;
  }

  lemma FirstSession(rid: nat, cwd: Path, frontend: FrontendId)
    ensures var s := Boot(LeastConnections, 1);
            var t := Step(Step(s, BackendSpawned(0)), StartNew(rid, cwd, frontend, false));
            && t.transit == map[rid := Creating(0, cwd, frontend, Calling)] && t.bound == map[]
            && t.pool == s.pool.(slots := [Some(FRESH_SLOT)])
  {
    var s := Step(Boot(LeastConnections, 1), BackendSpawned(0));
    assert s.pool.slots == [Some(FRESH_SLOT)];
    assert Alive(s.pool.slots, 0);
    assert SelectSlot(s.pool) == Some(0);
  }
}
