/**
 * The gateway over whole runs: the pool together with every request that is waiting at an `await`.
 * An event is one uninterrupted stretch of code between two awaits.
 */
module GatewaySystem {
  import opened Wrappers
  import opened PoolModel

  /** What a request that has been given a slot is waiting for. */
  datatype Phase = Initializing | Calling

  datatype Request =
    | Creating(slot: nat, cwd: Path, frontend: FrontendId, phase: Phase)
    | Reloading(ext: ExternalSid, entry: EvictedSession, slot: nat, frontend: FrontendId, phase: Phase, prompting: bool)
    | Prompting(ext: ExternalSid)
    | Forking(slot: nat, cwd: Path, frontend: FrontendId)
    | Closing(ext: ExternalSid)

  /** What an external session id was created for; kept for ever as history. */
  datatype Binding = Binding(backendSid: BackendSid, cwd: Path)

  datatype System = System(pool: Pool, transit: map<nat, Request>, bound: map<ExternalSid, Binding>)

  datatype Event =
    | Initialize(request: string, spawned: bool)
    | StartNew(rid: nat, cwd: Path, frontend: FrontendId, spawned: bool)
    | InitReplied(rid: nat)
    | CreateReplied(rid: nat, ext: ExternalSid, back: BackendSid, now: Instant)
    | StartLoad(rid: nat, ext: ExternalSid, frontend: FrontendId, spawned: bool)
    | StartPrompt(rid: nat, ext: ExternalSid, frontend: FrontendId, authorized: bool, spawned: bool, now: Instant)
    | ReloadReplied(rid: nat, now: Instant)
    | StartFork(rid: nat, ext: ExternalSid, cwd: Path, frontend: FrontendId)
    | ForkReplied(rid: nat, ext: ExternalSid, back: BackendSid, now: Instant)
    | StartClose(rid: nat, ext: ExternalSid, frontend: FrontendId)
    | CloseReplied(rid: nat)
    | RequestEnded(rid: nat)
    | SenderRecorded(ext: ExternalSid, frontend: FrontendId)
    | IdleEvicted(now: Instant, timeout: nat)
    | Purged(maxEntries: nat, keep: set<ExternalSid>)
    | BackendDied(slot: nat, now: Instant)
    | BackendSpawned(slot: nat)

  /** The answer registers a session. */
  predicate Registers(e: Event) {
    e.CreateReplied? || e.ForkReplied? || e.ReloadReplied?
  }

  function Boot(strategy: Strategy, poolSize: nat): System {
    System(New(strategy, poolSize), map[], map[])
  }

  /** Session ids are fresh, replies belong to waiting requests, only least-connections respawns. */
  predicate Enabled(s: System, e: Event) {
    match e
    case StartNew(rid, _, _, _) => rid !in s.transit
    case StartLoad(rid, _, _, _) => rid !in s.transit
    case StartPrompt(rid, _, _, _, _, _) => rid !in s.transit
    case StartFork(rid, _, _, _) => rid !in s.transit
    case StartClose(rid, _, _) => rid !in s.transit
    case InitReplied(rid) =>
      && rid in s.transit
      && (s.transit[rid].Creating? || s.transit[rid].Reloading?) && s.transit[rid].phase.Initializing?
    case CreateReplied(rid, ext, back, _) =>
      rid in s.transit && s.transit[rid].Creating? && s.transit[rid].phase.Calling? && Fresh(s, ext, back)
    case ReloadReplied(rid, _) =>
      rid in s.transit && s.transit[rid].Reloading? && s.transit[rid].phase.Calling?
    case ForkReplied(rid, ext, back, _) =>
      rid in s.transit && s.transit[rid].Forking? && Fresh(s, ext, back)
    case CloseReplied(rid) => rid in s.transit && s.transit[rid].Closing?
    case RequestEnded(rid) => rid in s.transit
    case Purged(maxEntries, keep) => NewestEvicted(s.pool, maxEntries, keep)
    case BackendDied(slot, _) => slot < |s.pool.slots|
    case BackendSpawned(slot) => s.pool.strategy.LeastConnections?
    case _ => true
  }

  predicate Fresh(s: System, ext: ExternalSid, back: BackendSid) {
    ext !in s.bound && forall other | other in s.bound :: s.bound[other].backendSid != back
  }

  // ----- Stretches of code shared by several requests -----

  /** Select a slot and, in Dedicated mode, spawn a backend into it when it is empty. */
  function AssignSlot(p: Pool, spawned: bool): (Pool, Option<(nat, Phase)>) {
    match SelectSlot(p)
    case None => (p, None)
    case Some(i) =>
      if p.strategy.Dedicated? && !Populated(p.slots, i) then
        if spawned
        then (InsertSlot(p, i, FRESH_SLOT), Some((i, if p.initRequest.Some? then Initializing else Calling)))
        else (p, None)
      else (p, Some((i, Calling)))
  }

  /** Take the evicted entry and find it a slot; when that fails the entry is gone. */
  function Reload(p: Pool, ext: ExternalSid, frontend: FrontendId, spawned: bool, prompting: bool)
    : (Pool, Option<Request>)
  {
    if ext !in p.evicted then (p, None)
    else
      var placed := AssignSlot(TakeEvicted(p, ext), spawned);
      match placed.1
      case None => (placed.0, None)
      case Some(at) => (placed.0, Some(Reloading(ext, p.evicted[ext], at.0, frontend, at.1, prompting)))
  }

  predicate HoldsGuard(r: Request, ext: ExternalSid) {
    (r.Prompting? && r.ext == ext) || (r.Reloading? && r.prompting && r.ext == ext)
  }

  /** The prompt guard, if the request holds one, is dropped with the request. */
  function Finish(s: System, rid: nat): System
    requires rid in s.transit
  {
    var r := s.transit[rid];
    s.(transit := s.transit - {rid},
       pool := if r.Prompting? || (r.Reloading? && r.prompting) then EndPrompt(s.pool, r.ext) else s.pool)
  }

  function Await(s: System, pool: Pool, rid: nat, request: Option<Request>): System {
    s.(pool := pool,
       transit := if request.Some? then s.transit[rid := request.value] else s.transit)
  }

  function PromptStarted(
      s: System, rid: nat, ext: ExternalSid, frontend: FrontendId, spawned: bool, now: Instant): System
    requires ext !in s.pool.inFlight
  {
    PromptBegun(s, BeginPrompt(RecordSender(s.pool, ext, frontend), ext, frontend), rid, ext, frontend, spawned, now)
  }

  /** The prompt holds its guard; forward it, or reload the session first. */
  function PromptBegun(s: System, begun: Pool, rid: nat, ext: ExternalSid, frontend: FrontendId, spawned: bool,
                       now: Instant): System
  {
    if Resolves(begun, ext) then Await(s, Touch(begun, ext, now), rid, Some(Prompting(ext)))
    else
      var reload := Reload(begun, ext, frontend, spawned, true);
      Await(s, if reload.1.Some? then reload.0 else EndPrompt(reload.0, ext), rid, reload.1)
  }

  function LoadStarted(s: System, rid: nat, ext: ExternalSid, frontend: FrontendId, spawned: bool): System {
    var recorded := RecordSender(s.pool, ext, frontend);
    if Resolves(recorded, ext) then s.(pool := recorded)
    else
      var reload := Reload(recorded, ext, frontend, spawned, false);
      Await(s, reload.0, rid, reload.1)
  }

  function Created(s: System, rid: nat, ext: ExternalSid, back: BackendSid, slot: nat, cwd: Path,
                   frontend: FrontendId, now: Instant): System
  {
    System(Register(s.pool, ext, back, slot, cwd, frontend, now), s.transit - {rid},
           s.bound[ext := Binding(back, cwd)])
  }

  function Reloaded(s: System, rid: nat, now: Instant): System
    requires rid in s.transit && s.transit[rid].Reloading?
  {
    var r := s.transit[rid];
    var pool := Register(s.pool, r.ext, r.entry.backendSid, r.slot, r.entry.cwd, r.frontend, now);
    if r.prompting then s.(pool := Touch(pool, r.ext, now), transit := s.transit[rid := Prompting(r.ext)])
    else s.(pool := pool, transit := s.transit - {rid})
  }

  function Step(s: System, e: Event): System
    requires Enabled(s, e)
  {
    match e
    case Initialize(request, spawned) =>
      var pool := s.pool.(initRequest := Some(request));
      if pool.strategy.Dedicated? && spawned && forall i: nat | i < |pool.slots| :: !Alive(pool.slots, i)
      then s.(pool := InsertSlot(pool, 0, FRESH_SLOT))
      else s.(pool := pool)
    case StartNew(rid, cwd, frontend, spawned) =>
      var placed := AssignSlot(s.pool, spawned);
      Await(s, placed.0, rid,
            if placed.1.Some? then Some(Creating(placed.1.value.0, cwd, frontend, placed.1.value.1)) else None)
    case InitReplied(rid) =>
      if Alive(s.pool.slots, s.transit[rid].slot)
      then s.(transit := s.transit[rid := s.transit[rid].(phase := Calling)])
      else Finish(s, rid)
    case CreateReplied(rid, ext, back, now) =>
      Created(s, rid, ext, back, s.transit[rid].slot, s.transit[rid].cwd, s.transit[rid].frontend, now)
    case StartLoad(rid, ext, frontend, spawned) => LoadStarted(s, rid, ext, frontend, spawned)
    case StartPrompt(rid, ext, frontend, authorized, spawned, now) =>
      if !authorized then s
      else if ext in s.pool.inFlight then s.(pool := RecordSender(s.pool, ext, frontend))
      else PromptStarted(s, rid, ext, frontend, spawned, now)
    case ReloadReplied(rid, now) => Reloaded(s, rid, now)
    case StartFork(rid, ext, cwd, frontend) =>
      var recorded := RecordSender(s.pool, ext, frontend);
      Await(s, recorded, rid,
            if Resolves(recorded, ext) then Some(Forking(recorded.sessions[ext].slotIndex, cwd, frontend)) else None)
    case ForkReplied(rid, ext, back, now) =>
      Created(s, rid, ext, back, s.transit[rid].slot, s.transit[rid].cwd, s.transit[rid].frontend, now)
    case StartClose(rid, ext, frontend) =>
      var recorded := RecordSender(s.pool, ext, frontend);
      Await(s, recorded, rid, if Resolves(recorded, ext) then Some(Closing(ext)) else None)
    case CloseReplied(rid) =>
      s.(pool := Remove(s.pool, s.transit[rid].ext), transit := s.transit - {rid})
    case RequestEnded(rid) => Finish(s, rid)
    case SenderRecorded(ext, frontend) => s.(pool := RecordSender(s.pool, ext, frontend))
    case IdleEvicted(now, timeout) => s.(pool := EvictIdle(s.pool, now, timeout))
    case Purged(_, keep) => s.(pool := KeepEvicted(s.pool, keep))
    case BackendDied(slot, now) => s.(pool := BackendDeath(s.pool, slot, now))
    case BackendSpawned(slot) => s.(pool := InsertSlot(s.pool, slot, FRESH_SLOT))
  }

  /** Every event of the run is enabled when its turn comes. */
  predicate Run(s: System, es: seq<Event>)
    decreases |es|
  {
    es == [] || (Enabled(s, es[0]) && Run(Step(s, es[0]), es[1..]))
  }

  function After(s: System, es: seq<Event>): System
    requires Run(s, es)
    decreases |es|
  {
    if es == [] then s else After(Step(s, es[0]), es[1..])
  }

  lemma RunOne(s: System, e: Event)
    requires Enabled(s, e)
    ensures Run(s, [e]) && After(s, [e]) == Step(s, e)
  {
    assert [e][1..] == [];
    assert Run(Step(s, e), []) && After(Step(s, e), []) == Step(s, e);
  }

  lemma RunTwo(s: System, e1: Event, e2: Event)
    requires Enabled(s, e1) && Enabled(Step(s, e1), e2)
    ensures Run(s, [e1, e2]) && After(s, [e1, e2]) == Step(Step(s, e1), e2)
  {
    assert [e1, e2][1..] == [e2];
    RunOne(Step(s, e1), e2);
  }

  lemma {:induction false} RunAppend(s: System, es: seq<Event>, more: seq<Event>)
    requires Run(s, es) && Run(After(s, es), more)
    ensures Run(s, es + more) && After(s, es + more) == After(After(s, es), more)
    decreases |es|
  {
    if es == [] {
      assert es + more == more;
    } else {
      RunAppend(Step(s, es[0]), es[1..], more);
      assert (es + more)[0] == es[0] && (es + more)[1..] == es[1..] + more;
    }
  }
}
