/**
 * The gateway as code: its request handlers, maintenance loop and backend tasks. Each method is one
 * stretch between two awaits, calls the pool in the source's order, and performs exactly one event of
 * `GatewaySystem`; between them they perform every event.
 */
module GatewayAgent {
  import opened Wrappers
  import opened PoolModel
  import opened GatewaySystem
  import opened SlotRange
  import AP = AgentPool

  datatype GatewayError = Unauthorized | PromptInFlight | UnknownSession | PoolExhausted | SpawnFailed

  class GatewayAgent {
    const pool: AP.AgentPool
    var transit: map<nat, Request>
    ghost var bound: map<ExternalSid, Binding>

    ghost function Sys(): System
      reads this, pool
    {
      System(pool.State(), transit, bound)
    }

    /** Whatever a session or a waiting request refers to is a slot of the table. */
    ghost predicate Valid()
      reads this, pool
    {
      InRange(Sys())
    }

    constructor (strategy: Strategy, poolSize: nat)
      ensures fresh(pool) && Valid() && Sys() == Boot(strategy, poolSize)
    {
      pool := new AP.AgentPool(strategy, poolSize);
      transit, bound := map[], map[];
    }

    /** Find a slot, spawning into an empty one in Dedicated mode. */
    method AssignSlot(spawned: bool) returns (r: Result<(nat, Phase), GatewayError>)
      modifies pool
      ensures var placed := GatewaySystem.AssignSlot(old(pool.State()), spawned);
              && pool.State() == placed.0
              && (r.Success? <==> placed.1.Some?) && (r.Success? ==> r.value == placed.1.value)
      ensures r == Failure(PoolExhausted) <==> PoolModel.SelectSlot(old(pool.State())).None?
      ensures r.Failure? ==> r.error.PoolExhausted? || r.error.SpawnFailed?
    {
      var selected := pool.SelectSlot();
      if selected.None? {
        return Failure(PoolExhausted);
      }
      var i := selected.value;
      if pool.strategy.Dedicated? && !(i < |pool.slots| && pool.slots[i].Some?) {
        if !spawned {
          return Failure(SpawnFailed);
        }
        pool.InsertSlot(i, FRESH_SLOT);
        return Success((i, if pool.initRequest.Some? then Initializing else Calling));
      }
      return Success((i, Calling));
    }

    method BackendForSession(ext: ExternalSid) returns (found: bool)
      ensures found == Resolves(pool.State(), ext)
    {
      found := ext in pool.sessions;
      if found {
        var i := pool.sessions[ext].slotIndex;
        found := i < |pool.slots| && pool.slots[i].Some? && pool.slots[i].value.alive;
      }
    }

    method Initialize(request: string, spawned: bool)
      requires Valid()
      modifies pool
      ensures Valid() && Sys() == Step(old(Sys()), Event.Initialize(request, spawned))
    {
      StepInRange(Sys(), Event.Initialize(request, spawned));
      pool.StoreInitRequest(request);
      var alive := pool.AliveSlots();
      if alive == [] && pool.strategy.Dedicated? {
        if spawned {
          pool.InsertSlot(0, FRESH_SLOT);
        }
      } else {
        assert alive != [] ==> Alive(pool.slots, alive[0]);
      }
    }

    method NewSession(rid: nat, cwd: Path, frontend: FrontendId, spawned: bool)
      returns (r: Result<nat, GatewayError>)
      requires Valid() && rid !in transit
      modifies this, pool
      ensures Valid() && Sys() == Step(old(Sys()), StartNew(rid, cwd, frontend, spawned))
      ensures r.Success? <==> rid in transit
    {
      StepInRange(Sys(), StartNew(rid, cwd, frontend, spawned));
      var placed := AssignSlot(spawned);
      match placed {
        case Failure(error) => return Failure(error);
        case Success(at) =>
          transit := transit[rid := Creating(at.0, cwd, frontend, at.1)];
          return Success(at.0);
      }
    }

    /** The answer to a replayed initialize request; the slot may have died meanwhile. */
    method InitReply(rid: nat)
      requires Valid() && Enabled(Sys(), InitReplied(rid))
      modifies this, pool
      ensures Valid() && Sys() == Step(old(Sys()), InitReplied(rid))
    {
      StepInRange(Sys(), InitReplied(rid));
      var i := transit[rid].slot;
      if i < |pool.slots| && pool.slots[i].Some? && pool.slots[i].value.alive {
        transit := transit[rid := transit[rid].(phase := Calling)];
      } else {
        EndRequest(rid);
      }
    }

    method CreateReply(rid: nat, ext: ExternalSid, back: BackendSid, now: Instant)
      requires Valid() && Enabled(Sys(), CreateReplied(rid, ext, back, now))
      modifies this, pool
      ensures Valid() && Sys() == Step(old(Sys()), CreateReplied(rid, ext, back, now))
    {
      StepInRange(Sys(), CreateReplied(rid, ext, back, now));
      var r := transit[rid];
      pool.RegisterSession(ext, back, r.slot, r.cwd, r.frontend, now);
      transit := transit - {rid};
      bound := bound[ext := Binding(back, r.cwd)];
    }

    /** Take the evicted entry, if there is one, and look for a slot to reload it on. */
    method ReloadEvicted(ext: ExternalSid, frontend: FrontendId, spawned: bool, prompting: bool)
      returns (r: Result<Request, GatewayError>)
      modifies pool
      ensures var reload := Reload(old(pool.State()), ext, frontend, spawned, prompting);
              && pool.State() == reload.0
              && (r.Success? <==> reload.1.Some?) && (r.Success? ==> r.value == reload.1.value)
      ensures r == Failure(UnknownSession) <==> ext !in old(pool.evicted)
      ensures r.Failure? ==> !r.error.PromptInFlight?
    {
      var taken := pool.TakeEvicted(ext);
      if taken.None? {
        assert pool.evicted == old(pool.evicted);
        return Failure(UnknownSession);
      }
      var placed := AssignSlot(spawned);
      match placed {
        case Failure(error) => return Failure(error);
        case Success(at) => return Success(Reloading(ext, taken.value, at.0, frontend, at.1, prompting));
      }
    }

    /** load_session and resume_session. */
    method LoadSession(rid: nat, ext: ExternalSid, frontend: FrontendId, spawned: bool)
      returns (r: Result<(), GatewayError>)
      requires Valid() && rid !in transit
      modifies this, pool
      ensures Valid() && Sys() == Step(old(Sys()), StartLoad(rid, ext, frontend, spawned))
    {
      StepInRange(Sys(), StartLoad(rid, ext, frontend, spawned));
      pool.RecordSender(ext, frontend);
      var found := BackendForSession(ext);
      if found {
        return Success(());
      }
      var reload := ReloadEvicted(ext, frontend, spawned, false);
      match reload {
        case Failure(error) => return Failure(error);
        case Success(request) =>
          transit := transit[rid := request];
          return Success(());
      }
    }

    method Prompt(rid: nat, ext: ExternalSid, frontend: FrontendId, authorized: bool, spawned: bool, now: Instant)
      returns (r: Result<(), GatewayError>)
      requires Valid() && rid !in transit
      modifies this, pool
      ensures Valid() && Sys() == Step(old(Sys()), StartPrompt(rid, ext, frontend, authorized, spawned, now))
      ensures r == Failure(PromptInFlight) <==> authorized && ext in old(pool.inFlight)
      ensures r.Success? <==> rid in transit
    {
      StepInRange(Sys(), StartPrompt(rid, ext, frontend, authorized, spawned, now));
      if !authorized {
        return Failure(Unauthorized);
      }
      pool.RecordSender(ext, frontend);
      var begun := pool.BeginPrompt(ext, frontend);
      if !begun {
        return Failure(PromptInFlight);
      }
      var found := BackendForSession(ext);
      if found {
        pool.TouchSession(ext, now);
        transit := transit[rid := Prompting(ext)];
        return Success(());
      }
      var reload := ReloadEvicted(ext, frontend, spawned, true);
      match reload {
        case Failure(error) =>
          pool.EndPrompt(ext);
          return Failure(error);
        case Success(request) =>
          transit := transit[rid := request];
          return Success(());
      }
    }

    method ReloadReply(rid: nat, now: Instant)
      requires Valid() && Enabled(Sys(), ReloadReplied(rid, now))
      modifies this, pool
      ensures Valid() && Sys() == Step(old(Sys()), ReloadReplied(rid, now))
    {
      StepInRange(Sys(), ReloadReplied(rid, now));
      var r := transit[rid];
      pool.RegisterSession(r.ext, r.entry.backendSid, r.slot, r.entry.cwd, r.frontend, now);
      if r.prompting {
        pool.TouchSession(r.ext, now);
        transit := transit[rid := Prompting(r.ext)];
      } else {
        transit := transit - {rid};
      }
    }

    method ForkSession(rid: nat, ext: ExternalSid, cwd: Path, frontend: FrontendId)
      returns (r: Result<(), GatewayError>)
      requires Valid() && rid !in transit
      modifies this, pool
      ensures Valid() && Sys() == Step(old(Sys()), StartFork(rid, ext, cwd, frontend))
    {
      StepInRange(Sys(), StartFork(rid, ext, cwd, frontend));
      pool.RecordSender(ext, frontend);
      var found := BackendForSession(ext);
      if !found {
        return Failure(UnknownSession);
      }
      transit := transit[rid := Forking(pool.sessions[ext].slotIndex, cwd, frontend)];
      return Success(());
    }

    method ForkReply(rid: nat, ext: ExternalSid, back: BackendSid, now: Instant)
      requires Valid() && Enabled(Sys(), ForkReplied(rid, ext, back, now))
      modifies this, pool
      ensures Valid() && Sys() == Step(old(Sys()), ForkReplied(rid, ext, back, now))
    {
      StepInRange(Sys(), ForkReplied(rid, ext, back, now));
      var r := transit[rid];
      pool.RegisterSession(ext, back, r.slot, r.cwd, r.frontend, now);
      transit := transit - {rid};
      bound := bound[ext := Binding(back, r.cwd)];
    }

    method CloseSession(rid: nat, ext: ExternalSid, frontend: FrontendId) returns (r: Result<(), GatewayError>)
      requires Valid() && rid !in transit
      modifies this, pool
      ensures Valid() && Sys() == Step(old(Sys()), StartClose(rid, ext, frontend))
    {
      StepInRange(Sys(), StartClose(rid, ext, frontend));
      pool.RecordSender(ext, frontend);
      var found := BackendForSession(ext);
      if !found {
        return Failure(UnknownSession);
      }
      transit := transit[rid := Closing(ext)];
      return Success(());
    }

    method CloseReply(rid: nat)
      requires Valid() && Enabled(Sys(), CloseReplied(rid))
      modifies this, pool
      ensures Valid() && Sys() == Step(old(Sys()), CloseReplied(rid))
    {
      StepInRange(Sys(), CloseReplied(rid));
      pool.RemoveSession(transit[rid].ext);
      transit := transit - {rid};
    }

    /** The request answers, fails or is dropped; its prompt guard goes with it. */
    method EndRequest(rid: nat)
      requires Valid() && rid in transit
      modifies this, pool
      ensures Valid() && Sys() == Step(old(Sys()), RequestEnded(rid))
    {
      StepInRange(Sys(), RequestEnded(rid));
      var r := transit[rid];
      transit := transit - {rid};
      if r.Prompting? || (r.Reloading? && r.prompting) {
        pool.EndPrompt(r.ext);
      }
    }

    // ----- What the maintenance loop and the backends' tasks do between requests -----

    /** A request that only records its sender: cancel, and the changes of mode, model and options. */
    method RecordSender(ext: ExternalSid, frontend: FrontendId)
      requires Valid()
      modifies pool
      ensures Valid() && Sys() == Step(old(Sys()), SenderRecorded(ext, frontend))
    {
      StepInRange(Sys(), SenderRecorded(ext, frontend));
      pool.RecordSender(ext, frontend);
    }

    method EvictIdle(now: Instant, timeout: nat) returns (gone: seq<ExternalSid>)
      requires Valid()
      modifies pool
      ensures Valid() && Sys() == Step(old(Sys()), IdleEvicted(now, timeout))
      ensures pool.State() == PoolModel.EvictIdle(old(pool.State()), now, timeout)
      ensures AP.Members(gone) == IdleSessions(old(pool.State()), now, timeout)
    {
      StepInRange(Sys(), IdleEvicted(now, timeout));
      gone := pool.EvictIdleSessions(now, timeout);
    }

    method Purge(maxEntries: nat) returns (ghost keep: set<ExternalSid>)
      requires Valid()
      modifies pool
      ensures NewestEvicted(old(pool.State()), maxEntries, keep)
      ensures pool.State() == KeepEvicted(old(pool.State()), keep)
      ensures Valid() && Sys() == Step(old(Sys()), Purged(maxEntries, keep))
    {
      keep := pool.PurgeStaleEvicted(maxEntries);
      StepInRange(old(Sys()), Purged(maxEntries, keep));
    }

    method BackendDeath(slot: nat, now: Instant)
      requires Valid() && Enabled(Sys(), BackendDied(slot, now))
      modifies pool
      ensures Valid() && Sys() == Step(old(Sys()), BackendDied(slot, now))
    {
      StepInRange(Sys(), BackendDied(slot, now));
      pool.HandleBackendDeath(slot, now);
    }

    /** Least-connections backends are spawned at start and again after a crash. */
    method SpawnBackend(slot: nat)
      requires Valid() && Enabled(Sys(), BackendSpawned(slot))
      modifies pool
      ensures Valid() && Sys() == Step(old(Sys()), BackendSpawned(slot)) && slot < |pool.slots|
    {
      StepInRange(Sys(), BackendSpawned(slot));
      pool.InsertSlot(slot, FRESH_SLOT);
    }
  }
}
