/** Which frontend receives a backend's callback, and for how long a prompt keeps it. */
module CallbackRouting {
  import opened Wrappers
  import opened PoolModel
  import opened GatewaySystem
  import opened SessionDirectory
  import opened PromptGuards
  import AP = AgentPool
  import SE = SessionEntries

  type Connection = string

  datatype RouteError = UnknownBackend | NoRoute | Disconnected(frontend: FrontendId) | NoFrontends | Ambiguous

  /** The session behind a backend id, and the frontend its callbacks go to. */
  function Route(p: Pool, back: BackendSid): Result<(FrontendId, ExternalSid), RouteError> {
    if back !in p.reverse then Failure(UnknownBackend)
    else match RouteFrontend(p, p.reverse[back])
      case None => Failure(NoRoute)
      case Some(frontend) => Success((frontend, p.reverse[back]))
  }

  class GatewayService {
    const pool: AP.AgentPool
    var frontends: map<FrontendId, Connection>

    constructor (pool: AP.AgentPool)
      ensures this.pool == pool && frontends == map[]
    {
      this.pool := pool;
      frontends := map[];
    }

    method RegisterFrontend(id: FrontendId, conn: Connection)
      modifies this
      ensures frontends == old(frontends)[id := conn]
    {
      frontends := frontends[id := conn];
    }

    method UnregisterFrontend(id: FrontendId)
      modifies this
      ensures frontends == old(frontends) - {id}
    {
      frontends := frontends - {id};
    }

    method FrontendForSession(ext: ExternalSid) returns (r: Result<Connection, RouteError>)
      ensures r == match RouteFrontend(pool.State(), ext)
                   case None => Failure(NoRoute)
                   case Some(id) => if id in frontends then Success(frontends[id]) else Failure(Disconnected(id))
    {
      var id;
      if ext in pool.promptSenders {
        id := pool.promptSenders[ext];
      } else if ext in pool.sessions {
        id := pool.sessions[ext].lastSender;
      } else if ext in pool.evicted {
        id := pool.evicted[ext].lastSender;
      } else {
        return Failure(NoRoute);
      }
      return if id in frontends then Success(frontends[id]) else Failure(Disconnected(id));
    }

    method FrontendForBackendSession(back: BackendSid) returns (r: Result<(Connection, ExternalSid), RouteError>)
      ensures r == match Route(pool.State(), back)
                   case Failure(error) => Failure(error)
                   case Success(to) =>
                     if to.0 in frontends then Success((frontends[to.0], to.1)) else Failure(Disconnected(to.0))
    {
      if back !in pool.reverse {
        return Failure(UnknownBackend);
      }
      var conn := FrontendForSession(pool.reverse[back]);
      match conn {
        case Success(c) => return Success((c, pool.reverse[back]));
        case Failure(error) => return Failure(error);
      }
    }

    /** A callback that names no session is delivered only when one frontend is the sole candidate. */
    method FrontendForUnscopedCallback() returns (r: Result<Connection, RouteError>)
      ensures r.Success? <==> |frontends| == 1
      ensures r.Success? ==> exists id :: frontends == map[id := r.value]
      ensures r == Failure(NoFrontends) <==> frontends == map[]
    {
      if |frontends| == 1 {
        var id :| id in frontends;
        SoleKey(frontends.Keys, id);
        assert frontends == map[id := frontends[id]];
        return Success(frontends[id]);
      }
      return Failure(if |frontends| == 0 then NoFrontends else Ambiguous);
    }
  }

  lemma SoleKey(ids: set<FrontendId>, id: FrontendId)
    requires id in ids && |ids| == 1
    ensures ids == {id}
  {
    assert |ids - {id}| == 0;
  }

  // ----- Every known backend has a route -----

  /** Main result: in every reachable state the callbacks of exactly the active sessions have a route. */
  lemma ActiveBackendsRouted(strategy: Strategy, poolSize: nat, es: seq<Event>, back: BackendSid)
    requires Run(Boot(strategy, poolSize), es)
    ensures var p := After(Boot(strategy, poolSize), es).pool;
            && (Route(p, back).Success? <==> exists ext :: ext in p.sessions && p.sessions[ext].backendSid == back)
            && (Route(p, back).Success? ==>
                  var ext := Route(p, back).value.1; ext in p.sessions && p.sessions[ext].backendSid == back)
            && Route(p, back) != Failure(NoRoute)
  {
    RunKeepsConsistent(Boot(strategy, poolSize), es);
    var p := After(Boot(strategy, poolSize), es).pool;
    assert back in p.reverse ==> p.reverse[back] in p.sessions;
  }

  // ----- A prompt keeps the callbacks of its session -----

  ghost predicate Owns(p: Pool, ext: ExternalSid, frontend: FrontendId) {
    ext in p.promptSenders && p.promptSenders[ext] == frontend
  }

  /** The prompt ends, or the session is evicted, crashes or is closed. */
  ghost predicate Interrupts(s: System, e: Event, ext: ExternalSid)
    requires Enabled(s, e)
  {
    match e
    case RequestEnded(rid) => Guard(s, rid, ext)
    case InitReplied(rid) => Guard(s, rid, ext) && !Alive(s.pool.slots, s.transit[rid].slot)
    case IdleEvicted(now, timeout) => ext in IdleSessions(s.pool, now, timeout)
    case BackendDied(slot, _) => ext in SessionsOn(s.pool, slot)
    case CloseReplied(rid) => s.transit[rid].ext == ext && ext in s.pool.sessions
    case _ => false
  }

  lemma FinishKeeps(s: System, rid: nat, ext: ExternalSid, frontend: FrontendId)
    requires rid in s.transit && Owns(s.pool, ext, frontend)
    ensures Owns(Finish(s, rid).pool, ext, frontend) <==> !Guard(s, rid, ext)
  {
  }

  /** Another frontend's prompt, load, fork or mode change does not take the callbacks away. */
  lemma OwnsUnlessInterrupted(s: System, e: Event, ext: ExternalSid, frontend: FrontendId)
    requires Enabled(s, e) && FlagsOwned(s) && Owns(s.pool, ext, frontend)
    ensures Owns(Step(s, e).pool, ext, frontend) <==> !Interrupts(s, e, ext)
  {
    if Neutral(s, e) {
      NeutralFlags(s, e);
    } else {
      match e {
        case InitReplied(rid) => FinishKeeps(s, rid, ext, frontend);
        case RequestEnded(rid) => FinishKeeps(s, rid, ext, frontend);
        case StartPrompt(rid, x, f, authorized, spawned, now) =>
          assert ext in s.pool.inFlight;
          if authorized && x !in s.pool.inFlight {
            PromptFlags(s, rid, x, f, spawned, now);
          }
        case _ =>
      }
    }
  }

  ghost predicate Uninterrupted(s: System, es: seq<Event>, ext: ExternalSid)
    requires Run(s, es)
    decreases |es|
  {
    es == [] || (!Interrupts(s, es[0], ext) && Uninterrupted(Step(s, es[0]), es[1..], ext))
  }

  lemma {:induction false} RunOwns(s: System, es: seq<Event>, ext: ExternalSid, frontend: FrontendId)
    requires FlagsOwned(s) && Owns(s.pool, ext, frontend) && Run(s, es) && Uninterrupted(s, es, ext)
    ensures Owns(After(s, es).pool, ext, frontend)
    decreases |es|
  {
    if es != [] {
      StepFlagsOwned(s, es[0]);
      OwnsUnlessInterrupted(s, es[0], ext, frontend);
      RunOwns(Step(s, es[0]), es[1..], ext, frontend);
    }
  }

  /**
   * Main result: from the moment a frontend's prompt is accepted until it ends, with no eviction,
   * crash or close of the session, every callback of its backend goes to that frontend.
   */
  lemma PromptOwnsCallbacks(s: System, start: Event, es: seq<Event>, back: BackendSid)
    requires Consistent(s) && FlagsOwned(s) && start.StartPrompt? && Enabled(s, start)
    requires start.authorized && start.ext !in s.pool.inFlight && start.rid in Step(s, start).transit
    requires Run(Step(s, start), es) && Uninterrupted(Step(s, start), es, start.ext)
    requires var p := After(Step(s, start), es).pool; back in p.reverse && p.reverse[back] == start.ext
    ensures Route(After(Step(s, start), es).pool, back) == Success((start.frontend, start.ext))
  {
    PromptFlags(s, start.rid, start.ext, start.frontend, start.spawned, start.now);
    StepFlagsOwned(s, start);
    RunOwns(Step(s, start), es, start.ext, start.frontend);
  }

  // ----- Without a prompt, callbacks go to the last caller -----

  predicate Stored(p: Pool, ext: ExternalSid) {
    ext in p.sessions || ext in p.evicted
  }

  function Sender(p: Pool, ext: ExternalSid): FrontendId
    requires Stored(p, ext)
  {
    if ext in p.sessions then p.sessions[ext].lastSender else p.evicted[ext].lastSender
  }

  /** The session is active or evicted throughout the run. */
  ghost predicate AlwaysStored(s: System, es: seq<Event>, ext: ExternalSid)
    requires Run(s, es)
    decreases |es|
  {
    Stored(s.pool, ext) && (es == [] || AlwaysStored(Step(s, es[0]), es[1..], ext))
  }

  /** The frontend of the last event that names the session. */
  function LastCaller(es: seq<Event>, ext: ExternalSid, was: FrontendId): FrontendId {
    if es == [] then was else LastCaller(es[1..], ext, if SE.Names(es[0], ext) then es[0].frontend else was)
  }

  lemma {:induction false} SenderIsLastCaller(s: System, es: seq<Event>, ext: ExternalSid)
    requires Consistent(s) && Run(s, es) && AlwaysStored(s, es, ext)
    ensures Stored(After(s, es).pool, ext)
    ensures Sender(After(s, es).pool, ext) == LastCaller(es, ext, Sender(s.pool, ext))
    decreases |es|
  {
    if es != [] {
      SE.EntriesChangeExactly(s, es[0], ext);
      StepKeepsConsistent(s, es[0]);
      assert Stored(Step(s, es[0]).pool, ext);
      SenderIsLastCaller(Step(s, es[0]), es[1..], ext);
    }
  }

  /**
   * Main result: while a session is active or evicted, whatever is done, callbacks for it go to the
   * frontend whose prompt runs on it, and without a prompt to the one that named it last.
   */
  lemma CallbacksGoToLastCaller(s: System, es: seq<Event>, ext: ExternalSid)
    requires Consistent(s) && Run(s, es) && AlwaysStored(s, es, ext)
    ensures var p := After(s, es).pool;
            var to := if ext in p.promptSenders then p.promptSenders[ext]
                      else LastCaller(es, ext, Sender(s.pool, ext));
            && RouteFrontend(p, ext) == Some(to)
            && (ext in p.sessions ==> Route(p, p.sessions[ext].backendSid) == Success((to, ext)))
  {
    SenderIsLastCaller(s, es, ext);
    RunKeepsConsistent(s, es);
  }
}
