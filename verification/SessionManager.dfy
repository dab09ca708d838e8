/** The session store, the runtime cache and the session manager as objects updated in place. */
module SessionManager {
  import opened Wrappers
  import opened Conversation
  import HM = HarnessModel
  import opened HarnessModel

  class SessionStore {
    var sessions: map<SessionId, SessionData>

    constructor ()
      ensures sessions == map[]
    {
      sessions := map[];
    }

    method Create(id: SessionId, data: SessionData)
      modifies this
      ensures sessions == old(sessions)[id := data]
    {
      sessions := sessions[id := data];
    }

    method Load(id: SessionId) returns (r: Result<SessionData, HarnessError>)
      ensures r == if id in sessions then Success(sessions[id]) else Failure(UnknownSession)
    {
      return if id in sessions then Success(sessions[id]) else Failure(UnknownSession);
    }

    /** A session that is no longer there is not brought back. */
    method Save(id: SessionId, data: SessionData) returns (r: Result<(), HarnessError>)
      modifies this
      ensures r.Success? <==> id in old(sessions)
      ensures r.Failure? ==> r.error == UnknownSession
      ensures sessions == if id in old(sessions) then old(sessions)[id := data] else old(sessions)
    {
      if id !in sessions {
        return Failure(UnknownSession);
      }
      sessions := sessions[id := data];
      return Success(());
    }

    method Delete(id: SessionId) returns (r: Result<(), HarnessError>)
      modifies this
      ensures r == if id in old(sessions) then Success(()) else Failure(UnknownSession)
      ensures sessions == old(sessions) - {id}
    {
      r := if id in sessions then Success(()) else Failure(UnknownSession);
      sessions := sessions - {id};
    }
  }

  class ToolRuntimeManager {
    var runtimes: map<SessionId, seq<Source>>

    constructor ()
      ensures runtimes == map[]
    {
      runtimes := map[];
    }

    method ReplaceRuntime(id: SessionId, sources: seq<Source>, built: bool) returns (ok: bool)
      modifies this
      ensures ok == built
      ensures runtimes == if built then old(runtimes)[id := sources] else old(runtimes)
    {
      if built {
        runtimes := runtimes[id := sources];
      }
      return built;
    }

    /** Whether get_or_activate returns at once, with no build. */
    method IsCurrent(id: SessionId, wanted: seq<Source>) returns (cached: bool)
      ensures cached <==> id in runtimes && runtimes[id] == wanted
    {
      cached := id in runtimes && runtimes[id] == wanted;
    }

    method GetOrActivate(id: SessionId, sources: seq<Source>, built: bool) returns (ok: bool)
      modifies this
      ensures ok ==> id in runtimes && runtimes[id] == sources
      ensures id in old(runtimes) && old(runtimes)[id] == sources ==> ok && runtimes == old(runtimes)
      ensures !(id in old(runtimes) && old(runtimes)[id] == sources) ==>
                ok == built && runtimes == if built then old(runtimes)[id := sources] else old(runtimes)
    {
      ok := IsCurrent(id, sources);
      if !ok {
        ok := ReplaceRuntime(id, sources, built);
      }
    }

    method RemoveRuntime(id: SessionId)
      modifies this
      ensures runtimes == old(runtimes) - {id}
    {
      runtimes := runtimes - {id};
    }
  }

  class SessionManager {
    const config: Config
    const store: SessionStore
    const toolRuntime: ToolRuntimeManager
    var activeTurns: set<SessionId>

    ghost function State(): Harness
      reads this, store, toolRuntime
    {
      Harness(config, store.sessions, toolRuntime.runtimes, activeTurns)
    }

    constructor (config: Config)
      ensures State() == Harness(config, map[], map[], {})
      ensures fresh(store) && fresh(toolRuntime)
    {
      this.config := config;
      store := new SessionStore();
      toolRuntime := new ToolRuntimeManager();
      activeTurns := {};
    }

    method NewSession(id: SessionId, cwd: string)
      modifies store
      ensures State() == HM.NewSession(old(State()), id, cwd)
    {
      store.Create(id, SessionData([], cwd, DEFAULT_MODE, config.modelId));
    }

    method LoadSession(id: SessionId, cwd: Option<string>) returns (r: Result<SessionData, HarnessError>)
      modifies store
      ensures (State(), r) == HM.LoadSession(old(State()), id, cwd)
      ensures r.Failure? <==> id !in old(store.sessions)
      ensures r.Failure? ==> r.error == UnknownSession
    {
      r := store.Load(id);
      if r.Success? && cwd.Some? && r.value.cwd != cwd.value {
        var data := r.value.(cwd := cwd.value);
        var _ := store.Save(id, data);
        r := Success(data);
      }
    }

    method CloseSession(id: SessionId) returns (r: Result<(), HarnessError>)
      modifies store, toolRuntime
      ensures (State(), r) == HM.CloseSession(old(State()), id)
      ensures r.Failure? <==> id !in old(store.sessions)
      ensures r.Failure? ==> r.error == UnknownSession
    {
      toolRuntime.RemoveRuntime(id);
      r := store.Delete(id);
    }

    method ForkSession(source: SessionId, id: SessionId, cwd: string) returns (r: Result<SessionData, HarnessError>)
      modifies store
      ensures (State(), r) == HM.ForkSession(old(State()), source, id, cwd)
      ensures r.Failure? <==> source !in old(store.sessions)
      ensures r.Failure? ==> r.error == UnknownSession
    {
      r := store.Load(source);
      if r.Success? {
        r := Success(r.value.(cwd := cwd));
        store.Create(id, r.value);
      }
    }

    method SetModel(id: SessionId, modelId: string) returns (r: Result<SessionData, HarnessError>)
      modifies store
      ensures (State(), r) == HM.SetModel(old(State()), id, modelId)
      ensures r == Failure(PromptInFlight) <==> id in activeTurns
      ensures r == Failure(UnknownModel) <==>
              id !in activeTurns && modelId != config.modelId && modelId !in config.availableModels
      ensures r.Failure? ==> r.error == UnknownSession || r.error == PromptInFlight || r.error == UnknownModel
      ensures r == Failure(UnknownSession) ==> id !in old(store.sessions)
    {
      if id in activeTurns {
        return Failure(PromptInFlight);
      }
      if !SupportsModel(config, modelId) {
        return Failure(UnknownModel);
      }
      r := store.Load(id);
      if r.Success? {
        r := Success(r.value.(modelId := modelId));
        var _ := store.Save(id, r.value);
      }
    }

    /** set_mode up to its runtime build. */
    method LoadForMode(id: SessionId, modeId: string) returns (r: Result<SessionData, HarnessError>)
      ensures r == HM.LoadForMode(State(), id, modeId)
      ensures r == Failure(PromptInFlight) <==> id in activeTurns
      ensures r == Failure(UnknownMode) <==> id !in activeTurns && modeId !in {"ask", "architect", "code"}
      ensures r.Failure? ==> r.error == UnknownSession || r.error == PromptInFlight || r.error == UnknownMode
      ensures r == Failure(UnknownSession) ==> id !in store.sessions
    {
      if id in activeTurns {
        return Failure(PromptInFlight);
      }
      if modeId !in MODES {
        return Failure(UnknownMode);
      }
      r := store.Load(id);
      if r.Success? {
        r := Success(r.value.(modeId := modeId));
      }
    }

    /** The end of the build, and what set_mode does after it. */
    method SaveMode(id: SessionId, data: SessionData, built: bool) returns (r: Result<SessionData, HarnessError>)
      modifies store, toolRuntime
      ensures (State(), r) == HM.SaveMode(old(State()), id, data, built)
      ensures r == Failure(BuildFailed) <==> !built
      ensures r == Failure(UnknownSession) <==> built && id !in old(store.sessions)
      ensures r.Failure? ==> r.error == UnknownSession || r.error == BuildFailed
    {
      var replaced := toolRuntime.ReplaceRuntime(id, SourcesForMode(config, data.modeId), built);
      if !replaced {
        return Failure(BuildFailed);
      }
      var saved := store.Save(id, data);
      return if saved.Failure? then Failure(saved.error) else Success(data);
    }

    /** set_mode with nothing else done during its build. */
    method SetMode(id: SessionId, modeId: string, built: bool) returns (r: Result<SessionData, HarnessError>)
      modifies store, toolRuntime
      ensures (State(), r) == HM.SetMode(old(State()), id, modeId, built)
    {
      r := LoadForMode(id, modeId);
      if r.Success? {
        r := SaveMode(id, r.value, built);
      }
    }

    /** begin_prompt up to its runtime build; `wanted` is what to build, unless the runtime is cached. */
    method StartPrompt(id: SessionId, text: string)
      returns (r: Result<Snapshot, HarnessError>, wanted: Option<seq<Source>>)
      modifies this
      ensures (State(), r) == HM.StartPrompt(old(State()), id, text)
      ensures r == Failure(UnknownSession) <==> id !in store.sessions
      ensures r == Failure(PromptInFlight) <==> id in store.sessions && id in old(activeTurns)
      ensures r.Failure? ==> r.error == UnknownSession || r.error == PromptInFlight
      ensures wanted == if r.Success? && !Cached(State(), id, SourcesForMode(config, r.value.session.modeId))
                        then Some(SourcesForMode(config, r.value.session.modeId)) else None
      ensures r.Success? && wanted.None? ==> id in toolRuntime.runtimes
    {
      wanted := None;
      var loaded := store.Load(id);
      if loaded.Failure? {
        return Failure(loaded.error), None;
      }
      var session := loaded.value;
      if id in activeTurns {
        return Failure(PromptInFlight), None;
      }
      activeTurns := activeTurns + {id};
      var baseLen := |session.history|;
      session := session.(history := session.history + [UserMessage(text)]);
      r := Success(Snapshot(session, baseLen));
      var cached := toolRuntime.IsCurrent(id, SourcesForMode(config, session.modeId));
      if !cached {
        wanted := Some(SourcesForMode(config, session.modeId));
      }
    }

    /** The end of the build, and what begin_prompt does after it. */
    method EndBuild(id: SessionId, wanted: seq<Source>, built: bool)
      modifies this, toolRuntime
      ensures State() == HM.EndBuild(old(State()), id, wanted, built)
    {
      var ok := toolRuntime.ReplaceRuntime(id, wanted, built);
      if !ok {
        FinishPrompt(id);
      }
    }

    /** begin_prompt with nothing else done during its build. */
    method BeginPrompt(id: SessionId, text: string, built: bool) returns (r: Result<Snapshot, HarnessError>)
      modifies this, toolRuntime
      ensures (State(), r) == HM.BeginPrompt(old(State()), id, text, built)
    {
      var started, _ := StartPrompt(id, text);
      r := started;
      if r.Success? {
        var ok := toolRuntime.GetOrActivate(id, SourcesForMode(config, r.value.session.modeId), built);
        if !ok {
          FinishPrompt(id);
          return Failure(BuildFailed);
        }
      }
    }

    method FinishPrompt(id: SessionId)
      modifies this
      ensures State() == HM.FinishPrompt(old(State()), id)
    {
      activeTurns := activeTurns - {id};
    }

    method CommitPrompt(id: SessionId, baseLen: nat, history: seq<Message>) returns (r: Result<(), HarnessError>)
      modifies store
      ensures (State(), r) == HM.CommitPrompt(old(State()), id, baseLen, history)
      ensures r == Failure(HistoryRegressed) <==> |history| < baseLen
      ensures r == Failure(UnknownSession) <==> |history| >= baseLen && id !in old(store.sessions)
      ensures r.Failure? ==> r.error == UnknownSession || r.error == HistoryRegressed
    {
      if |history| < baseLen {
        return Failure(HistoryRegressed);
      }
      var loaded := store.Load(id);
      if loaded.Failure? {
        return Failure(loaded.error);
      }
      var current := loaded.value;
      var _ := store.Save(id, current.(history := current.history + history[baseLen..]));
      return Success(());
    }
  }
}
