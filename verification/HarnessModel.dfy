/** The harness's sessions as a value: the store, the cached tool runtimes and the running turns. */
module HarnessModel {
  import opened Wrappers
  import opened Conversation

  type SessionId = string
  type Source = string

  datatype SessionData = SessionData(history: seq<Message>, cwd: string, modeId: string, modelId: string)

  const DEFAULT_MODE := "code"
  const MODES: set<string> := {"code", "ask", "architect"}

  /** `sources` are the configured tool sources; `modeSources` narrows them for some modes. */
  datatype Config = Config(
    modelId: string, availableModels: seq<string>, sources: seq<Source>, modeSources: map<string, seq<Source>>)

  datatype HarnessError = UnknownSession | PromptInFlight | UnknownMode | UnknownModel | BuildFailed | HistoryRegressed

  datatype Harness = Harness(
    config: Config,
    store: map<SessionId, SessionData>,
    runtimes: map<SessionId, seq<Source>>,
    active: set<SessionId>)

  /** A private copy of the session, taken when the turn began, with the user's message appended. */
  datatype Snapshot = Snapshot(session: SessionData, baseLen: nat)

  function SourcesForMode(c: Config, modeId: string): seq<Source> {
    if modeId in c.modeSources then c.modeSources[modeId] else c.sources
  }

  predicate SupportsModel(c: Config, modelId: string) {
    modelId == c.modelId || modelId in c.availableModels
  }

  /** Runtimes belong to stored sessions and have the sources of the stored mode, which is a known one. */
  ghost predicate Coherent(h: Harness) {
    && (forall id | id in h.runtimes ::
          && id in h.store
          && var modeId := h.store[id].modeId;
             h.runtimes[id]
             == if modeId in h.config.modeSources then h.config.modeSources[modeId] else h.config.sources)
    && (forall id | id in h.store :: h.store[id].modeId in MODES)
  }

  function NewSession(h: Harness, id: SessionId, cwd: string): Harness {
    h.(store := h.store[id := SessionData([], cwd, DEFAULT_MODE, h.config.modelId)])
  }

  function LoadSession(h: Harness, id: SessionId, cwd: Option<string>): (Harness, Result<SessionData, HarnessError>) {
    if id !in h.store then (h, Failure(UnknownSession))
    else if cwd.None? || h.store[id].cwd == cwd.value then (h, Success(h.store[id]))
    else
      var data := h.store[id].(cwd := cwd.value);
      (h.(store := h.store[id := data]), Success(data))
  }

  function CloseSession(h: Harness, id: SessionId): (Harness, Result<(), HarnessError>) {
    (h.(runtimes := h.runtimes - {id}, store := h.store - {id}),
     if id in h.store then Success(()) else Failure(UnknownSession))
  }

  function ForkSession(h: Harness, source: SessionId, id: SessionId, cwd: string)
    : (Harness, Result<SessionData, HarnessError>)
  {
    if source !in h.store then (h, Failure(UnknownSession))
    else
      var data := h.store[source].(cwd := cwd);
      (h.(store := h.store[id := data]), Success(data))
  }

  function SetModel(h: Harness, id: SessionId, modelId: string): (Harness, Result<SessionData, HarnessError>) {
    if id in h.active then (h, Failure(PromptInFlight))
    else if !SupportsModel(h.config, modelId) then (h, Failure(UnknownModel))
    else if id !in h.store then (h, Failure(UnknownSession))
    else
      var data := h.store[id].(modelId := modelId);
      (h.(store := h.store[id := data]), Success(data))
  }

  // ----- set_mode, in the two stretches around its await -----

  function LoadForMode(h: Harness, id: SessionId, modeId: string): Result<SessionData, HarnessError> {
    if id in h.active then Failure(PromptInFlight)
    else if modeId !in MODES then Failure(UnknownMode)
    else if id !in h.store then Failure(UnknownSession)
    else Success(h.store[id].(modeId := modeId))
  }

  function SaveMode(h: Harness, id: SessionId, data: SessionData, built: bool)
    : (Harness, Result<SessionData, HarnessError>)
  {
    if !built then (h, Failure(BuildFailed))
    else
      var rebuilt := h.(runtimes := h.runtimes[id := SourcesForMode(h.config, data.modeId)]);
      if id !in h.store then (rebuilt, Failure(UnknownSession))
      else (rebuilt.(store := h.store[id := data]), Success(data))
  }

  function SetMode(h: Harness, id: SessionId, modeId: string, built: bool)
    : (Harness, Result<SessionData, HarnessError>)
  {
    match LoadForMode(h, id, modeId)
    case Failure(error) => (h, Failure(error))
    case Success(data) => SaveMode(h, id, data, built)
  }

  // ----- begin_prompt, in the two stretches around its await -----

  /** The session's copy, taken while it is marked as having a turn. */
  function StartPrompt(h: Harness, id: SessionId, text: string): (Harness, Result<Snapshot, HarnessError>) {
    if id !in h.store then (h, Failure(UnknownSession))
    else if id in h.active then (h, Failure(PromptInFlight))
    else
      var session := h.store[id];
      (h.(active := h.active + {id}),
       Success(Snapshot(session.(history := session.history + [UserMessage(text)]), |session.history|)))
  }

  /** The cached runtime is used when its sources are the wanted ones; any other is built anew. */
  predicate Cached(h: Harness, id: SessionId, wanted: seq<Source>) {
    id in h.runtimes && h.runtimes[id] == wanted
  }

  /** What the build comes to: its runtime is inserted, or the turn is given up. */
  function EndBuild(h: Harness, id: SessionId, wanted: seq<Source>, built: bool): Harness {
    if built then h.(runtimes := h.runtimes[id := wanted]) else FinishPrompt(h, id)
  }

  function BeginPrompt(h: Harness, id: SessionId, text: string, built: bool)
    : (Harness, Result<Snapshot, HarnessError>)
  {
    var (started, r) := StartPrompt(h, id, text);
    if r.Failure? then (started, r)
    else
      var wanted := SourcesForMode(h.config, r.value.session.modeId);
      if Cached(started, id, wanted) then (started, r)
      else (EndBuild(started, id, wanted, built), if built then r else Failure(BuildFailed))
  }

  function FinishPrompt(h: Harness, id: SessionId): Harness {
    h.(active := h.active - {id})
  }

  function CommitPrompt(h: Harness, id: SessionId, baseLen: nat, history: seq<Message>)
    : (Harness, Result<(), HarnessError>)
  {
    if |history| < baseLen then (h, Failure(HistoryRegressed))
    else if id !in h.store then (h, Failure(UnknownSession))
    else
      var current := h.store[id];
      (h.(store := h.store[id := current.(history := current.history + history[baseLen..])]), Success(()))
  }
}
