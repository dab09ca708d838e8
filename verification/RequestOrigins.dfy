/**
 * What a waiting request carries from its start to its answer. The session it registers has the slot,
 * directory and frontend it was started with, or the backend id and directory of the entry it took;
 * and a backend spawned for it is sent the stored initialize request before it is called.
 */
module RequestOrigins {
  import opened Wrappers
  import opened PoolModel
  import opened GatewaySystem
  import opened SessionDirectory
  import opened SessionConservation
  import opened SlotAccounting
  import SE = SessionEntries

  predicate Opens(e: Event) {
    e.StartNew? || e.StartLoad? || e.StartPrompt? || e.StartFork? || e.StartClose?
  }

  /** A backend spawned for the request is first sent the stored initialize request, if there is one. */
  function FirstPhase(p: Pool, spawned: bool): Phase {
    if SpawnIndex(p, spawned).Some? && p.initRequest.Some? then Initializing else Calling
  }

  /** The reload of an evicted session on the selected slot, if there is one. */
  function ReloadOf(p: Pool, ext: ExternalSid, frontend: FrontendId, spawned: bool, prompting: bool): Option<Request> {
    if ext !in p.evicted || CannotPlace(p, spawned) then None
    else Some(Reloading(ext, p.evicted[ext].(lastSender := frontend), SelectSlot(p).value, frontend,
                        FirstPhase(p, spawned), prompting))
  }

  /** The request that waits after the event, unless it was refused or answered at once. */
  function Awaited(s: System, e: Event): Option<Request>
    requires Opens(e)
  {
    var p := s.pool;
    match e
    case StartNew(_, cwd, frontend, spawned) =>
      if CannotPlace(p, spawned) then None
      else Some(Creating(SelectSlot(p).value, cwd, frontend, FirstPhase(p, spawned)))
    case StartFork(_, ext, cwd, frontend) =>
      if Resolves(p, ext) then Some(Forking(p.sessions[ext].slotIndex, cwd, frontend)) else None
    case StartClose(_, ext, _) => if Resolves(p, ext) then Some(Closing(ext)) else None
    case StartLoad(_, ext, frontend, spawned) =>
      if Resolves(p, ext) then None else ReloadOf(p, ext, frontend, spawned, false)
    case StartPrompt(_, ext, frontend, authorized, spawned, _) =>
      if !authorized || ext in p.inFlight then None
      else if Resolves(p, ext) then Some(Prompting(ext))
      else ReloadOf(p, ext, frontend, spawned, true)
  }

  // ----- The start -----

  ghost predicate Begins(s: System, t: System, rid: nat, r: Option<Request>) {
    t.transit == if r.Some? then s.transit[rid := r.value] else s.transit
  }

  lemma AssignedSlot(p: Pool, spawned: bool)
    ensures var at := AssignSlot(p, spawned).1;
            if CannotPlace(p, spawned) then at == None
            else at == Some((SelectSlot(p).value, FirstPhase(p, spawned)))
  {
  }

  /** Recording a sender and taking an entry leave what selection looks at. */
  ghost predicate SameChoice(p: Pool, q: Pool) {
    q.slots == p.slots && q.strategy == p.strategy && q.initRequest == p.initRequest
  }

  lemma ReloadAwaits(p: Pool, q: Pool, ext: ExternalSid, frontend: FrontendId, spawned: bool, prompting: bool)
    requires SameChoice(p, q) && q.evicted.Keys == p.evicted.Keys
    requires ext in p.evicted ==> q.evicted[ext] == p.evicted[ext].(lastSender := frontend)
    ensures Reload(q, ext, frontend, spawned, prompting).1 == ReloadOf(p, ext, frontend, spawned, prompting)
  {
    if ext in p.evicted {
      var taken := TakeEvicted(q, ext);
      assert SelectSlot(taken) == SelectSlot(p);
      AssignedSlot(taken, spawned);
    }
  }

  lemma RecordedChoice(p: Pool, ext: ExternalSid, frontend: FrontendId)
    requires SE.Apart(p)
    ensures var q := RecordSender(p, ext, frontend);
            && SameChoice(p, q) && q.inFlight == p.inFlight && q.evicted.Keys == p.evicted.Keys
            && (ext in p.evicted ==> q.evicted[ext] == p.evicted[ext].(lastSender := frontend))
            && (Resolves(q, ext) <==> Resolves(p, ext))
            && (ext in p.sessions ==> ext in q.sessions && q.sessions[ext].slotIndex == p.sessions[ext].slotIndex)
  {
  }

  lemma BegunChoice(p: Pool, ext: ExternalSid, frontend: FrontendId)
    requires SE.Apart(p) && ext !in p.inFlight
    ensures var q := BeginPrompt(RecordSender(p, ext, frontend), ext, frontend);
            && SameChoice(p, q) && q.evicted.Keys == p.evicted.Keys
            && (ext in p.evicted ==> q.evicted[ext] == p.evicted[ext].(lastSender := frontend))
            && (Resolves(q, ext) <==> Resolves(p, ext))
  {
  }

  lemma NewBegins(s: System, e: Event)
    requires Enabled(s, e) && e.StartNew?
    ensures Begins(s, Step(s, e), e.rid, Awaited(s, e))
  {
    AssignedSlot(s.pool, e.spawned);
  }

  lemma LoadBegins(s: System, e: Event)
    requires SE.Apart(s.pool) && Enabled(s, e) && e.StartLoad?
    ensures Begins(s, Step(s, e), e.rid, Awaited(s, e))
  {
    RecordedChoice(s.pool, e.ext, e.frontend);
    ReloadAwaits(s.pool, RecordSender(s.pool, e.ext, e.frontend), e.ext, e.frontend, e.spawned, false);
  }

  lemma PromptBegins(s: System, e: Event)
    requires SE.Apart(s.pool) && Enabled(s, e) && e.StartPrompt?
    ensures Begins(s, Step(s, e), e.rid, Awaited(s, e))
  {
    if e.authorized && e.ext !in s.pool.inFlight {
      var begun := BeginPrompt(RecordSender(s.pool, e.ext, e.frontend), e.ext, e.frontend);
      BegunChoice(s.pool, e.ext, e.frontend);
      ReloadAwaits(s.pool, begun, e.ext, e.frontend, e.spawned, true);
      BegunAwaits(s, begun, e);
    }
  }

  lemma BegunAwaits(s: System, begun: Pool, e: Event)
    requires e.StartPrompt?
    ensures Begins(s, PromptBegun(s, begun, e.rid, e.ext, e.frontend, e.spawned, e.now), e.rid,
                   if Resolves(begun, e.ext) then Some(Prompting(e.ext))
                   else Reload(begun, e.ext, e.frontend, e.spawned, true).1)
  {
  }

  lemma RecordingBegins(s: System, e: Event)
    requires SE.Apart(s.pool) && Enabled(s, e) && (e.StartFork? || e.StartClose?)
    ensures Begins(s, Step(s, e), e.rid, Awaited(s, e))
  {
    RecordedChoice(s.pool, e.ext, e.frontend);
  }

  /** Main result: which requests wait for an answer, and with what. */
  lemma StartsAsAsked(s: System, e: Event)
    requires Consistent(s) && Enabled(s, e) && Opens(e)
    ensures Step(s, e).transit == if Awaited(s, e).Some? then s.transit[e.rid := Awaited(s, e).value] else s.transit
  {
    match e {
      case StartNew(_, _, _, _) => NewBegins(s, e);
      case StartLoad(_, _, _, _) => LoadBegins(s, e);
      case StartPrompt(_, _, _, _, _, _) => PromptBegins(s, e);
      case _ => RecordingBegins(s, e);
    }
  }

  /**
   * Main result: an answer ends its request, except that a reloaded prompt waits on with its guard and an
   * initialized backend is called if its slot is still alive; no other event touches a waiting request.
   */
  lemma AnswersEndRequests(s: System, e: Event)
    requires Enabled(s, e) && !Opens(e)
    ensures Step(s, e).transit ==
            if e.CreateReplied? || e.ForkReplied? || e.CloseReplied? || e.RequestEnded? then s.transit - {e.rid}
            else if e.ReloadReplied? then
              if s.transit[e.rid].prompting then s.transit[e.rid := Prompting(s.transit[e.rid].ext)]
              else s.transit - {e.rid}
            else if e.InitReplied? then
              if Alive(s.pool.slots, s.transit[e.rid].slot)
              then s.transit[e.rid := s.transit[e.rid].(phase := Calling)]
              else s.transit - {e.rid}
            else s.transit
  {
  }

  // ----- The wait -----

  ghost predicate Waits(s: System, es: seq<Event>, rid: nat)
    requires Run(s, es)
    decreases |es|
  {
    rid in s.transit && (es == [] || Waits(Step(s, es[0]), es[1..], rid))
  }

  /** The request is the same, once its backend has been initialized. */
  predicate SameBut(r: Request, q: Request, initialized: bool) {
    q == if initialized && (r.Creating? || r.Reloading?) then r.(phase := Calling) else r
  }

  lemma KeptByStep(s: System, e: Event, rid: nat)
    requires Enabled(s, e) && rid in s.transit && rid in Step(s, e).transit && !Step(s, e).transit[rid].Prompting?
    ensures SameBut(s.transit[rid], Step(s, e).transit[rid], e == InitReplied(rid))
  {
  }

  /** Whatever happens while a request waits; a reloaded prompt waits for another answer from then on. */
  lemma {:induction false} KeptByRun(s: System, es: seq<Event>, rid: nat)
    requires Run(s, es) && Waits(s, es, rid)
    ensures rid in After(s, es).transit
    ensures !After(s, es).transit[rid].Prompting? ==>
              SameBut(s.transit[rid], After(s, es).transit[rid], InitReplied(rid) in es)
    decreases |es|
  {
    if es != [] {
      assert rid in Step(s, es[0]).transit;
      KeptByRun(Step(s, es[0]), es[1..], rid);
      if !Step(s, es[0]).transit[rid].Prompting? {
        KeptByStep(s, es[0], rid);
      }
      assert InitReplied(rid) in es <==> es[0] == InitReplied(rid) || InitReplied(rid) in es[1..];
    }
  }

  /** The request that an answer finds is the one that was started. */
  lemma FoundAsAsked(s: System, start: Event, es: seq<Event>, reply: Event)
    requires Consistent(s) && Enabled(s, start) && Opens(start) && start.rid in Step(s, start).transit
    requires Run(Step(s, start), es) && Waits(Step(s, start), es, start.rid)
    requires Registers(reply) && reply.rid == start.rid && Enabled(After(Step(s, start), es), reply)
    ensures Awaited(s, start).Some? && Step(s, start).transit[start.rid] == Awaited(s, start).value
    ensures start.rid in After(Step(s, start), es).transit
    ensures SameBut(Awaited(s, start).value, After(Step(s, start), es).transit[start.rid], InitReplied(start.rid) in es)
  {
    StartsAsAsked(s, start);
    KeptByRun(Step(s, start), es, start.rid);
  }

  // ----- The answer -----

  /** What the start of a request and its answer make of the session. */
  function EntryAsked(p: Pool, start: Event, reply: Event): (ExternalSid, SessionEntry)
    requires Opens(start) && Registers(reply)
    requires !start.StartClose? && !(start.StartFork? && start.ext !in p.sessions)
    requires if start.StartLoad? || start.StartPrompt? then start.ext in p.evicted else !reply.ReloadReplied?
    requires !start.StartFork? ==> SelectSlot(p).Some?
  {
    if start.StartNew? then
      (reply.ext, SessionEntry(SelectSlot(p).value, reply.back, reply.now, start.cwd, start.frontend))
    else if start.StartFork? then
      (reply.ext, SessionEntry(p.sessions[start.ext].slotIndex, reply.back, reply.now, start.cwd, start.frontend))
    else
      var entry := p.evicted[start.ext];
      (start.ext, SessionEntry(SelectSlot(p).value, entry.backendSid, reply.now, entry.cwd, start.frontend))
  }

  /** The answer fits its request. */
  ghost predicate Answerable(p: Pool, start: Event, reply: Event)
    requires Opens(start) && Registers(reply)
  {
    match start
    case StartNew(_, _, _, _) => reply.CreateReplied? && SelectSlot(p).Some?
    case StartFork(_, ext, _, _) => reply.ForkReplied? && ext in p.sessions
    case StartClose(_, _, _) => false
    case _ => reply.ReloadReplied? && start.ext in p.evicted && SelectSlot(p).Some?
  }

  lemma AskedEntry(s: System, start: Event, b: System, reply: Event)
    requires Opens(start) && Awaited(s, start).Some?
    requires Registers(reply) && reply.rid == start.rid && Enabled(b, reply)
    requires SameBut(Awaited(s, start).value, b.transit[reply.rid], true)
             || b.transit[reply.rid] == Awaited(s, start).value
    ensures Answerable(s.pool, start, reply)
    ensures (SE.Registered(b, reply), SE.NewEntry(b, reply)) == EntryAsked(s.pool, start, reply)
  {
  }

  /**
   * Main result: whatever happens while a request waits, its answer registers the session on the slot
   * chosen at its start, with the directory and frontend it was started with; a reload brings back the
   * backend id and directory the session was evicted with.
   */
  lemma RegistersAsAsked(s: System, start: Event, es: seq<Event>, reply: Event)
    requires Consistent(s) && Enabled(s, start) && Opens(start) && start.rid in Step(s, start).transit
    requires Run(Step(s, start), es) && Waits(Step(s, start), es, start.rid)
    requires Registers(reply) && reply.rid == start.rid && Enabled(After(Step(s, start), es), reply)
    ensures Answerable(s.pool, start, reply)
    ensures var b, (ext, entry) := After(Step(s, start), es), EntryAsked(s.pool, start, reply);
            Step(b, reply).pool.sessions == b.pool.sessions[ext := entry]
  {
    FoundAsAsked(s, start, es, reply);
    AskedEntry(s, start, After(Step(s, start), es), reply);
    SE.RegisteredTables(After(Step(s, start), es), reply);
  }

  predicate Initial(r: Request) {
    (r.Creating? || r.Reloading?) && r.phase.Initializing?
  }

  lemma InitialWhenSpawned(s: System, start: Event)
    requires Consistent(s) && Enabled(s, start) && Opens(start) && start.rid in Step(s, start).transit
    ensures Initial(Step(s, start).transit[start.rid]) <==> Spawns(s, start).Some? && s.pool.initRequest.Some?
  {
    StartsAsAsked(s, start);
  }

  /** Main result: once an initialize request is stored, a backend spawned for a request is sent it before the call. */
  lemma InitializedFirst(s: System, start: Event, es: seq<Event>, reply: Event)
    requires Consistent(s) && Enabled(s, start) && Opens(start) && start.rid in Step(s, start).transit
    requires Run(Step(s, start), es) && Waits(Step(s, start), es, start.rid)
    requires Registers(reply) && reply.rid == start.rid && Enabled(After(Step(s, start), es), reply)
    requires Spawns(s, start).Some? && s.pool.initRequest.Some?
    ensures InitReplied(start.rid) in es
  {
    FoundAsAsked(s, start, es, reply);
    InitialWhenSpawned(s, start);
  }

  // ----- The stored initialize request -----

  lemma ReloadKeepsInit(p: Pool, ext: ExternalSid, frontend: FrontendId, spawned: bool, prompting: bool)
    ensures Reload(p, ext, frontend, spawned, prompting).0.initRequest == p.initRequest
  {
  }

  lemma PromptKeepsInit(s: System, begun: Pool, rid: nat, ext: ExternalSid, frontend: FrontendId, spawned: bool,
                        now: Instant)
    ensures PromptBegun(s, begun, rid, ext, frontend, spawned, now).pool.initRequest == begun.initRequest
  {
    ReloadKeepsInit(begun, ext, frontend, spawned, true);
  }

  lemma PromptEventKeepsInit(s: System, e: Event)
    requires Enabled(s, e) && e.StartPrompt?
    ensures Step(s, e).pool.initRequest == s.pool.initRequest
  {
    if e.ext !in s.pool.inFlight {
      var begun := BeginPrompt(RecordSender(s.pool, e.ext, e.frontend), e.ext, e.frontend);
      PromptKeepsInit(s, begun, e.rid, e.ext, e.frontend, e.spawned, e.now);
    }
  }

  lemma PlainKeepsInit(s: System, e: Event)
    requires Enabled(s, e) && !e.StartLoad? && !e.StartPrompt?
    ensures Step(s, e).pool.initRequest == if e.Initialize? then Some(e.request) else s.pool.initRequest
  {
  }

  lemma StoredByStep(s: System, e: Event)
    requires Enabled(s, e)
    ensures Step(s, e).pool.initRequest == if e.Initialize? then Some(e.request) else s.pool.initRequest
  {
    match e {
      case StartLoad(_, ext, frontend, spawned) =>
        ReloadKeepsInit(RecordSender(s.pool, ext, frontend), ext, frontend, spawned, false);
      case StartPrompt(_, _, _, _, _, _) => PromptEventKeepsInit(s, e);
      case _ => PlainKeepsInit(s, e);
    }
  }

  /** The last of the initialize requests. */
  function LastInit(es: seq<Event>, was: Option<string>): Option<string> {
    if es == [] then was else LastInit(es[1..], if es[0].Initialize? then Some(es[0].request) else was)
  }

  /** What is replayed to a new backend is the latest initialize request. */
  lemma {:induction false} LatestInitIsStored(s: System, es: seq<Event>)
    requires Run(s, es)
    ensures After(s, es).pool.initRequest == LastInit(es, s.pool.initRequest)
    decreases |es|
  {
    if es != [] {
      StoredByStep(s, es[0]);
      LatestInitIsStored(Step(s, es[0]), es[1..]);
    }
  }
}
