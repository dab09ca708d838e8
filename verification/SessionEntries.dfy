/**
 * What every event makes of the entry of one session, active or evicted: whether it stays, who is
 * named as its last sender, and when it counts as last used.
 */
module SessionEntries {
  import opened Wrappers
  import opened PoolModel
  import opened GatewaySystem
  import opened SessionDirectory

  /** A request about the session comes from `e.frontend`. */
  predicate Names(e: Event, ext: ExternalSid) {
    || (e.StartPrompt? && e.authorized && e.ext == ext)
    || ((e.StartLoad? || e.StartFork? || e.StartClose? || e.SenderRecorded?) && e.ext == ext)
  }

  /** A prompt of the active session is forwarded to its backend. */
  predicate Forwards(s: System, e: Event, ext: ExternalSid) {
    && e.StartPrompt? && e.authorized && e.ext == ext && ext !in s.pool.inFlight
    && ext in s.pool.sessions && Alive(s.pool.slots, s.pool.sessions[ext].slotIndex)
  }

  /** The active session goes to the evicted table: it was not used for the timeout, or its slot dies. */
  predicate Parks(s: System, e: Event, ext: ExternalSid)
    requires ext in s.pool.sessions
  {
    var entry := s.pool.sessions[ext];
    || (e.IdleEvicted? && (e.timeout == 0 || entry.lastActivity + e.timeout <= e.now))
    || (e.BackendDied? && e.slot == entry.slotIndex)
  }

  predicate Closes(s: System, e: Event, ext: ExternalSid) {
    e.CloseReplied? && e.rid in s.transit && s.transit[e.rid].Closing? && s.transit[e.rid].ext == ext
  }

  /** The evicted entry is taken for a reload, or purged. */
  predicate Takes(s: System, e: Event, ext: ExternalSid) {
    || (e.StartLoad? && e.ext == ext)
    || (e.StartPrompt? && e.authorized && e.ext == ext && ext !in s.pool.inFlight)
    || (e.Purged? && ext !in e.keep)
  }

  /** The entry of an active session after an event that leaves it active. */
  function EntryAfter(s: System, e: Event, ext: ExternalSid): SessionEntry
    requires ext in s.pool.sessions
  {
    var entry := s.pool.sessions[ext];
    entry.(lastActivity := if Forwards(s, e, ext) then e.now else entry.lastActivity,
           lastSender := if Names(e, ext) then e.frontend else entry.lastSender)
  }

  ghost predicate ActiveAfter(s: System, e: Event, ext: ExternalSid, q: Pool)
    requires ext in s.pool.sessions
  {
    var entry := s.pool.sessions[ext];
    && (ext in q.sessions <==> !Parks(s, e, ext) && !Closes(s, e, ext))
    && (ext in q.sessions ==> q.sessions[ext] == EntryAfter(s, e, ext))
    && (ext in q.evicted <==> Parks(s, e, ext))
    && (ext in q.evicted ==>
          q.evicted[ext] == EvictedSession(entry.backendSid, entry.cwd, e.now, entry.lastSender))
  }

  ghost predicate EvictedAfter(s: System, e: Event, ext: ExternalSid, q: Pool)
    requires ext in s.pool.evicted
  {
    && ext !in q.sessions
    && (ext in q.evicted <==> !Takes(s, e, ext))
    && (ext in q.evicted ==>
          q.evicted[ext] == s.pool.evicted[ext].(
                              lastSender := if Names(e, ext) then e.frontend else s.pool.evicted[ext].lastSender))
  }

  ghost predicate Apart(p: Pool) {
    p.sessions.Keys !! p.evicted.Keys
  }

  ghost predicate Follows(s: System, e: Event, ext: ExternalSid, q: Pool) {
    && (ext in s.pool.sessions ==> ActiveAfter(s, e, ext, q))
    && (ext in s.pool.evicted ==> EvictedAfter(s, e, ext, q))
  }

  // ----- Both tables after an event -----

  lemma AssignSlotEntries(p: Pool, spawned: bool)
    ensures var q := AssignSlot(p, spawned).0; q.sessions == p.sessions && q.evicted == p.evicted
  {
  }

  lemma ReloadEntries(p: Pool, ext: ExternalSid, frontend: FrontendId, spawned: bool, prompting: bool)
    ensures var q := Reload(p, ext, frontend, spawned, prompting).0;
            q.sessions == p.sessions && q.evicted == p.evicted - {ext}
  {
    if ext in p.evicted {
      AssignSlotEntries(TakeEvicted(p, ext), spawned);
    } else {
      assert p.evicted - {ext} == p.evicted;
    }
  }

  /** The pool's entries with the sender of one session recorded. */
  ghost predicate Sent(p: Pool, q: Pool, ext: ExternalSid, frontend: FrontendId) {
    && q.sessions == (if ext in p.sessions
                      then p.sessions[ext := p.sessions[ext].(lastSender := frontend)] else p.sessions)
    && q.evicted == (if ext !in p.sessions && ext in p.evicted
                     then p.evicted[ext := p.evicted[ext].(lastSender := frontend)] else p.evicted)
  }

  lemma RecordedSent(p: Pool, ext: ExternalSid, frontend: FrontendId)
    ensures Sent(p, RecordSender(p, ext, frontend), ext, frontend) && RecordSender(p, ext, frontend).slots == p.slots
  {
  }

  lemma BegunSent(p: Pool, ext: ExternalSid, frontend: FrontendId)
    requires ext !in p.inFlight
    ensures var q := BeginPrompt(RecordSender(p, ext, frontend), ext, frontend);
            Sent(p, q, ext, frontend) && q.slots == p.slots
  {
  }

  /** Then a prompt is forwarded, or the entry is taken. */
  ghost predicate Used(begun: Pool, q: Pool, ext: ExternalSid, now: Instant) {
    if Resolves(begun, ext)
    then q.sessions == begun.sessions[ext := begun.sessions[ext].(lastActivity := now)] && q.evicted == begun.evicted
    else q.sessions == begun.sessions && q.evicted == begun.evicted - {ext}
  }

  lemma PromptBegunUsed(s: System, begun: Pool, rid: nat, ext: ExternalSid, frontend: FrontendId, spawned: bool,
                        now: Instant)
    ensures Used(begun, PromptBegun(s, begun, rid, ext, frontend, spawned, now).pool, ext, now)
  {
    if !Resolves(begun, ext) {
      ReloadEntries(begun, ext, frontend, spawned, true);
    }
  }

  predicate Untouching(e: Event) {
    || e.Initialize? || e.StartNew? || e.InitReplied? || e.RequestEnded? || e.BackendSpawned?
    || (e.StartPrompt? && !e.authorized)
  }

  lemma UntouchedTables(s: System, e: Event)
    requires Enabled(s, e) && Untouching(e)
    ensures var q := Step(s, e).pool; q.sessions == s.pool.sessions && q.evicted == s.pool.evicted
  {
    if e.StartNew? {
      AssignSlotEntries(s.pool, e.spawned);
    }
  }

  predicate OnlyRecords(s: System, e: Event) {
    e.StartFork? || e.StartClose? || e.SenderRecorded? || (e.StartPrompt? && e.authorized && e.ext in s.pool.inFlight)
  }

  lemma RecordedTables(s: System, e: Event)
    requires Enabled(s, e) && OnlyRecords(s, e)
    ensures Sent(s.pool, Step(s, e).pool, e.ext, e.frontend)
  {
    RecordedSent(s.pool, e.ext, e.frontend);
  }

  function Registered(s: System, e: Event): ExternalSid
    requires Enabled(s, e) && Registers(e)
  {
    if e.ReloadReplied? then s.transit[e.rid].ext else e.ext
  }

  /** The entry an answer registers: slot, directory and frontend of its request, used at this moment. */
  function NewEntry(s: System, e: Event): SessionEntry
    requires Enabled(s, e) && Registers(e)
  {
    var r := s.transit[e.rid];
    if e.ReloadReplied? then SessionEntry(r.slot, r.entry.backendSid, e.now, r.entry.cwd, r.frontend)
    else SessionEntry(r.slot, e.back, e.now, r.cwd, r.frontend)
  }

  lemma RegisteredIsNew(s: System, e: Event)
    requires Consistent(s) && Enabled(s, e) && Registers(e)
    ensures Registered(s, e) !in s.pool.sessions && Registered(s, e) !in s.pool.evicted
  {
    if e.ReloadReplied? {
      assert Reloads(s, e.rid);
    }
  }

  /** An answer registers one session, and changes no other. */
  lemma RegisteredTables(s: System, e: Event)
    requires Enabled(s, e) && Registers(e)
    ensures var q := Step(s, e).pool;
            && q.sessions == s.pool.sessions[Registered(s, e) := NewEntry(s, e)]
            && q.evicted == s.pool.evicted
  {
  }

  // ----- One entry, from the tables -----

  lemma UntouchedEntry(s: System, e: Event, ext: ExternalSid, q: Pool)
    requires Apart(s.pool)
    requires Untouching(e) || Registers(e)
    requires q.evicted == s.pool.evicted && (ext in q.sessions ==> ext in s.pool.sessions || ext !in s.pool.evicted)
    requires ext in s.pool.sessions ==> ext in q.sessions && q.sessions[ext] == s.pool.sessions[ext]
    ensures Follows(s, e, ext, q)
  {
  }

  lemma RecordedEntry(s: System, e: Event, ext: ExternalSid, q: Pool)
    requires Apart(s.pool) && OnlyRecords(s, e) && Sent(s.pool, q, e.ext, e.frontend)
    ensures Follows(s, e, ext, q)
  {
  }

  lemma LoadedEntry(s: System, e: Event, ext: ExternalSid, mid: Pool, q: Pool)
    requires Apart(s.pool) && e.StartLoad? && Sent(s.pool, mid, e.ext, e.frontend)
    requires q.sessions == mid.sessions && q.evicted == mid.evicted - {e.ext}
    ensures Follows(s, e, ext, q)
  {
  }

  lemma PromptedEntry(s: System, e: Event, ext: ExternalSid, mid: Pool, q: Pool)
    requires Apart(s.pool) && e.StartPrompt? && e.authorized && e.ext !in s.pool.inFlight
    requires Sent(s.pool, mid, e.ext, e.frontend) && mid.slots == s.pool.slots && Used(mid, q, e.ext, e.now)
    ensures Follows(s, e, ext, q)
  {
  }

  lemma ParkedEntryFollows(s: System, e: Event, ext: ExternalSid)
    requires Apart(s.pool) && Enabled(s, e) && (e.IdleEvicted? || e.BackendDied?)
    ensures Follows(s, e, ext, Step(s, e).pool)
  {
  }

  lemma RemovedEntry(s: System, e: Event, ext: ExternalSid)
    requires Apart(s.pool) && Enabled(s, e) && (e.CloseReplied? || e.Purged?)
    ensures Follows(s, e, ext, Step(s, e).pool)
  {
  }

  lemma LoadEntry(s: System, e: Event, ext: ExternalSid)
    requires Apart(s.pool) && Enabled(s, e) && e.StartLoad?
    ensures Follows(s, e, ext, Step(s, e).pool)
  {
    var recorded := RecordSender(s.pool, e.ext, e.frontend);
    RecordedSent(s.pool, e.ext, e.frontend);
    LoadTables(s, e, recorded);
    LoadedEntry(s, e, ext, recorded, Step(s, e).pool);
  }

  lemma LoadTables(s: System, e: Event, recorded: Pool)
    requires Apart(s.pool) && Enabled(s, e) && e.StartLoad? && recorded == RecordSender(s.pool, e.ext, e.frontend)
    ensures var q := Step(s, e).pool; q.sessions == recorded.sessions && q.evicted == recorded.evicted - {e.ext}
  {
    if Resolves(recorded, e.ext) {
      assert e.ext !in recorded.evicted;
      assert recorded.evicted - {e.ext} == recorded.evicted;
    } else {
      ReloadEntries(recorded, e.ext, e.frontend, e.spawned, false);
    }
  }

  lemma PromptEntry(s: System, e: Event, ext: ExternalSid)
    requires Apart(s.pool) && Enabled(s, e) && e.StartPrompt? && e.authorized && e.ext !in s.pool.inFlight
    ensures Follows(s, e, ext, Step(s, e).pool)
  {
    var begun := BeginPrompt(RecordSender(s.pool, e.ext, e.frontend), e.ext, e.frontend);
    BegunSent(s.pool, e.ext, e.frontend);
    PromptBegunUsed(s, begun, e.rid, e.ext, e.frontend, e.spawned, e.now);
    PromptedEntry(s, e, ext, begun, Step(s, e).pool);
  }

  /**
   * Main result: an active session stays active exactly until it is closed, idle for the timeout of an
   * eviction or its slot dies; the latter two park it with its backend id, directory and sender. An
   * evicted one stays so exactly until a reload takes it or a purge leaves it out. Meanwhile only the
   * frontends that name it become its sender, and only a forwarded prompt counts as use.
   */
  lemma EntriesChangeExactly(s: System, e: Event, ext: ExternalSid)
    requires Consistent(s) && Enabled(s, e)
    ensures ext in s.pool.sessions ==> ActiveAfter(s, e, ext, Step(s, e).pool)
    ensures ext in s.pool.evicted ==> EvictedAfter(s, e, ext, Step(s, e).pool)
  {
    if Untouching(e) {
      UntouchedTables(s, e);
      UntouchedEntry(s, e, ext, Step(s, e).pool);
    } else if OnlyRecords(s, e) {
      RecordedTables(s, e);
      RecordedEntry(s, e, ext, Step(s, e).pool);
    } else if e.StartPrompt? {
      PromptEntry(s, e, ext);
    } else if e.StartLoad? {
      LoadEntry(s, e, ext);
    } else if e.IdleEvicted? || e.BackendDied? {
      ParkedEntryFollows(s, e, ext);
    } else if e.CloseReplied? || e.Purged? {
      RemovedEntry(s, e, ext);
    } else {
      RegisteredIsNew(s, e);
      RegisteredTables(s, e);
      UntouchedEntry(s, e, ext, Step(s, e).pool);
    }
  }
}
