/**
 * Cached tool runtimes and stored modes. Done one after the other, the session manager's operations
 * keep them in agreement. With turns, closes and mode changes interleaved they agree exactly until a
 * build inserts its runtime for a session that was closed, or given another mode, while it ran.
 */
module RuntimeCoherence {
  import opened Wrappers
  import opened Conversation
  import opened HarnessModel
  import opened PromptTurns

  // ----- One operation after the other -----

  datatype Operation =
    | New(id: SessionId, cwd: string)
    | Load(id: SessionId, newCwd: Option<string>)
    | Close(id: SessionId)
    | Fork(source: SessionId, id: SessionId, cwd: string)
    | Mode(id: SessionId, modeId: string, built: bool)
    | Model(id: SessionId, modelId: string)
    | Begin(id: SessionId, text: string, built: bool)
    | Finish(id: SessionId)
    | Commit(id: SessionId, baseLen: nat, history: seq<Message>)

  function Apply(h: Harness, op: Operation): Harness {
    match op
    case New(id, cwd) => NewSession(h, id, cwd)
    case Load(id, cwd) => LoadSession(h, id, cwd).0
    case Close(id) => CloseSession(h, id).0
    case Fork(source, id, cwd) => ForkSession(h, source, id, cwd).0
    case Mode(id, modeId, built) => SetMode(h, id, modeId, built).0
    case Model(id, modelId) => SetModel(h, id, modelId).0
    case Begin(id, text, built) => BeginPrompt(h, id, text, built).0
    case Finish(id) => FinishPrompt(h, id)
    case Commit(id, baseLen, history) => CommitPrompt(h, id, baseLen, history).0
  }

  /** Created sessions get ids that no stored session has. */
  ghost predicate FreshIds(h: Harness, ops: seq<Operation>)
    decreases |ops|
  {
    ops == [] ||
    ((ops[0].New? || ops[0].Fork? ==> ops[0].id !in h.store) && FreshIds(Apply(h, ops[0]), ops[1..]))
  }

  ghost function ApplyAll(h: Harness, ops: seq<Operation>): Harness
    decreases |ops|
  {
    if ops == [] then h else ApplyAll(Apply(h, ops[0]), ops[1..])
  }

  lemma ApplyKeepsCoherent(h: Harness, op: Operation)
    requires Coherent(h) && (op.New? || op.Fork? ==> op.id !in h.store)
    ensures Coherent(Apply(h, op))
  {
  }

  /** Main result: sequential runs keep runtimes and stored modes in agreement. */
  lemma {:induction false} SequentialRunsStayCoherent(h: Harness, ops: seq<Operation>)
    requires Coherent(h) && FreshIds(h, ops)
    ensures Coherent(ApplyAll(h, ops))
    decreases |ops|
  {
    if ops != [] {
      ApplyKeepsCoherent(h, ops[0]);
      SequentialRunsStayCoherent(Apply(h, ops[0]), ops[1..]);
    }
  }

  /** The event lets the turn run: it begins with its runtime cached, or its build succeeded. */
  ghost predicate LetsRun(d: Desk, e: Event, tid: nat)
    requires Enabled(d, e)
  {
    && tid in Step(d, e).turns && Step(d, e).turns[tid].phase.Running?
    && (tid in d.turns ==> d.turns[tid].phase.Building?)
  }

  /** A turn that begins to run finds a runtime with the sources of the mode its session had when it began. */
  lemma RunsWithItsSources(d: Desk, e: Event, tid: nat)
    requires d.turns.Keys <= d.used && Enabled(d, e) && LetsRun(d, e, tid)
    ensures var h, t := Step(d, e).harness, Step(d, e).turns[tid];
            && t.id in h.runtimes
            && if tid in d.turns then e == TurnBuilt(tid, true) && h.runtimes[t.id] == d.turns[tid].phase.wanted
               else
                 && t.id in d.harness.store
                 && var modeId := d.harness.store[t.id].modeId;
                    h.runtimes[t.id]
                    == if modeId in h.config.modeSources then h.config.modeSources[modeId] else h.config.sources
  {
  }

  /** And one that begins without it asks for exactly these. */
  lemma BuildsItsSources(d: Desk, tid: nat, id: SessionId, text: string)
    requires Enabled(d, TurnBegun(tid, id, text)) && tid in Step(d, TurnBegun(tid, id, text)).turns && tid !in d.turns
    ensures var h, t := d.harness, Step(d, TurnBegun(tid, id, text)).turns[tid];
            && id in h.store
            && var modeId := h.store[id].modeId;
               var sources := if modeId in h.config.modeSources then h.config.modeSources[modeId] else h.config.sources;
               t.phase == if id in h.runtimes && h.runtimes[id] == sources then Running else Building(sources)
  {
  }

  // ----- Interleaved -----

  /** A mode change ends its build after its session was closed. */
  ghost predicate SavesOrphan(d: Desk, e: Event)
    requires Enabled(d, e)
  {
    e.ModeSaved? && e.built && d.modeChanges[e.mid].id !in d.harness.store
  }

  /** A turn ends its build when its session is gone, or its stored mode wants other sources. */
  ghost predicate BuildsMisfit(d: Desk, e: Event)
    requires Enabled(d, e)
  {
    e.TurnBuilt? && e.built && !Wanted(d.harness, d.turns[e.tid].id, d.turns[e.tid].phase.wanted)
  }

  ghost predicate Wanted(h: Harness, id: SessionId, sources: seq<Source>) {
    && id in h.store
    && var modeId := h.store[id].modeId;
       sources == if modeId in h.config.modeSources then h.config.modeSources[modeId] else h.config.sources
  }

  ghost predicate Misfits(d: Desk, e: Event)
    requires Enabled(d, e)
  {
    SavesOrphan(d, e) || BuildsMisfit(d, e)
  }

  ghost predicate ModesKnown(d: Desk) {
    && d.harness.store.Keys <= d.ledgers.Keys
    && forall mid | mid in d.modeChanges :: d.modeChanges[mid].data.modeId in MODES
  }

  lemma SavedCoherent(d: Desk, e: Event)
    requires Coherent(d.harness) && ModesKnown(d) && Enabled(d, e) && e.ModeSaved?
    ensures Coherent(Step(d, e).harness) <==> !SavesOrphan(d, e)
  {
    var m := d.modeChanges[e.mid];
    assert e.built ==> m.id in Step(d, e).harness.runtimes;
  }

  lemma BuiltCoherent(h: Harness, id: SessionId, wanted: seq<Source>, built: bool)
    requires Coherent(h)
    ensures Coherent(EndBuild(h, id, wanted, built)) <==> !built || Wanted(h, id, wanted)
  {
    if built {
      assert id in EndBuild(h, id, wanted, built).runtimes;
    }
  }

  lemma OthersCoherent(d: Desk, e: Event)
    requires Coherent(d.harness) && ModesKnown(d) && Enabled(d, e) && !e.ModeSaved? && !e.TurnBuilt?
    ensures Coherent(Step(d, e).harness)
  {
  }

  /**
   * Main result: with turns, closes and mode changes interleaved, every runtime keeps a stored session
   * and its mode's sources, except exactly when a build inserts a runtime that its session, gone or
   * given another mode meanwhile, does not want.
   */
  lemma CoherentUnlessMisfit(d: Desk, e: Event)
    requires Coherent(d.harness) && ModesKnown(d) && Enabled(d, e)
    ensures Coherent(Step(d, e).harness) <==> !Misfits(d, e)
    ensures ModesKnown(Step(d, e))
  {
    if e.ModeSaved? {
      SavedCoherent(d, e);
    } else if e.TurnBuilt? {
      BuiltCoherent(d.harness, d.turns[e.tid].id, d.turns[e.tid].phase.wanted, e.built);
    } else {
      OthersCoherent(d, e);
    }
  }

  ghost predicate NoMisfits(d: Desk, es: seq<Event>)
    requires Run(d, es)
    decreases |es|
  {
    es == [] || (!Misfits(d, es[0]) && NoMisfits(Step(d, es[0]), es[1..]))
  }

  ghost predicate AlwaysCoherent(d: Desk, es: seq<Event>)
    requires Run(d, es)
    decreases |es|
  {
    Coherent(d.harness) && (es == [] || AlwaysCoherent(Step(d, es[0]), es[1..]))
  }

  /** Main result: over a whole run they always agree exactly when no build inserts such a runtime. */
  lemma {:induction false} RunCoherentUnlessMisfit(d: Desk, es: seq<Event>)
    requires Coherent(d.harness) && ModesKnown(d) && Run(d, es)
    ensures AlwaysCoherent(d, es) <==> NoMisfits(d, es)
    decreases |es|
  {
    if es != [] {
      CoherentUnlessMisfit(d, es[0]);
      if !Misfits(d, es[0]) {
        RunCoherentUnlessMisfit(Step(d, es[0]), es[1..]);
      } else {
        assert !AlwaysCoherent(Step(d, es[0]), es[1..]);
      }
    }
  }

  // ----- The exceptions are reachable -----

  /** A close during the build of a mode change. */
  lemma CloseOrphansRuntime(d: Desk, mid: nat, id: SessionId, modeId: string)
    requires id in d.harness.store && id !in d.harness.active && mid !in d.modeChanges && modeId in MODES
    ensures var es := [ModeLoaded(mid, id, modeId), SessionClosed(id), ModeSaved(mid, true)];
            && Run(d, es)
            && id in After(d, es).harness.runtimes && id !in After(d, es).harness.store
  {
    var e1, e2, e3 := ModeLoaded(mid, id, modeId), SessionClosed(id), ModeSaved(mid, true);
    assert mid in Step(d, e1).modeChanges && Step(d, e1).modeChanges[mid].id == id;
    assert id !in Step(Step(d, e1), e2).harness.store;
    RunThree(d, e1, e2, e3);
  }

  /** A close while a prompt builds the runtime of its session. */
  lemma CloseDuringBuild(d: Desk, tid: nat, id: SessionId, text: string)
    requires id in d.harness.store && id !in d.harness.active && tid !in d.used
    requires !Cached(d.harness, id, SourcesForMode(d.harness.config, d.harness.store[id].modeId))
    ensures var es := [TurnBegun(tid, id, text), SessionClosed(id), TurnBuilt(tid, true)];
            && Run(d, es)
            && id in After(d, es).harness.runtimes && id !in After(d, es).harness.store
  {
    var e1, e2, e3 := TurnBegun(tid, id, text), SessionClosed(id), TurnBuilt(tid, true);
    assert id !in Step(Step(d, e1), e2).harness.store;
    RunThree(d, e1, e2, e3);
  }

  /** A mode change that passed its test before the prompt began, and saves while that one builds. */
  lemma ModeChangeDuringBuild(d: Desk, mid: nat, tid: nat, id: SessionId, text: string, modeId: string)
    requires id in d.harness.store && id !in d.harness.active && tid !in d.used && mid !in d.modeChanges
    requires var c, was := d.harness.config, d.harness.store[id].modeId;
             && modeId in MODES && SourcesForMode(c, modeId) != SourcesForMode(c, was)
             && !Cached(d.harness, id, SourcesForMode(c, was))
    ensures var es := [ModeLoaded(mid, id, modeId), TurnBegun(tid, id, text), ModeSaved(mid, true),
                       TurnBuilt(tid, true)];
            && Run(d, es)
            && var h := After(d, es).harness;
               && id in h.store && h.store[id].modeId == modeId
               && id in h.runtimes && h.runtimes[id] != SourcesForMode(h.config, modeId)
  {
    var e1, e2 := ModeLoaded(mid, id, modeId), TurnBegun(tid, id, text);
    var e3, e4 := ModeSaved(mid, true), TurnBuilt(tid, true);
    var d1 := Step(d, e1);
    assert d1.modeChanges[mid] == ModeChange(id, d.harness.store[id].(modeId := modeId));
    var d2 := Step(d1, e2);
    var d3 := Step(d2, e3);
    assert d3.turns == d2.turns;
    RunThree(d1, e2, e3, e4);
    assert [e1, e2, e3, e4][1..] == [e2, e3, e4];
    assert Run(d, [e1, e2, e3, e4]) && After(d, [e1, e2, e3, e4]) == After(d1, [e2, e3, e4]);
  }
}
