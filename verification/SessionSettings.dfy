/**
 * Working directory, mode and model of a session, from its creation or fork on. A mode change saves all
 * it loaded before its build, so a directory or model stored in between is taken back; nothing else
 * takes one back.
 */
module SessionSettings {
  import opened Wrappers
  import opened HarnessModel
  import opened PromptTurns

  datatype Settings = Settings(cwd: string, modeId: string, modelId: string)

  function Of(data: SessionData): Settings {
    Settings(data.cwd, data.modeId, data.modelId)
  }

  /** What the session's settings are asked to be after the event. */
  function Asked(d: Desk, e: Event, id: SessionId, s: Settings): Settings {
    if e.SessionLoaded? && e.id == id && e.newCwd.Some? then s.(cwd := e.newCwd.value)
    else if e.ModelSet? && e.id == id && id !in d.harness.active && id in d.harness.store
            && (e.modelId == d.harness.config.modelId || e.modelId in d.harness.config.availableModels)
    then s.(modelId := e.modelId)
    else if e.ModeSaved? && e.built && e.mid in d.modeChanges && d.modeChanges[e.mid].id == id
    then s.(modeId := d.modeChanges[e.mid].data.modeId)
    else s
  }

  /** A mode change saves a directory or model that is no longer the stored one. */
  ghost predicate TakesBack(d: Desk, e: Event, id: SessionId)
    requires Enabled(d, e)
  {
    && e.ModeSaved? && e.built && d.modeChanges[e.mid].id == id && id in d.harness.store
    && var was, saved := d.harness.store[id], d.modeChanges[e.mid].data;
       saved.cwd != was.cwd || saved.modelId != was.modelId
  }

  /** Main result: a stored session has the settings it was asked to have, except exactly after such a save. */
  lemma AskedUnlessTakenBack(d: Desk, e: Event, id: SessionId)
    requires Enabled(d, e) && id in d.ledgers
    ensures id in Step(d, e).harness.store ==>
              && id in d.harness.store
              && (Of(Step(d, e).harness.store[id]) == Asked(d, e, id, Of(d.harness.store[id]))
                  <==> !TakesBack(d, e, id))
    ensures id in Step(d, e).ledgers
    ensures TakesBack(d, e, id) ==> id in Step(d, e).harness.store
  {
  }

  /** A new session has the default settings, and a fork its source's mode, model and history. */
  lemma FirstSettings(d: Desk, e: Event)
    requires Enabled(d, e) && (e.SessionCreated? || (e.SessionForked? && e.source in d.harness.store))
    ensures var h := Step(d, e).harness;
            && h.store.Keys == d.harness.store.Keys + {e.id}
            && (forall id | id in d.harness.store && id != e.id :: h.store[id] == d.harness.store[id])
            && var data := h.store[e.id];
               if e.SessionCreated? then
                 Of(data) == Settings(e.cwd, "code", d.harness.config.modelId) && data.history == []
               else
                 var source := d.harness.store[e.source];
                 Of(data) == Settings(e.cwd, source.modeId, source.modelId) && data.history == source.history
  {
  }

  /** What a mode change will save is the session as it was loaded, with one of the three modes. */
  lemma LoadsForMode(d: Desk, mid: nat, id: SessionId, modeId: string)
    requires Enabled(d, ModeLoaded(mid, id, modeId))
    ensures var loads := id in d.harness.store && id !in d.harness.active && modeId in {"ask", "architect", "code"};
            Step(d, ModeLoaded(mid, id, modeId))
            == if loads then d.(modeChanges := d.modeChanges[
                                  mid := ModeChange(id, d.harness.store[id].(modeId := modeId))])
               else d
  {
  }

  ghost predicate NeverTakenBack(d: Desk, es: seq<Event>, id: SessionId)
    requires Run(d, es)
    decreases |es|
  {
    es == [] || (!TakesBack(d, es[0], id) && NeverTakenBack(Step(d, es[0]), es[1..], id))
  }

  /** In every state of the run the session, if it is stored, has the settings last asked for. */
  ghost predicate AlwaysAsAsked(d: Desk, es: seq<Event>, id: SessionId, s: Settings)
    requires Run(d, es)
    decreases |es|
  {
    && (id in d.harness.store ==> Of(d.harness.store[id]) == s)
    && (es == [] || AlwaysAsAsked(Step(d, es[0]), es[1..], id, Asked(d, es[0], id, s)))
  }

  /** Main result: over a whole run settings stay as asked exactly when no mode change takes one back. */
  lemma {:induction false} RunAsAsked(d: Desk, es: seq<Event>, id: SessionId, s: Settings)
    requires Run(d, es) && id in d.ledgers && (id in d.harness.store ==> Of(d.harness.store[id]) == s)
    ensures AlwaysAsAsked(d, es, id, s) <==> NeverTakenBack(d, es, id)
    decreases |es|
  {
    if es != [] {
      AskedUnlessTakenBack(d, es[0], id);
      if TakesBack(d, es[0], id) {
        assert !AlwaysAsAsked(Step(d, es[0]), es[1..], id, Asked(d, es[0], id, s));
      } else {
        RunAsAsked(Step(d, es[0]), es[1..], id, Asked(d, es[0], id, s));
      }
    }
  }

  /** Main result: so from its creation or fork on, over a whole run. */
  lemma AsAskedFromTheStart(d: Desk, first: Event, es: seq<Event>)
    requires Enabled(d, first) && Run(Step(d, first), es)
    requires first.SessionCreated? || (first.SessionForked? && first.source in d.harness.store)
    ensures var s := if first.SessionCreated? then Settings(first.cwd, "code", d.harness.config.modelId)
                     else Of(d.harness.store[first.source]).(cwd := first.cwd);
            AlwaysAsAsked(Step(d, first), es, first.id, s) <==> NeverTakenBack(Step(d, first), es, first.id)
  {
    FirstSettings(d, first);
    var s := Of(Step(d, first).harness.store[first.id]);
    RunAsAsked(Step(d, first), es, first.id, s);
  }

  /** The exception is reachable: a load_session with a new directory during the build of a mode change. */
  lemma ModeChangeTakesBackCwd(d: Desk, mid: nat, id: SessionId, modeId: string, cwd: string)
    requires id in d.harness.store && id !in d.harness.active && mid !in d.modeChanges && modeId in MODES
    ensures var es := [ModeLoaded(mid, id, modeId), SessionLoaded(id, Some(cwd)), ModeSaved(mid, true)];
            && Run(d, es)
            && var h := After(d, es).harness;
               id in h.store && h.store[id].cwd == d.harness.store[id].cwd
  {
    var e1, e2, e3 := ModeLoaded(mid, id, modeId), SessionLoaded(id, Some(cwd)), ModeSaved(mid, true);
    assert mid in Step(d, e1).modeChanges;
    RunThree(d, e1, e2, e3);
  }
}
