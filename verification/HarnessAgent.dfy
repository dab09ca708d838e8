/**
 * The agent as code: its handlers of prompts, mode changes and sessions. Each method is one stretch
 * between two awaits that yield, calls the session manager in the source's order, and performs exactly
 * one event of `ModeChanges`; a dropped turn or change is one whose next method is never called.
 */
module HarnessAgent {
  import opened Wrappers
  import opened HarnessModel
  import opened ModeChanges
  import AL = AgentLoop
  import PT = PromptTurns
  import SM = SessionManager

  class HarnessAgent {
    const sessions: SM.SessionManager
    var changes: map<SessionId, Change>
    /** What suspended calls of set_mode have loaded, and the turns of suspended prompts. */
    var loaded: map<nat, PT.ModeChange>
    var turns: map<nat, PT.Turn>
    ghost var ledgers: map<SessionId, PT.Ledger>
    ghost var used: set<nat>

    ghost function View(): Agent
      reads this, sessions, sessions.store, sessions.toolRuntime
    {
      Agent(PT.Desk(sessions.State(), turns, loaded, ledgers, used), changes)
    }

    /** Modes and pending changes agree as the locks have it. */
    ghost predicate Valid()
      reads this, sessions, sessions.store, sessions.toolRuntime
    {
      Locked(View())
    }

    constructor (config: Config)
      ensures Valid() && View() == Agent(PT.Opening(config), map[])
    {
      sessions := new SM.SessionManager(config);
      changes, loaded, turns := map[], map[], map[];
      ledgers, used := map[], {};
    }

    // ----- Sessions -----

    method NewSession(id: SessionId, cwd: string)
      requires Valid() && id !in ledgers
      modifies this`ledgers, sessions.store
      ensures Valid() && View() == Step(old(View()), Did(PT.SessionCreated(id, cwd)))
    {
      StepLocked(View(), Did(PT.SessionCreated(id, cwd)));
      sessions.NewSession(id, cwd);
      ledgers := ledgers[id := PT.Ledger([], [])];
    }

    method ForkSession(source: SessionId, id: SessionId, cwd: string) returns (r: Result<SessionData, HarnessError>)
      requires Valid() && id !in ledgers
      modifies this`ledgers, sessions.store
      ensures Valid() && View() == Step(old(View()), Did(PT.SessionForked(source, id, cwd)))
    {
      StepLocked(View(), Did(PT.SessionForked(source, id, cwd)));
      r := sessions.ForkSession(source, id, cwd);
      if r.Success? {
        ledgers := ledgers[id := PT.Ledger(r.value.history, [])];
      }
    }

    method LoadSession(id: SessionId, cwd: Option<string>) returns (r: Result<SessionData, HarnessError>)
      requires Valid()
      modifies sessions.store
      ensures Valid() && View() == Step(old(View()), Did(PT.SessionLoaded(id, cwd)))
    {
      StepLocked(View(), Did(PT.SessionLoaded(id, cwd)));
      r := sessions.LoadSession(id, cwd);
    }

    method CloseSession(id: SessionId) returns (r: Result<(), HarnessError>)
      requires Valid()
      modifies sessions.store, sessions.toolRuntime
      ensures Valid() && View() == Step(old(View()), Did(PT.SessionClosed(id)))
    {
      StepLocked(View(), Did(PT.SessionClosed(id)));
      r := sessions.CloseSession(id);
    }

    /** The lock on the session must be free. */
    method SetModel(id: SessionId, modelId: string) returns (r: Result<SessionData, HarnessError>)
      requires Valid() && id !in changes
      modifies sessions.store
      ensures Valid() && View() == Step(old(View()), Did(PT.ModelSet(id, modelId)))
    {
      StepLocked(View(), Did(PT.ModelSet(id, modelId)));
      r := sessions.SetModel(id, modelId);
    }

    // ----- prompt -----

    /** Up to the build of the runtime, if it is not cached. */
    method Prompt(tid: nat, id: SessionId, text: string) returns (r: Result<(), HarnessError>)
      requires Valid() && tid !in used
      modifies this`turns, this`used, sessions
      ensures Valid() && View() == Step(old(View()), Did(PT.TurnBegun(tid, id, text)))
      ensures r.Success? <==> id in sessions.store.sessions && id !in old(sessions.activeTurns)
    {
      StepLocked(View(), Did(PT.TurnBegun(tid, id, text)));
      var begun, wanted := sessions.StartPrompt(id, text);
      match begun {
        case Failure(error) => return Failure(error);
        case Success(s) =>
          var phase := if wanted.Some? then PT.Building(wanted.value) else PT.Running;
          turns, used := turns[tid := PT.Turn(id, text, s.baseLen, s.session.history, phase)], used + {tid};
          return Success(());
      }
    }

    method RuntimeBuilt(tid: nat, built: bool)
      requires Valid() && tid in turns && turns[tid].phase.Building?
      modifies this`turns, sessions, sessions.toolRuntime
      ensures Valid() && View() == Step(old(View()), Did(PT.TurnBuilt(tid, built)))
    {
      StepLocked(View(), Did(PT.TurnBuilt(tid, built)));
      var t := turns[tid];
      sessions.EndBuild(t.id, t.phase.wanted, built);
      turns := if built then turns[tid := t.(phase := PT.Running)] else turns - {tid};
    }

    /** The agent loop, which works on the turn's own copy, and the end of the turn. */
    method RunTurn(tid: nat, prompt: string, offered: bool, model: AL.Model, tools: AL.Tools)
      requires Valid() && tid in turns && turns[tid].phase.Running?
      modifies this`turns, sessions
      ensures Valid() && View() == Step(old(View()), Did(PT.TurnRan(tid, prompt, offered, model, tools)))
    {
      StepLocked(View(), Did(PT.TurnRan(tid, prompt, offered, model, tools)));
      var t := turns[tid];
      var result, history, _ := AL.Run(t.history, prompt, offered, model, tools);
      sessions.FinishPrompt(t.id);
      turns := if result.Success? then turns[tid := t.(history := history, phase := PT.Finished)] else turns - {tid};
    }

    /** After its answer was sent, the turn is committed. */
    method CommitTurn(tid: nat) returns (r: Result<(), HarnessError>)
      requires Valid() && tid in turns && turns[tid].phase.Finished?
      modifies this`turns, this`ledgers, sessions.store
      ensures Valid() && View() == Step(old(View()), Did(PT.TurnCommitted(tid)))
    {
      StepLocked(View(), Did(PT.TurnCommitted(tid)));
      var t := turns[tid];
      ghost var after := PT.CommitTurn(View().desk, tid);
      r := sessions.CommitPrompt(t.id, t.baseLen, t.history);
      turns := turns - {tid};
      ledgers := after.ledgers;
      assert View().desk == after;
    }

    // ----- apply_mode_change -----

    /** From taking the lock to the build. */
    method ApplyModeChange(id: SessionId, modeId: string, mid: nat) returns (told: Answer)
      requires Valid() && id !in changes && mid !in loaded
      modifies this`changes, this`loaded, sessions.store
      ensures Valid() && View() == Step(old(View()), ChangeLoaded(id, modeId, mid))
      ensures told == Told(old(View()), ChangeLoaded(id, modeId, mid))
    {
      StepLocked(View(), ChangeLoaded(id, modeId, mid));
      var previous := sessions.LoadSession(id, None);
      if previous.Failure? {
        return Some(Failure(Rejected(previous.error)));
      }
      var data := sessions.LoadForMode(id, modeId);
      if data.Failure? {
        return Some(Failure(Rejected(data.error)));
      }
      loaded := loaded[mid := PT.ModeChange(id, data.value)];
      changes := changes[id := Change(previous.value.modeId, modeId, Changing(mid))];
      told := None;
    }

    /** The end of set_mode, up to the first notification. */
    method ModeBuilt(id: SessionId, built: bool) returns (told: Answer)
      requires Valid() && id in changes && changes[id].stage.Changing?
      modifies this`changes, this`loaded, sessions.store, sessions.toolRuntime
      ensures Valid() && View() == Step(old(View()), ChangeBuilt(id, built))
      ensures told == Told(old(View()), ChangeBuilt(id, built))
    {
      StepLocked(View(), ChangeBuilt(id, built));
      var c := changes[id];
      var data := loaded[c.stage.mid].data;
      var updated := sessions.SaveMode(id, data, built);
      loaded := loaded - {c.stage.mid};
      if updated.Failure? {
        changes := changes - {id};
        return Some(Failure(Rejected(updated.error)));
      }
      changes := changes[id := c.(stage := Notifying(updated.value, false))];
      told := None;
    }

    /** What follows a notification: the next one, the answer, or a rollback up to its build. */
    method NotificationEnded(id: SessionId, delivered: bool, mid: nat) returns (told: Answer)
      requires Valid() && id in changes && changes[id].stage.Notifying? && mid !in loaded
      modifies this`changes, this`loaded
      ensures Valid() && View() == Step(old(View()), Event.NotificationEnded(id, delivered, mid))
      ensures told == Told(old(View()), Event.NotificationEnded(id, delivered, mid))
    {
      StepLocked(View(), Event.NotificationEnded(id, delivered, mid));
      var c := changes[id];
      if delivered {
        if c.stage.modeSent {
          changes := changes - {id};
          return Some(Success(c.stage.updated));
        }
        changes := changes[id := c.(stage := c.stage.(modeSent := true))];
        return None;
      }
      var data := sessions.LoadForMode(id, c.previousMode);
      if data.Failure? {
        changes := changes - {id};
        return Some(Failure(NotifierClosed));
      }
      loaded := loaded[mid := PT.ModeChange(id, data.value)];
      changes := changes[id := c.(stage := RollingBack(mid))];
      told := None;
    }

    /** The end of the rollback's set_mode, whose own outcome is only logged. */
    method RollbackBuilt(id: SessionId, built: bool) returns (told: Answer)
      requires Valid() && id in changes && changes[id].stage.RollingBack?
      modifies this`changes, this`loaded, sessions.store, sessions.toolRuntime
      ensures Valid() && View() == Step(old(View()), Event.RollbackBuilt(id, built))
      ensures told == Told(old(View()), Event.RollbackBuilt(id, built))
    {
      StepLocked(View(), Event.RollbackBuilt(id, built));
      var mid := changes[id].stage.mid;
      var _ := sessions.SaveMode(id, loaded[mid].data, built);
      loaded, changes := loaded - {mid}, changes - {id};
      told := Some(Failure(NotifierClosed));
    }
  }
}
