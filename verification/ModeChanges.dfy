/**
 * Mode changes as the agent makes them: under a lock of their session they rebuild and save, send two
 * notifications, and when one fails roll the change back. Every await lets anything else happen that
 * the lock does not keep out, the builds of the change and of its rollback included.
 */
module ModeChanges {
  import opened Wrappers
  import opened HarnessModel
  import PT = PromptTurns
  import RC = RuntimeCoherence

  datatype AgentError = Rejected(error: HarnessError) | NotifierClosed

  type Answer = Option<Result<SessionData, AgentError>>

  /** Where a change waits: for its build, for a notification, or for the build of its rollback. */
  datatype Stage =
    | Changing(mid: nat)
    | Notifying(updated: SessionData, modeSent: bool)
    | RollingBack(mid: nat)

  datatype Change = Change(previousMode: string, modeId: string, stage: Stage)

  /** A session with a change is locked; `mid` names the suspended set_mode of a build. */
  datatype Agent = Agent(desk: PT.Desk, changes: map<SessionId, Change>)

  datatype Event =
    | Did(e: PT.Event)
    | ChangeLoaded(id: SessionId, modeId: string, mid: nat)
    | ChangeBuilt(id: SessionId, built: bool)
    | NotificationEnded(id: SessionId, delivered: bool, mid: nat)
    | RollbackBuilt(id: SessionId, built: bool)
    | ChangeDropped(id: SessionId)

  /** The lock keeps out other changes of mode and model, and nothing else. */
  ghost predicate Enabled(a: Agent, e: Event) {
    match e
    case Did(e) =>
      && PT.Enabled(a.desk, e) && !e.ModeLoaded? && !e.ModeSaved? && !e.ModeDropped?
      && (e.ModelSet? ==> e.id !in a.changes)
    case ChangeLoaded(id, _, mid) => id !in a.changes && mid !in a.desk.modeChanges
    case ChangeBuilt(id, _) =>
      id in a.changes && a.changes[id].stage.Changing? && a.changes[id].stage.mid in a.desk.modeChanges
    case NotificationEnded(id, _, mid) =>
      id in a.changes && a.changes[id].stage.Notifying? && mid !in a.desk.modeChanges
    case RollbackBuilt(id, _) =>
      id in a.changes && a.changes[id].stage.RollingBack? && a.changes[id].stage.mid in a.desk.modeChanges
    case ChangeDropped(id) =>
      id in a.changes && (!a.changes[id].stage.Notifying? ==> a.changes[id].stage.mid in a.desk.modeChanges)
  }

  /** What the event does to sessions, runtimes and turns, in the session manager's own steps. */
  ghost function DeskEvent(a: Agent, e: Event): (r: Option<PT.Event>)
    requires Enabled(a, e)
    ensures r.Some? ==> PT.Enabled(a.desk, r.value)
  {
    match e
    case Did(e) => Some(e)
    case ChangeLoaded(id, modeId, mid) => Some(PT.ModeLoaded(mid, id, modeId))
    case ChangeBuilt(id, built) => Some(PT.ModeSaved(a.changes[id].stage.mid, built))
    case NotificationEnded(id, delivered, mid) =>
      if delivered then None else Some(PT.ModeLoaded(mid, id, a.changes[id].previousMode))
    case RollbackBuilt(id, built) => Some(PT.ModeSaved(a.changes[id].stage.mid, built))
    case ChangeDropped(id) =>
      if a.changes[id].stage.Notifying? then None else Some(PT.ModeDropped(a.changes[id].stage.mid))
  }

  ghost function Desk(a: Agent, e: Event): PT.Desk
    requires Enabled(a, e)
  {
    var d := DeskEvent(a, e);
    if d.Some? then PT.Step(a.desk, d.value) else a.desk
  }

  /** What becomes of the change. */
  ghost function Changes(a: Agent, e: Event): map<SessionId, Change>
    requires Enabled(a, e)
  {
    var h := a.desk.harness;
    match e
    case Did(_) => a.changes
    case ChangeLoaded(id, modeId, mid) =>
      if LoadForMode(h, id, modeId).Success?
      then a.changes[id := Change(h.store[id].modeId, modeId, Changing(mid))]
      else a.changes
    case ChangeBuilt(id, built) =>
      var data := a.desk.modeChanges[a.changes[id].stage.mid].data;
      if SaveMode(h, id, data, built).1.Success?
      then a.changes[id := a.changes[id].(stage := Notifying(data, false))]
      else a.changes - {id}
    case NotificationEnded(id, delivered, mid) =>
      var c := a.changes[id];
      if delivered && !c.stage.modeSent then a.changes[id := c.(stage := c.stage.(modeSent := true))]
      else if !delivered && LoadForMode(h, id, c.previousMode).Success?
      then a.changes[id := c.(stage := RollingBack(mid))]
      else a.changes - {id}
    case RollbackBuilt(id, _) => a.changes - {id}
    case ChangeDropped(id) => a.changes - {id}
  }

  ghost function Step(a: Agent, e: Event): Agent
    requires Enabled(a, e)
  {
    Agent(Desk(a, e), Changes(a, e))
  }

  /** What the caller of the mode change is told, if anything yet. */
  ghost function Told(a: Agent, e: Event): Answer
    requires Enabled(a, e)
  {
    var h := a.desk.harness;
    match e
    case Did(_) => None
    case ChangeLoaded(id, modeId, _) =>
      if id !in h.store then Some(Failure(Rejected(UnknownSession)))
      else
        var loaded := LoadForMode(h, id, modeId);
        if loaded.Failure? then Some(Failure(Rejected(loaded.error))) else None
    case ChangeBuilt(id, built) =>
      var saved := SaveMode(h, id, a.desk.modeChanges[a.changes[id].stage.mid].data, built).1;
      if saved.Failure? then Some(Failure(Rejected(saved.error))) else None
    case NotificationEnded(id, delivered, _) =>
      var c := a.changes[id];
      if delivered then if c.stage.modeSent then Some(Success(c.stage.updated)) else None
      else if LoadForMode(h, id, c.previousMode).Success? then None
      else Some(Failure(NotifierClosed))
    case RollbackBuilt(_, _) => Some(Failure(NotifierClosed))
    case ChangeDropped(_) => None
  }

  ghost predicate Run(a: Agent, es: seq<Event>)
    decreases |es|
  {
    es == [] || (Enabled(a, es[0]) && Run(Step(a, es[0]), es[1..]))
  }

  ghost function After(a: Agent, es: seq<Event>): Agent
    requires Run(a, es)
    decreases |es|
  {
    if es == [] then a else After(Step(a, es[0]), es[1..])
  }

  // ----- Every run is a run of turns and mode changes -----

  ghost function DeskRun(a: Agent, es: seq<Event>): seq<PT.Event>
    requires Run(a, es)
    decreases |es|
  {
    if es == [] then []
    else
      var d := DeskEvent(a, es[0]);
      (if d.Some? then [d.value] else []) + DeskRun(Step(a, es[0]), es[1..])
  }

  /** Main result: so everything proved about those runs holds here. */
  lemma {:induction false} RunsAreDeskRuns(a: Agent, es: seq<Event>)
    requires Run(a, es)
    ensures PT.Run(a.desk, DeskRun(a, es)) && PT.After(a.desk, DeskRun(a, es)) == After(a, es).desk
    decreases |es|
  {
    if es != [] {
      var b := Step(a, es[0]);
      RunsAreDeskRuns(b, es[1..]);
      var d, rest := DeskEvent(a, es[0]), DeskRun(b, es[1..]);
      if d.Some? {
        assert ([d.value] + rest)[0] == d.value && ([d.value] + rest)[1..] == rest;
      } else {
        assert [] + rest == rest;
      }
    }
  }

  /** Main result: runtimes and modes agree exactly until a build inserts a runtime its session does not want. */
  lemma CoherentUnlessMisfit(a: Agent, es: seq<Event>)
    requires Coherent(a.desk.harness) && RC.ModesKnown(a.desk) && Run(a, es)
    ensures PT.Run(a.desk, DeskRun(a, es))
    ensures AlwaysCoherent(a, es) <==> RC.NoMisfits(a.desk, DeskRun(a, es))
  {
    RunsAreDeskRuns(a, es);
    RC.RunCoherentUnlessMisfit(a.desk, DeskRun(a, es));
    SameStates(a, es);
  }

  ghost predicate AlwaysCoherent(a: Agent, es: seq<Event>)
    requires Run(a, es)
    decreases |es|
  {
    Coherent(a.desk.harness) && (es == [] || AlwaysCoherent(Step(a, es[0]), es[1..]))
  }

  lemma {:induction false} SameStates(a: Agent, es: seq<Event>)
    requires Run(a, es) && PT.Run(a.desk, DeskRun(a, es))
    ensures AlwaysCoherent(a, es) <==> RC.AlwaysCoherent(a.desk, DeskRun(a, es))
    decreases |es|
  {
    if es != [] {
      var b := Step(a, es[0]);
      var d, rest := DeskEvent(a, es[0]), DeskRun(b, es[1..]);
      RunsAreDeskRuns(b, es[1..]);
      SameStates(b, es[1..]);
      if d.Some? {
        assert ([d.value] + rest)[0] == d.value && ([d.value] + rest)[1..] == rest;
      } else {
        assert [] + rest == rest;
      }
    }
  }

  // ----- What the lock keeps -----

  ghost predicate Stored(h: Harness, id: SessionId, modeId: string) {
    id in h.store ==> h.store[id].modeId == modeId
  }

  /** The suspended set_mode saves this mode, and the model that is stored. */
  ghost predicate Saves(d: PT.Desk, mid: nat, id: SessionId, modeId: string) {
    && mid in d.modeChanges && d.modeChanges[mid].id == id && d.modeChanges[mid].data.modeId == modeId
    && (id in d.harness.store ==> d.modeChanges[mid].data.modelId == d.harness.store[id].modelId)
  }

  /** Until it is saved the previous mode is stored, and from then on the new one. */
  ghost predicate Holds(d: PT.Desk, id: SessionId, c: Change) {
    && id in d.ledgers && c.previousMode in MODES && c.modeId in MODES
    && match c.stage
       case Changing(mid) => Saves(d, mid, id, c.modeId) && Stored(d.harness, id, c.previousMode)
       case Notifying(updated, _) => updated.modeId == c.modeId && Stored(d.harness, id, c.modeId)
       case RollingBack(mid) => Saves(d, mid, id, c.previousMode) && Stored(d.harness, id, c.modeId)
  }

  ghost predicate Stores(d: PT.Desk) {
    && d.harness.store.Keys <= d.ledgers.Keys
    && (forall id | id in d.harness.store :: d.harness.store[id].modeId in MODES)
  }

  ghost predicate Locked(a: Agent) {
    Stores(a.desk) && forall id | id in a.changes :: Holds(a.desk, id, a.changes[id])
  }

  /** Mode and model of a session, and what suspended mode changes save, are as before. */
  ghost predicate SameModes(d: PT.Desk, c: PT.Desk, id: SessionId) {
    && d.ledgers.Keys <= c.ledgers.Keys
    && (id in d.ledgers && id in c.harness.store ==>
          && id in d.harness.store && c.harness.store[id].modeId == d.harness.store[id].modeId
          && c.harness.store[id].modelId == d.harness.store[id].modelId)
    && (forall mid | mid in d.modeChanges && d.modeChanges[mid].id == id ::
          mid in c.modeChanges && c.modeChanges[mid] == d.modeChanges[mid])
  }

  lemma SameModesHold(d: PT.Desk, c: PT.Desk, id: SessionId, change: Change)
    requires Holds(d, id, change) && SameModes(d, c, id)
    ensures Holds(c, id, change)
  {
  }

  lemma DidSameModes(d: PT.Desk, e: PT.Event)
    requires Stores(d) && PT.Enabled(d, e) && !e.ModeLoaded? && !e.ModeSaved? && !e.ModeDropped?
    ensures Stores(PT.Step(d, e))
    ensures forall id | !(e.ModelSet? && e.id == id) :: SameModes(d, PT.Step(d, e), id)
  {
    if e.TurnBegun? || e.TurnBuilt? || e.TurnRan? || e.TurnCommitted? || e.TurnDropped? {
      TurnSameModes(d, e);
    } else {
      SessionSameModes(d, e);
    }
  }

  lemma TurnSameModes(d: PT.Desk, e: PT.Event)
    requires Stores(d) && PT.Enabled(d, e)
    requires e.TurnBegun? || e.TurnBuilt? || e.TurnRan? || e.TurnCommitted? || e.TurnDropped?
    ensures Stores(PT.Step(d, e)) && forall id :: SameModes(d, PT.Step(d, e), id)
  {
  }

  lemma SessionSameModes(d: PT.Desk, e: PT.Event)
    requires Stores(d) && PT.Enabled(d, e)
    requires e.SessionCreated? || e.SessionForked? || e.SessionLoaded? || e.SessionClosed? || e.ModelSet?
    ensures Stores(PT.Step(d, e))
    ensures forall id | !(e.ModelSet? && e.id == id) :: SameModes(d, PT.Step(d, e), id)
  {
  }

  lemma OthersHold(a: Agent, c: PT.Desk, changes: map<SessionId, Change>, id: SessionId)
    requires Locked(a) && Stores(c) && changes.Keys <= a.changes.Keys + {id}
    requires forall x | x in changes && x != id :: changes[x] == a.changes[x] && SameModes(a.desk, c, x)
    requires id in changes ==> Holds(c, id, changes[id])
    ensures Locked(Agent(c, changes))
  {
    forall x | x in changes ensures Holds(c, x, changes[x]) {
      if x != id {
        SameModesHold(a.desk, c, x, changes[x]);
      }
    }
  }

  lemma DidLocked(a: Agent, e: PT.Event)
    requires Locked(a) && Enabled(a, Did(e))
    ensures Locked(Step(a, Did(e)))
  {
    DidSameModes(a.desk, e);
    var c := PT.Step(a.desk, e);
    forall id | id in a.changes ensures Holds(c, id, a.changes[id]) {
      SameModesHold(a.desk, c, id, a.changes[id]);
    }
  }

  lemma LoadedLocked(a: Agent, id: SessionId, modeId: string, mid: nat)
    requires Locked(a) && Enabled(a, ChangeLoaded(id, modeId, mid))
    ensures Locked(Step(a, ChangeLoaded(id, modeId, mid)))
  {
    var e := ChangeLoaded(id, modeId, mid);
    OthersHold(a, Desk(a, e), Changes(a, e), id);
  }

  lemma SavedLocked(a: Agent, id: SessionId, e: Event)
    requires Locked(a) && Enabled(a, e) && (e.ChangeBuilt? || e.RollbackBuilt?) && e.id == id
    ensures Locked(Step(a, e))
  {
    assert Holds(a.desk, id, a.changes[id]);
    OthersHold(a, Desk(a, e), Changes(a, e), id);
  }

  lemma NotifiedLocked(a: Agent, id: SessionId, delivered: bool, mid: nat)
    requires Locked(a) && Enabled(a, NotificationEnded(id, delivered, mid))
    ensures Locked(Step(a, NotificationEnded(id, delivered, mid)))
  {
    var e := NotificationEnded(id, delivered, mid);
    assert Holds(a.desk, id, a.changes[id]);
    OthersHold(a, Desk(a, e), Changes(a, e), id);
  }

  lemma DroppedLocked(a: Agent, id: SessionId)
    requires Locked(a) && Enabled(a, ChangeDropped(id))
    ensures Locked(Step(a, ChangeDropped(id)))
  {
    var e := ChangeDropped(id);
    assert Holds(a.desk, id, a.changes[id]);
    OthersHold(a, Desk(a, e), Changes(a, e), id);
  }

  lemma StepLocked(a: Agent, e: Event)
    requires Locked(a) && Enabled(a, e)
    ensures Locked(Step(a, e))
  {
    match e {
      case Did(e) => DidLocked(a, e);
      case ChangeLoaded(id, modeId, mid) => LoadedLocked(a, id, modeId, mid);
      case ChangeBuilt(id, _) => SavedLocked(a, id, e);
      case NotificationEnded(id, delivered, mid) => NotifiedLocked(a, id, delivered, mid);
      case RollbackBuilt(id, _) => SavedLocked(a, id, e);
      case ChangeDropped(id) => DroppedLocked(a, id);
    }
  }

  /**
   * Main result: whatever happens while a change waits, a session that is stored has its previous mode
   * until the change is saved and the new one after, and no change overwrites a model.
   */
  lemma {:induction false} RunLocked(a: Agent, es: seq<Event>)
    requires Locked(a) && Run(a, es)
    ensures Locked(After(a, es))
    decreases |es|
  {
    if es != [] {
      StepLocked(a, es[0]);
      RunLocked(Step(a, es[0]), es[1..]);
    }
  }

  /** So under the lock a model is changed by set_model alone. */
  lemma ModelsKept(a: Agent, e: Event, id: SessionId)
    requires Locked(a) && Enabled(a, e) && !(e.Did? && e.e.ModelSet? && e.e.id == id)
    requires id in a.desk.harness.store && id in Step(a, e).desk.harness.store
    ensures Step(a, e).desk.harness.store[id].modelId == a.desk.harness.store[id].modelId
  {
    if e.Did? {
      DidSameModes(a.desk, e.e);
      assert SameModes(a.desk, Step(a, e).desk, id);
    } else if e.ChangeBuilt? || e.RollbackBuilt? {
      assert Holds(a.desk, e.id, a.changes[e.id]);
    }
  }

  // ----- Rollbacks -----

  /** The change is not over throughout the run. */
  ghost predicate Pending(a: Agent, es: seq<Event>, id: SessionId)
    requires Run(a, es)
    decreases |es|
  {
    id in a.changes && (es == [] || Pending(Step(a, es[0]), es[1..], id))
  }

  lemma {:induction false} PendingKept(a: Agent, es: seq<Event>, id: SessionId)
    requires Run(a, es) && Pending(a, es, id)
    ensures var b := After(a, es);
            && id in b.changes && b.changes[id].previousMode == a.changes[id].previousMode
            && b.changes[id].modeId == a.changes[id].modeId && b.desk.harness.config == a.desk.harness.config
    decreases |es|
  {
    if es != [] {
      assert id in Step(a, es[0]).changes;
      ConfigKept(a, es[0]);
      PendingKept(Step(a, es[0]), es[1..], id);
    }
  }

  lemma ConfigKept(a: Agent, e: Event)
    requires Enabled(a, e)
    ensures Step(a, e).desk.harness.config == a.desk.harness.config
  {
    var d := DeskEvent(a, e);
    if d.Some? {
      DeskConfigKept(a.desk, d.value);
    }
  }

  lemma DeskConfigKept(d: PT.Desk, e: PT.Event)
    requires PT.Enabled(d, e)
    ensures PT.Step(d, e).harness.config == d.harness.config
  {
  }

  /** The rollback may start: the session is still stored, and no turn has begun on it. */
  predicate CanRollBack(h: Harness, id: SessionId) {
    id in h.store && id !in h.active
  }

  /** A failed notification ends the change, unless the rollback may start. */
  lemma RollbackStarts(a: Agent, id: SessionId, mid: nat)
    requires Locked(a) && Enabled(a, NotificationEnded(id, false, mid))
    ensures var h, c, b := a.desk.harness, a.changes[id], Step(a, NotificationEnded(id, false, mid));
            && b.desk.harness == h
            && if CanRollBack(h, id) then
                 && id in b.changes && b.changes[id] == c.(stage := RollingBack(mid))
                 && b.desk == a.desk.(modeChanges := a.desk.modeChanges[
                                        mid := PT.ModeChange(id, h.store[id].(modeId := c.previousMode))])
                 && Told(a, NotificationEnded(id, false, mid)) == None
               else
                 && id !in b.changes && b.desk == a.desk
                 && Told(a, NotificationEnded(id, false, mid)) == Some(Failure(NotifierClosed))
  {
    assert Holds(a.desk, id, a.changes[id]);
  }

  lemma RollingStep(a: Agent, e: Event, id: SessionId)
    requires Locked(a) && Enabled(a, e)
    requires id in a.changes && a.changes[id].stage.RollingBack? && id in Step(a, e).changes
    ensures var b, mid := Step(a, e), a.changes[id].stage.mid;
            && b.changes[id] == a.changes[id] && mid in a.desk.modeChanges && mid in b.desk.modeChanges
            && b.desk.modeChanges[mid] == a.desk.modeChanges[mid]
  {
    assert Holds(a.desk, id, a.changes[id]);
    assert forall x | x in a.changes :: Holds(a.desk, x, a.changes[x]);
  }

  /** During the build of a rollback what it will save stays what it loaded. */
  lemma {:induction false} RollingKept(a: Agent, es: seq<Event>, id: SessionId)
    requires Locked(a) && Run(a, es) && Pending(a, es, id) && a.changes[id].stage.RollingBack?
    ensures var b, mid := After(a, es), a.changes[id].stage.mid;
            && Locked(b) && id in b.changes && b.changes[id] == a.changes[id] && mid in a.desk.modeChanges
            && mid in b.desk.modeChanges && b.desk.modeChanges[mid] == a.desk.modeChanges[mid]
    decreases |es|
  {
    assert Holds(a.desk, id, a.changes[id]);
    if es != [] {
      StepLocked(a, es[0]);
      assert id in Step(a, es[0]).changes;
      RollingStep(a, es[0], id);
      RollingKept(Step(a, es[0]), es[1..], id);
    }
  }

  /**
   * Main result: the end of a rollback, whatever was done while it was built. The data it saves is what
   * it loaded, so it is exact about mode and sources, and turns committed during the build are lost.
   */
  lemma RollbackEnds(a: Agent, id: SessionId, es: seq<Event>, built: bool)
    requires Locked(a) && Run(a, es) && Pending(a, es, id) && a.changes[id].stage.RollingBack?
    ensures var c, b := a.changes[id], After(a, es);
            && c.stage.mid in a.desk.modeChanges && Enabled(b, RollbackBuilt(id, built))
            && var data, d := a.desk.modeChanges[c.stage.mid].data, Step(b, RollbackBuilt(id, built));
               var h, g := b.desk.harness, d.desk.harness;
               && Told(b, RollbackBuilt(id, built)) == Some(Failure(NotifierClosed)) && id !in d.changes
               && g.store == (if built && id in h.store then h.store[id := data] else h.store)
               && g.runtimes == (if built then h.runtimes[id := SourcesForMode(h.config, c.previousMode)]
                                 else h.runtimes)
               && (Restored(g, id, c.previousMode) <==> id in h.store && (built || c.modeId == c.previousMode))
  {
    RollingKept(a, es, id);
    var b := After(a, es);
    assert Holds(b.desk, id, b.changes[id]);
  }

  ghost predicate Restored(h: Harness, id: SessionId, modeId: string) {
    id in h.store && h.store[id].modeId == modeId
  }

  /** The change up to a failed notification, then the rollback if it may start, with its build. */
  ghost function RolledBack(a: Agent, id: SessionId, es: seq<Event>, built: bool): Agent
    requires Locked(a) && Run(a, es)
    requires id in a.changes ==> a.changes[id].stage.RollingBack? && Pending(a, es, id)
  {
    if id in a.changes then
      RollbackEnds(a, id, es, built);
      Step(After(a, es), RollbackBuilt(id, built))
    else After(a, es)
  }

  /**
   * Main result: a notification of a mode change fails, with anything done before, in between and
   * during the rollback's build. The old mode is stored again exactly when the session stays stored
   * and either the mode was the same, or no turn had begun when the notification failed and the build
   * succeeds.
   */
  lemma FailedNotificationRollsBack(before: Agent, id: SessionId, modeId: string, m1: nat, es: seq<Event>, m2: nat,
                                    later: seq<Event>, built: bool)
    requires Locked(before) && Enabled(before, ChangeLoaded(id, modeId, m1))
    requires LoadForMode(before.desk.harness, id, modeId).Success?
    requires var start := Step(before, ChangeLoaded(id, modeId, m1));
             && Run(start, es) && Pending(start, es, id)
             && Enabled(After(start, es), NotificationEnded(id, false, m2))
    requires var a := Step(After(Step(before, ChangeLoaded(id, modeId, m1)), es), NotificationEnded(id, false, m2));
             if id in a.changes then Run(a, later) && Pending(a, later, id) else later == []
    ensures var was := before.desk.harness.store[id].modeId;
            var b := After(Step(before, ChangeLoaded(id, modeId, m1)), es);
            var a := Step(b, NotificationEnded(id, false, m2));
            && Locked(a) && (id in a.changes <==> CanRollBack(b.desk.harness, id))
            && (id in a.changes ==> a.changes[id].stage.RollingBack?)
            && var c := RolledBack(a, id, later, built);
               && id !in c.changes
               && (Restored(c.desk.harness, id, was)
                   <==> id in After(a, later).desk.harness.store
                        && (modeId == was || (CanRollBack(b.desk.harness, id) && built)))
  {
    var start := Step(before, ChangeLoaded(id, modeId, m1));
    StepLocked(before, ChangeLoaded(id, modeId, m1));
    PendingKept(start, es, id);
    RunLocked(start, es);
    var b := After(start, es);
    var a := Step(b, NotificationEnded(id, false, m2));
    StepLocked(b, NotificationEnded(id, false, m2));
    RollbackStarts(b, id, m2);
    if id in a.changes {
      RollbackEnds(a, id, later, built);
    } else {
      assert Holds(b.desk, id, b.changes[id]);
    }
  }

  // ----- Refusals and success -----

  /** A change is refused at once, with nothing changed, exactly for these reasons, in this order. */
  lemma RefusedAtOnce(a: Agent, id: SessionId, modeId: string, mid: nat)
    requires Enabled(a, ChangeLoaded(id, modeId, mid))
    ensures var h, e := a.desk.harness, ChangeLoaded(id, modeId, mid);
            && Told(a, e) == (if id !in h.store then Some(Failure(Rejected(UnknownSession)))
                              else if id in h.active then Some(Failure(Rejected(PromptInFlight)))
                              else if modeId !in {"ask", "architect", "code"}
                              then Some(Failure(Rejected(UnknownMode)))
                              else None)
            && (Told(a, e).Some? <==> id !in Step(a, e).changes)
            && (Told(a, e).Some? ==> Step(a, e) == a)
  {
  }


  /** How many notifications of the session's change were delivered. */
  function Delivered(es: seq<Event>, id: SessionId): nat {
    if es == [] then 0
    else (if DeliversTo(es[0], id) then 1 else 0) + Delivered(es[1..], id)
  }

  predicate DeliversTo(e: Event, id: SessionId) {
    e.NotificationEnded? && e.id == id && e.delivered
  }

  /** Where the change to `data` stands after `n` notifications were delivered. */
  ghost predicate StandsAt(a: Agent, id: SessionId, data: SessionData, n: nat)
    requires id in a.changes
  {
    match a.changes[id].stage
    case Changing(mid) => n == 0 && mid in a.desk.modeChanges && a.desk.modeChanges[mid].data == data
    case Notifying(updated, modeSent) => updated == data && n == if modeSent then 1 else 0
    case RollingBack(_) => true
  }

  lemma OwnEventStands(a: Agent, e: Event, id: SessionId, data: SessionData, n: nat)
    requires Locked(a) && Enabled(a, e) && !e.Did? && e.id == id && id in Step(a, e).changes
    requires id in a.changes && StandsAt(a, id, data, n)
    ensures StandsAt(Step(a, e), id, data, n + if DeliversTo(e, id) then 1 else 0)
  {
  }

  /** What a change waits for belongs to its session alone. */
  lemma OtherChangeStands(a: Agent, e: Event, id: SessionId, data: SessionData, n: nat)
    requires Locked(a) && Enabled(a, e) && !e.Did? && e.id != id
    requires id in a.changes && StandsAt(a, id, data, n)
    ensures id in Step(a, e).changes && StandsAt(Step(a, e), id, data, n)
  {
    assert Holds(a.desk, id, a.changes[id]);
    if e.id in a.changes {
      assert Holds(a.desk, e.id, a.changes[e.id]);
    }
  }

  lemma DidStands(a: Agent, e: PT.Event, id: SessionId, data: SessionData, n: nat)
    requires Locked(a) && Enabled(a, Did(e)) && id in a.changes && StandsAt(a, id, data, n)
    ensures id in Step(a, Did(e)).changes && StandsAt(Step(a, Did(e)), id, data, n)
  {
    assert Holds(a.desk, id, a.changes[id]);
    DidSameModes(a.desk, e);
  }

  lemma {:induction false} RunStands(a: Agent, es: seq<Event>, id: SessionId, data: SessionData, n: nat)
    requires Locked(a) && Run(a, es) && Pending(a, es, id) && StandsAt(a, id, data, n)
    ensures id in After(a, es).changes && StandsAt(After(a, es), id, data, n + Delivered(es, id))
    decreases |es|
  {
    if es != [] {
      var e := es[0];
      StepLocked(a, e);
      assert id in Step(a, e).changes;
      if !e.Did? && e.id == id {
        OwnEventStands(a, e, id, data, n);
      } else if e.Did? {
        DidStands(a, e.e, id, data, n);
      } else {
        OtherChangeStands(a, e, id, data, n);
      }
      RunStands(Step(a, e), es[1..], id, data, n + if DeliversTo(e, id) then 1 else 0);
    }
  }

  /**
   * Main result: whatever is done meanwhile, the caller of a mode change is told of success exactly when
   * its second notification is delivered, and then of the session as it was loaded with the new mode.
   */
  lemma ToldAfterBothNotifications(before: Agent, id: SessionId, modeId: string, mid: nat, es: seq<Event>, e: Event)
    requires Locked(before) && Enabled(before, ChangeLoaded(id, modeId, mid))
    requires var h := before.desk.harness; id in h.store && id !in h.active && modeId in MODES
    requires Run(Step(before, ChangeLoaded(id, modeId, mid)), es)
    requires Pending(Step(before, ChangeLoaded(id, modeId, mid)), es, id)
    requires !e.Did? && e.id == id && Enabled(After(Step(before, ChangeLoaded(id, modeId, mid)), es), e)
    ensures var b := After(Step(before, ChangeLoaded(id, modeId, mid)), es);
            && (Told(b, e).Some? && Told(b, e).value.Success? <==> DeliversTo(e, id) && Delivered(es, id) == 1)
            && (DeliversTo(e, id) ==>
                  && Step(b, e).desk == b.desk
                  && if Delivered(es, id) == 0 then id in Step(b, e).changes && Told(b, e) == None
                     else
                       && id !in Step(b, e).changes
                       && Told(b, e) == Some(Success(before.desk.harness.store[id].(modeId := modeId))))
  {
    var start := Step(before, ChangeLoaded(id, modeId, mid));
    var data := before.desk.harness.store[id].(modeId := modeId);
    StepLocked(before, ChangeLoaded(id, modeId, mid));
    RunStands(start, es, id, data, 0);
  }

  // ----- The failing sides are reachable -----

  lemma RunTwo(a: Agent, e1: Event, e2: Event)
    requires Enabled(a, e1) && Enabled(Step(a, e1), e2)
    ensures Run(a, [e1, e2]) && After(a, [e1, e2]) == Step(Step(a, e1), e2)
  {
    var b := Step(a, e1);
    assert [e1, e2][1..] == [e2] && [e2][1..] == [];
    assert Run(Step(b, e2), []) && After(Step(b, e2), []) == Step(b, e2);
    assert Run(b, [e2]) && After(b, [e2]) == Step(b, e2);
  }

  /**
   * The lock does not keep prompts out: one that begins while the notification is pending leaves the
   * new mode stored although the caller is told of an error.
   */
  lemma PromptDefeatsRollback(a: Agent, id: SessionId, tid: nat, text: string, mid: nat)
    requires Locked(a) && Enabled(a, NotificationEnded(id, false, mid))
    requires id in a.desk.harness.store && id !in a.desk.harness.active && tid !in a.desk.used
    ensures var begin, failed := Did(PT.TurnBegun(tid, id, text)), NotificationEnded(id, false, mid);
            && Run(a, [begin, failed]) && Told(Step(a, begin), failed) == Some(Failure(NotifierClosed))
            && var c := After(a, [begin, failed]);
               id !in c.changes && Restored(c.desk.harness, id, a.changes[id].modeId)
  {
    var begin, failed := Did(PT.TurnBegun(tid, id, text)), NotificationEnded(id, false, mid);
    var b := Step(a, begin);
    StepLocked(a, begin);
    assert id in b.desk.harness.active && b.desk.modeChanges == a.desk.modeChanges;
    RollbackStarts(b, id, mid);
    assert Holds(b.desk, id, b.changes[id]);
    RunTwo(a, begin, failed);
  }

  /** A turn that commits while the rollback builds is lost with the new mode. */
  lemma RollbackLosesTurn(a: Agent, id: SessionId, tid: nat, mid: nat)
    requires Locked(a) && PT.Faithful(a.desk) && PT.TurnsInOrder(a.desk)
    requires Enabled(a, NotificationEnded(id, false, mid))
    requires CanRollBack(a.desk.harness, id) && tid in a.desk.turns
    requires a.desk.turns[tid].phase.Finished? && a.desk.turns[tid].id == id
    ensures var failed, commit, end := NotificationEnded(id, false, mid), Did(PT.TurnCommitted(tid)),
                                       RollbackBuilt(id, true);
            && Run(a, [failed, commit, end])
            && var c := After(a, [failed, commit, end]);
               && Restored(c.desk.harness, id, a.changes[id].previousMode)
               && c.desk.harness.store[id].history == a.desk.harness.store[id].history && !PT.Faithful(c.desk)
  {
    var failed, commit, end := NotificationEnded(id, false, mid), Did(PT.TurnCommitted(tid)), RollbackBuilt(id, true);
    var was := a.changes[id].previousMode;
    var b := Step(a, failed);
    RollbackStarts(a, id, mid);
    assert Holds(a.desk, id, a.changes[id]);
    PT.LostInThreeSteps(a.desk, tid, mid, was);
    assert Enabled(b, commit);
    var c := Step(b, commit);
    assert c.changes == b.changes && mid in c.desk.modeChanges;
    StepLocked(a, failed);
    RunTwo(b, commit, end);
    RollbackRuns(a, failed, commit, end);
  }

  lemma RollbackRuns(a: Agent, e1: Event, e2: Event, e3: Event)
    requires Enabled(a, e1) && Run(Step(a, e1), [e2, e3])
    ensures Run(a, [e1, e2, e3]) && After(a, [e1, e2, e3]) == After(Step(a, e1), [e2, e3])
  {
    assert [e1, e2, e3][1..] == [e2, e3];
  }
}
