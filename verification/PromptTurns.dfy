/**
 * Overlapping prompt turns. A turn works on a private copy and splices what it added onto whatever
 * is stored when it commits; `finish` comes before `commit`. begin_prompt and set_mode both await the
 * build of a runtime: the one inserts what it wanted before, the other saves what it loaded before.
 * So turns, mode changes, closes and forks interleave.
 */
module PromptTurns {
  import opened Sequences
  import opened Wrappers
  import opened Conversation
  import opened HarnessModel
  import AL = AgentLoop

  datatype Phase = Building(wanted: seq<Source>) | Running | Finished

  datatype Turn = Turn(id: SessionId, text: string, baseLen: nat, history: seq<Message>, phase: Phase)

  datatype ModeChange = ModeChange(id: SessionId, data: SessionData)

  /** A committed turn: which one, and the messages it added. */
  datatype Committed = Committed(tid: nat, messages: seq<Message>)

  /** What a session's history ought to be: where it started, and the turns committed since. */
  datatype Ledger = Ledger(initial: seq<Message>, commits: seq<Committed>)

  datatype Desk = Desk(
    harness: Harness,
    turns: map<nat, Turn>,
    modeChanges: map<nat, ModeChange>,
    ledgers: map<SessionId, Ledger>,
    used: set<nat>)

  datatype Event =
    | SessionCreated(id: SessionId, cwd: string)
    | SessionForked(source: SessionId, id: SessionId, cwd: string)
    | SessionLoaded(id: SessionId, newCwd: Option<string>)
    | SessionClosed(id: SessionId)
    | ModelSet(id: SessionId, modelId: string)
    | ModeLoaded(mid: nat, id: SessionId, modeId: string)
    | ModeSaved(mid: nat, built: bool)
    | ModeDropped(mid: nat)
    | TurnBegun(tid: nat, id: SessionId, text: string)
    | TurnBuilt(tid: nat, built: bool)
    | TurnRan(tid: nat, prompt: string, offered: bool, model: AL.Model, tools: AL.Tools)
    | TurnCommitted(tid: nat)
    | TurnDropped(tid: nat)

  ghost predicate Enabled(d: Desk, e: Event) {
    match e
    case SessionCreated(id, _) => id !in d.ledgers
    case SessionForked(_, id, _) => id !in d.ledgers
    case ModeLoaded(mid, _, _) => mid !in d.modeChanges
    case ModeSaved(mid, _) => mid in d.modeChanges
    case ModeDropped(mid) => mid in d.modeChanges
    case TurnBegun(tid, _, _) => tid !in d.used
    case TurnBuilt(tid, _) => tid in d.turns && d.turns[tid].phase.Building?
    case TurnRan(tid, _, _, _, _) => tid in d.turns && d.turns[tid].phase.Running?
    case TurnCommitted(tid) => tid in d.turns && d.turns[tid].phase.Finished?
    case TurnDropped(tid) => tid in d.turns
    case _ => true
  }

  ghost function RunOutcome(d: Desk, e: Event): AL.Outcome
    requires e.TurnRan? && e.tid in d.turns
  {
    AL.Loop(d.turns[e.tid].history, e.prompt, e.offered, e.model, e.tools)
  }

  /** A commit that finds its session stored appends to its ledger. */
  ghost function CommitTurn(d: Desk, tid: nat): Desk
    requires tid in d.turns
  {
    var t := d.turns[tid];
    var (h, r) := CommitPrompt(d.harness, t.id, t.baseLen, t.history);
    d.(harness := h, turns := d.turns - {tid},
       ledgers := if r.Success? && t.id in d.ledgers
                  then d.ledgers[t.id := d.ledgers[t.id].(
                         commits := d.ledgers[t.id].commits + [Committed(tid, t.history[t.baseLen..])])]
                  else d.ledgers)
  }

  /** The turn runs at once when the runtime it wants is cached, and awaits its build otherwise. */
  ghost function BeginTurn(d: Desk, tid: nat, id: SessionId, text: string): Desk {
    var (h, r) := StartPrompt(d.harness, id, text);
    if r.Failure? then d
    else
      var wanted := SourcesForMode(h.config, r.value.session.modeId);
      var phase := if Cached(h, id, wanted) then Running else Building(wanted);
      d.(harness := h, used := d.used + {tid},
         turns := d.turns[tid := Turn(id, text, r.value.baseLen, r.value.session.history, phase)])
  }

  ghost function EndTurnBuild(d: Desk, tid: nat, built: bool): Desk
    requires tid in d.turns && d.turns[tid].phase.Building?
  {
    var t := d.turns[tid];
    d.(harness := EndBuild(d.harness, t.id, t.phase.wanted, built),
       turns := if built then d.turns[tid := t.(phase := Running)] else d.turns - {tid})
  }

  ghost function Step(d: Desk, e: Event): Desk
    requires Enabled(d, e)
  {
    match e
    case SessionCreated(id, cwd) =>
      d.(harness := NewSession(d.harness, id, cwd), ledgers := d.ledgers[id := Ledger([], [])])
    case SessionForked(source, id, cwd) =>
      if source in d.harness.store
      then d.(harness := ForkSession(d.harness, source, id, cwd).0,
              ledgers := d.ledgers[id := Ledger(d.harness.store[source].history, [])])
      else d
    case SessionLoaded(id, cwd) => d.(harness := LoadSession(d.harness, id, cwd).0)
    case SessionClosed(id) => d.(harness := CloseSession(d.harness, id).0)
    case ModelSet(id, modelId) => d.(harness := SetModel(d.harness, id, modelId).0)
    case ModeLoaded(mid, id, modeId) =>
      var loaded := LoadForMode(d.harness, id, modeId);
      if loaded.Success? then d.(modeChanges := d.modeChanges[mid := ModeChange(id, loaded.value)]) else d
    case ModeSaved(mid, built) =>
      var m := d.modeChanges[mid];
      d.(harness := SaveMode(d.harness, m.id, m.data, built).0, modeChanges := d.modeChanges - {mid})
    case ModeDropped(mid) => d.(modeChanges := d.modeChanges - {mid})
    case TurnBegun(tid, id, text) => BeginTurn(d, tid, id, text)
    case TurnBuilt(tid, built) => EndTurnBuild(d, tid, built)
    case TurnRan(tid, _, _, _, _) =>
      var o := RunOutcome(d, e);
      d.(harness := FinishPrompt(d.harness, d.turns[tid].id),
         turns := if o.result.Success?
                  then d.turns[tid := d.turns[tid].(history := o.history, phase := Finished)]
                  else d.turns - {tid})
    case TurnCommitted(tid) => CommitTurn(d, tid)
    case TurnDropped(tid) => d.(turns := d.turns - {tid})
  }

  ghost predicate Run(d: Desk, es: seq<Event>)
    decreases |es|
  {
    es == [] || (Enabled(d, es[0]) && Run(Step(d, es[0]), es[1..]))
  }

  ghost function After(d: Desk, es: seq<Event>): Desk
    requires Run(d, es)
    decreases |es|
  {
    if es == [] then d else After(Step(d, es[0]), es[1..])
  }

  ghost function Opening(config: Config): Desk {
    Desk(Harness(config, map[], map[], {}), map[], map[], map[], {})
  }

  // ----- Turns: whole, and one at a time between begin and finish -----

  /** The turn's copy is some earlier history, the user's message, and what the loop added. */
  ghost predicate Whole(t: Turn) {
    && t.baseLen < |t.history| && t.history[t.baseLen] == UserMessage(t.text)
    && (!t.phase.Finished? ==> |t.history| == t.baseLen + 1)
    && (t.phase.Finished? ==>
          |t.history| > t.baseLen + 1
          && t.history[|t.history| - 1].role.Assistant? && t.history[|t.history| - 1].toolCalls.None?)
  }

  ghost predicate TurnsInOrder(d: Desk) {
    && d.turns.Keys <= d.used
    && (forall tid | tid in d.turns :: Whole(d.turns[tid]))
    && (forall tid | tid in d.turns && !d.turns[tid].phase.Finished? :: d.turns[tid].id in d.harness.active)
    && (forall s, t | s in d.turns && t in d.turns && !d.turns[s].phase.Finished? && !d.turns[t].phase.Finished?
                      && d.turns[s].id == d.turns[t].id :: s == t)
  }

  lemma LoopIsWhole(t: Turn, prompt: string, offered: bool, model: AL.Model, tools: AL.Tools)
    requires Whole(t) && t.phase.Running?
    ensures var o := AL.Loop(t.history, prompt, offered, model, tools);
            o.result.Success? ==> Whole(t.(history := o.history, phase := Finished))
  {
    AL.HistoryKept(t.history, prompt, offered, model, tools);
  }

  lemma BegunInOrder(d: Desk, tid: nat, id: SessionId, text: string)
    requires TurnsInOrder(d) && tid !in d.used
    ensures TurnsInOrder(BeginTurn(d, tid, id, text))
  {
  }

  lemma BuiltInOrder(d: Desk, tid: nat, built: bool)
    requires TurnsInOrder(d) && tid in d.turns && d.turns[tid].phase.Building?
    ensures TurnsInOrder(EndTurnBuild(d, tid, built))
  {
  }

  lemma RanInOrder(d: Desk, e: Event)
    requires TurnsInOrder(d) && Enabled(d, e) && e.TurnRan?
    ensures TurnsInOrder(Step(d, e))
  {
    var o := RunOutcome(d, e);
    LoopIsWhole(d.turns[e.tid], e.prompt, e.offered, e.model, e.tools);
    FinishedTurn(d, e.tid, o.history, o.result.Success?);
  }

  lemma FinishedTurn(d: Desk, tid: nat, history: seq<Message>, kept: bool)
    requires TurnsInOrder(d) && tid in d.turns && d.turns[tid].phase.Running?
    requires kept ==> Whole(d.turns[tid].(history := history, phase := Finished))
    ensures TurnsInOrder(d.(harness := FinishPrompt(d.harness, d.turns[tid].id),
                            turns := if kept then d.turns[tid := d.turns[tid].(history := history, phase := Finished)]
                                     else d.turns - {tid}))
  {
  }

  /** No other event starts or moves a turn, or frees a session. */
  lemma OthersLeaveTurns(d: Desk, e: Event)
    requires Enabled(d, e) && !e.TurnBegun? && !e.TurnBuilt? && !e.TurnRan?
    ensures forall tid | tid in Step(d, e).turns :: tid in d.turns && Step(d, e).turns[tid] == d.turns[tid]
    ensures Step(d, e).used == d.used && Step(d, e).harness.active == d.harness.active
  {
  }

  lemma StepTurnsInOrder(d: Desk, e: Event)
    requires TurnsInOrder(d) && Enabled(d, e)
    ensures TurnsInOrder(Step(d, e))
  {
    if e.TurnBegun? {
      BegunInOrder(d, e.tid, e.id, e.text);
    } else if e.TurnBuilt? {
      BuiltInOrder(d, e.tid, e.built);
    } else if e.TurnRan? {
      RanInOrder(d, e);
    } else {
      OthersLeaveTurns(d, e);
    }
  }

  // ----- Histories -----

  function Flatten(commits: seq<Committed>): seq<Message> {
    if commits == [] then [] else Flatten(commits[..|commits| - 1]) + commits[|commits| - 1].messages
  }

  function Due(l: Ledger): seq<Message> {
    l.initial + Flatten(l.commits)
  }

  lemma DueAppend(l: Ledger, c: Committed)
    ensures Due(l.(commits := l.commits + [c])) == Due(l) + c.messages
  {
    assert (l.commits + [c])[..|l.commits|] == l.commits;
    Assoc(l.initial, Flatten(l.commits), c.messages);
  }

  /** The stored history is the initial one followed by every committed turn, whole and in order. */
  ghost predicate Faithful(d: Desk) {
    && d.harness.store.Keys <= d.ledgers.Keys
    && forall id | id in d.harness.store :: d.harness.store[id].history == Due(d.ledgers[id])
  }

  /** What a pending mode change loaded is a past state of the session's history. */
  ghost predicate ModeChangesPast(d: Desk) {
    forall mid | mid in d.modeChanges ::
      var m := d.modeChanges[mid];
      m.id in d.ledgers && m.data.history <= Due(d.ledgers[m.id])
  }

  /** A turn was committed to the session between the load and the save of the mode change. */
  ghost predicate Stale(d: Desk, mid: nat)
    requires mid in d.modeChanges
  {
    var m := d.modeChanges[mid];
    m.id in d.harness.store && |m.data.history| != |d.harness.store[m.id].history|
  }

  lemma CommitFaithful(d: Desk, tid: nat)
    requires Faithful(d) && tid in d.turns && Whole(d.turns[tid])
    ensures Faithful(CommitTurn(d, tid))
  {
    var t := d.turns[tid];
    if t.id in d.harness.store {
      DueAppend(d.ledgers[t.id], Committed(tid, t.history[t.baseLen..]));
    }
  }

  /** Every event but a stale save keeps histories faithful, and a stale save that goes through does not. */
  lemma FaithfulUnlessStale(d: Desk, e: Event)
    requires Faithful(d) && ModeChangesPast(d) && TurnsInOrder(d) && Enabled(d, e)
    ensures Faithful(Step(d, e)) <==> !(e.ModeSaved? && e.built && Stale(d, e.mid))
  {
    if e.TurnCommitted? {
      CommitFaithful(d, e.tid);
    } else if e.ModeSaved? {
      SaveFaithful(d, e.mid, e.built);
    } else {
      OthersFaithful(d, e);
    }
  }

  lemma SaveFaithful(d: Desk, mid: nat, built: bool)
    requires Faithful(d) && ModeChangesPast(d) && mid in d.modeChanges
    ensures Faithful(Step(d, ModeSaved(mid, built))) <==> !(built && Stale(d, mid))
  {
    var m, c := d.modeChanges[mid], Step(d, ModeSaved(mid, built));
    if m.id in d.harness.store && |m.data.history| == |d.harness.store[m.id].history| {
      assert m.data.history == d.harness.store[m.id].history;
    }
    assert m.id in d.harness.store && built ==> m.id in c.harness.store;
  }

  lemma OthersFaithful(d: Desk, e: Event)
    requires Faithful(d) && Enabled(d, e) && !e.TurnCommitted? && !e.ModeSaved?
    ensures Faithful(Step(d, e))
  {
    assert Flatten([]) == [];
  }

  lemma StepModeChangesPast(d: Desk, e: Event)
    requires Faithful(d) && ModeChangesPast(d) && Enabled(d, e)
    ensures ModeChangesPast(Step(d, e))
  {
    if e.TurnCommitted? {
      CommitModeChangesPast(d, e.tid);
    }
  }

  lemma CommitModeChangesPast(d: Desk, tid: nat)
    requires Faithful(d) && ModeChangesPast(d) && tid in d.turns
    ensures ModeChangesPast(CommitTurn(d, tid))
  {
    var t := d.turns[tid];
    if t.id in d.ledgers && t.baseLen <= |t.history| {
      DueAppend(d.ledgers[t.id], Committed(tid, t.history[t.baseLen..]));
    }
  }

  // ----- Ledgers: each turn at most once -----

  ghost predicate InLedger(d: Desk, id: SessionId, i: nat, tid: nat) {
    id in d.ledgers && i < |d.ledgers[id].commits| && d.ledgers[id].commits[i].tid == tid
  }

  /** Committed turns are over, were committed once, and were whole successful turns. */
  ghost predicate LedgersOnce(d: Desk) {
    && (forall id, i: nat, tid | InLedger(d, id, i, tid) :: tid in d.used && tid !in d.turns)
    && (forall x, i: nat, y, j: nat, tid | InLedger(d, x, i, tid) && InLedger(d, y, j, tid) :: x == y && i == j)
    && (forall id, i: nat, tid | InLedger(d, id, i, tid) :: WholeTurn(d.ledgers[id].commits[i].messages))
  }

  /** A user message, then what the loop added, ending in the assistant's answer. */
  ghost predicate WholeTurn(messages: seq<Message>) {
    && |messages| >= 2 && messages[0].role.User?
    && messages[|messages| - 1].role.Assistant? && messages[|messages| - 1].toolCalls.None?
  }

  ghost predicate SameLedgers(d: Desk, c: Desk) {
    forall id, i: nat, tid :: InLedger(c, id, i, tid) ==>
      InLedger(d, id, i, tid) && c.ledgers[id].commits[i] == d.ledgers[id].commits[i]
  }

  lemma OtherEventsLedgers(d: Desk, e: Event)
    requires Enabled(d, e) && !e.TurnCommitted?
    ensures SameLedgers(d, Step(d, e))
    ensures d.used <= Step(d, e).used
    ensures forall tid | tid in Step(d, e).turns :: tid in d.turns || tid !in d.used
  {
  }

  lemma CommitLedgers(d: Desk, tid: nat)
    requires LedgersOnce(d) && TurnsInOrder(d) && tid in d.turns && d.turns[tid].phase.Finished?
    ensures LedgersOnce(CommitTurn(d, tid))
  {
    var t, c := d.turns[tid], CommitTurn(d, tid);
    assert WholeTurn(t.history[t.baseLen..]);
    assert forall id, i: nat, x | InLedger(c, id, i, x) ::
        InLedger(d, id, i, x) || (id == t.id && id in d.ledgers && i == |d.ledgers[id].commits| && x == tid);
  }

  lemma StepLedgersOnce(d: Desk, e: Event)
    requires LedgersOnce(d) && TurnsInOrder(d) && Enabled(d, e)
    ensures LedgersOnce(Step(d, e))
  {
    if e.TurnCommitted? {
      CommitLedgers(d, e.tid);
    } else {
      OtherEventsLedgers(d, e);
    }
  }

  // ----- Every run -----

  ghost predicate Orderly(d: Desk) {
    TurnsInOrder(d) && LedgersOnce(d)
  }

  /** Main result: turns on one session never overlap between begin and finish; commits are whole and single. */
  lemma {:induction false} RunOrderly(d: Desk, es: seq<Event>)
    requires Orderly(d) && Run(d, es)
    ensures Orderly(After(d, es))
    decreases |es|
  {
    if es != [] {
      StepTurnsInOrder(d, es[0]);
      StepLedgersOnce(d, es[0]);
      RunOrderly(Step(d, es[0]), es[1..]);
    }
  }

  ghost predicate NoStaleSave(d: Desk, es: seq<Event>)
    requires Run(d, es)
    decreases |es|
  {
    es == [] ||
    (!(es[0].ModeSaved? && es[0].built && Stale(d, es[0].mid)) && NoStaleSave(Step(d, es[0]), es[1..]))
  }

  /**
   * Main result: however turns, forks, closes and settings overlap, every stored history is its
   * initial history followed by the committed turns, whole, each once, in commit order, as long as
   * no mode change saves over a turn committed since it loaded.
   */
  lemma {:induction false} RunFaithful(d: Desk, es: seq<Event>)
    requires Faithful(d) && ModeChangesPast(d) && Orderly(d) && Run(d, es) && NoStaleSave(d, es)
    ensures Faithful(After(d, es))
    decreases |es|
  {
    if es != [] {
      FaithfulUnlessStale(d, es[0]);
      StepModeChangesPast(d, es[0]);
      StepTurnsInOrder(d, es[0]);
      StepLedgersOnce(d, es[0]);
      RunFaithful(Step(d, es[0]), es[1..]);
    }
  }

  /**
   * The exception is reachable: a finished turn no longer holds its session, so a mode change may
   * load, the turn commit, and the mode change save the history without it.
   */
  lemma ModeChangeLosesTurn(d: Desk, tid: nat, mid: nat, modeId: string)
    requires Faithful(d) && TurnsInOrder(d) && tid in d.turns && d.turns[tid].phase.Finished?
    requires var id := d.turns[tid].id; id in d.harness.store && id !in d.harness.active
    requires mid !in d.modeChanges && modeId in MODES
    ensures var id := d.turns[tid].id;
            var es := [ModeLoaded(mid, id, modeId), TurnCommitted(tid), ModeSaved(mid, true)];
            && Run(d, es)
            && id in After(d, es).harness.store && id in After(d, es).ledgers && id in d.ledgers
            && After(d, es).harness.store[id].history == d.harness.store[id].history
            && |After(d, es).ledgers[id].commits| == |d.ledgers[id].commits| + 1
            && !Faithful(After(d, es))
  {
    var t := d.turns[tid];
    var e1, e2, e3 := ModeLoaded(mid, t.id, modeId), TurnCommitted(tid), ModeSaved(mid, true);
    LostInThreeSteps(d, tid, mid, modeId);
    RunThree(d, e1, e2, e3);
  }

  lemma RunThree(d: Desk, e1: Event, e2: Event, e3: Event)
    requires Enabled(d, e1) && Enabled(Step(d, e1), e2) && Enabled(Step(Step(d, e1), e2), e3)
    ensures Run(d, [e1, e2, e3]) && After(d, [e1, e2, e3]) == Step(Step(Step(d, e1), e2), e3)
  {
    var d1 := Step(d, e1);
    var d2 := Step(d1, e2);
    var d3 := Step(d2, e3);
    assert [e1, e2, e3][1..] == [e2, e3] && [e2, e3][1..] == [e3] && [e3][1..] == [];
    assert Run(d3, []) && After(d3, []) == d3;
    assert Run(d2, [e3]) && After(d2, [e3]) == d3;
    assert Run(d1, [e2, e3]) && After(d1, [e2, e3]) == d3;
  }

  lemma LostInThreeSteps(d: Desk, tid: nat, mid: nat, modeId: string)
    requires Faithful(d) && TurnsInOrder(d) && tid in d.turns && d.turns[tid].phase.Finished?
    requires d.turns[tid].id in d.harness.store && d.turns[tid].id !in d.harness.active
    requires mid !in d.modeChanges && modeId in MODES
    ensures var id := d.turns[tid].id;
            var d1 := Step(d, ModeLoaded(mid, id, modeId));
            && Enabled(d1, TurnCommitted(tid))
            && (var d2 := Step(d1, TurnCommitted(tid));
                && Enabled(d2, ModeSaved(mid, true))
                && (var d3 := Step(d2, ModeSaved(mid, true));
                    && id in d3.harness.store && id in d3.ledgers && id in d.ledgers
                    && d3.harness.store[id].history == d.harness.store[id].history
                    && |d3.ledgers[id].commits| == |d.ledgers[id].commits| + 1
                    && !Faithful(d3)))
  {
    var t := d.turns[tid];
    var d1 := Step(d, ModeLoaded(mid, t.id, modeId));
    assert d1 == d.(modeChanges := d.modeChanges[mid := ModeChange(t.id, d.harness.store[t.id].(modeId := modeId))]);
    var d2 := CommitTurn(d1, tid);
    var d3 := Step(d2, ModeSaved(mid, true));
    var l, c := d.ledgers[t.id], Committed(tid, t.history[t.baseLen..]);
    DueAppend(l, c);
    assert d3.ledgers[t.id] == l.(commits := l.commits + [c]);
    assert d3.harness.store[t.id].history == d.harness.store[t.id].history;
    assert |Due(d3.ledgers[t.id])| > |d.harness.store[t.id].history|;
  }

  // ----- The tool-call protocol across overlapping turns -----

  ghost predicate AllPaired(d: Desk) {
    && (forall id | id in d.harness.store :: Paired(d.harness.store[id].history))
    && (forall mid | mid in d.modeChanges :: Paired(d.modeChanges[mid].data.history))
    && (forall tid | tid in d.turns ::
          Paired(d.turns[tid].history)
          && d.turns[tid].baseLen <= |d.turns[tid].history|
          && Paired(d.turns[tid].history[..d.turns[tid].baseLen]))
  }

  ghost predicate HonestEvent(e: Event) {
    e.TurnRan? ==> AL.Honest(AL.Turn("", e.prompt, e.offered, e.model, e.tools))
  }

  lemma BegunPaired(h: Harness, id: SessionId, text: string)
    requires forall x | x in h.store :: Paired(h.store[x].history)
    ensures var r := StartPrompt(h, id, text).1;
            r.Success? ==>
              && Paired(r.value.session.history) && r.value.baseLen <= |r.value.session.history|
              && Paired(r.value.session.history[..r.value.baseLen])
  {
    var r := StartPrompt(h, id, text).1;
    if r.Success? {
      AL.UserPaired(h.store[id].history, text);
      assert r.value.session.history[..r.value.baseLen] == h.store[id].history;
    }
  }

  lemma RanPaired(d: Desk, e: Event)
    requires e.TurnRan? && e.tid in d.turns && HonestEvent(e)
    requires Paired(d.turns[e.tid].history) && d.turns[e.tid].baseLen <= |d.turns[e.tid].history|
    requires RunOutcome(d, e).result.Success?
    ensures var o, t := RunOutcome(d, e), d.turns[e.tid];
            Paired(o.history) && t.baseLen <= |o.history| && o.history[..t.baseLen] == t.history[..t.baseLen]
  {
    var t := d.turns[e.tid];
    AL.SuccessPaired(t.history, e.prompt, e.offered, e.model, e.tools);
    AL.HistoryKept(t.history, e.prompt, e.offered, e.model, e.tools);
    assert !AL.Dangling(t.history, e.prompt, e.offered, e.model);
  }

  lemma CommitPaired(d: Desk, tid: nat)
    requires AllPaired(d) && tid in d.turns
    ensures AllPaired(CommitTurn(d, tid))
  {
    var t := d.turns[tid];
    PairedAppend(t.history[..t.baseLen], t.history[t.baseLen..]);
    assert t.history[..t.baseLen] + t.history[t.baseLen..] == t.history;
    if t.id in d.harness.store {
      PairedAppend(d.harness.store[t.id].history, t.history[t.baseLen..]);
    }
  }

  lemma BegunAllPaired(d: Desk, tid: nat, id: SessionId, text: string)
    requires AllPaired(d)
    ensures AllPaired(BeginTurn(d, tid, id, text))
  {
    BegunPaired(d.harness, id, text);
    var (h, r) := StartPrompt(d.harness, id, text);
    if r.Success? {
      AddedPaired(d, h, tid, BeginTurn(d, tid, id, text).turns[tid]);
    }
  }

  lemma AddedPaired(d: Desk, h: Harness, tid: nat, t: Turn)
    requires AllPaired(d) && h.store == d.harness.store
    requires Paired(t.history) && t.baseLen <= |t.history| && Paired(t.history[..t.baseLen])
    ensures AllPaired(d.(harness := h, used := d.used + {tid}, turns := d.turns[tid := t]))
  {
  }

  lemma BuiltAllPaired(d: Desk, tid: nat, built: bool)
    requires AllPaired(d) && tid in d.turns && d.turns[tid].phase.Building?
    ensures AllPaired(EndTurnBuild(d, tid, built))
  {
  }

  lemma RanAllPaired(d: Desk, e: Event)
    requires AllPaired(d) && Enabled(d, e) && e.TurnRan? && HonestEvent(e)
    ensures AllPaired(Step(d, e))
  {
    if RunOutcome(d, e).result.Success? {
      RanPaired(d, e);
    }
  }

  /** Every other event stores, loads or drops histories that were already there. */
  lemma OthersKeepPaired(d: Desk, e: Event)
    requires AllPaired(d) && Enabled(d, e)
    requires !e.TurnBegun? && !e.TurnBuilt? && !e.TurnRan? && !e.TurnCommitted?
    ensures AllPaired(Step(d, e))
  {
    OthersLeaveTurns(d, e);
    var c := Step(d, e);
    forall id | id in c.harness.store ensures Paired(c.harness.store[id].history) {
      OthersStoreKnown(d, e, id);
    }
    assert forall mid | mid in c.modeChanges :: Paired(c.modeChanges[mid].data.history);
  }

  lemma OthersStoreKnown(d: Desk, e: Event, id: SessionId)
    requires Enabled(d, e) && !e.TurnBegun? && !e.TurnRan? && !e.TurnCommitted?
    requires id in Step(d, e).harness.store
    ensures var h := Step(d, e).harness.store[id].history;
            || h == []
            || (exists x :: x in d.harness.store && h == d.harness.store[x].history)
            || (exists mid :: mid in d.modeChanges && h == d.modeChanges[mid].data.history)
  {
  }

  lemma StepAllPaired(d: Desk, e: Event)
    requires AllPaired(d) && Enabled(d, e) && HonestEvent(e)
    ensures AllPaired(Step(d, e))
  {
    if e.TurnBegun? {
      BegunAllPaired(d, e.tid, e.id, e.text);
    } else if e.TurnBuilt? {
      BuiltAllPaired(d, e.tid, e.built);
    } else if e.TurnRan? {
      RanAllPaired(d, e);
    } else if e.TurnCommitted? {
      CommitPaired(d, e.tid);
    } else {
      OthersKeepPaired(d, e);
    }
  }

  lemma {:induction false} RunAllPaired(d: Desk, es: seq<Event>)
    requires AllPaired(d) && Run(d, es) && forall e | e in es :: HonestEvent(e)
    ensures AllPaired(After(d, es))
    decreases |es|
  {
    if es != [] {
      assert HonestEvent(es[0]);
      StepAllPaired(d, es[0]);
      assert forall e | e in es[1..] :: e in es;
      RunAllPaired(Step(d, es[0]), es[1..]);
    }
  }

  /** Main result: in every interleaving every request of every turn is well formed. */
  lemma OverlappingRequestsWellFormed(config: Config, es: seq<Event>, e: Event)
    requires Run(Opening(config), es) && forall x | x in es :: HonestEvent(x)
    requires e.TurnRan? && Enabled(After(Opening(config), es), e)
    ensures forall r | r in RunOutcome(After(Opening(config), es), e).requests :: WellFormed(r, e.offered)
  {
    var d := After(Opening(config), es);
    RunAllPaired(Opening(config), es);
    AL.RequestsWellFormed(d.turns[e.tid].history, e.prompt, e.offered, e.model, e.tools);
  }

  /** Main result: the guarantees hold from an empty store. */
  lemma StoredHistories(config: Config, es: seq<Event>, id: SessionId)
    requires Run(Opening(config), es) && NoStaleSave(Opening(config), es)
    requires id in After(Opening(config), es).harness.store
    ensures var d := After(Opening(config), es);
            && id in d.ledgers && d.harness.store[id].history == Due(d.ledgers[id])
            && (forall c | c in d.ledgers[id].commits :: WholeTurn(c.messages))
            && (forall i, j | 0 <= i < j < |d.ledgers[id].commits| ::
                  d.ledgers[id].commits[i].tid != d.ledgers[id].commits[j].tid)
  {
    RunFaithful(Opening(config), es);
    RunOrderly(Opening(config), es);
    var d := After(Opening(config), es);
    var commits := d.ledgers[id].commits;
    forall c | c in commits ensures WholeTurn(c.messages) {
      var i :| 0 <= i < |commits| && commits[i] == c;
      assert InLedger(d, id, i, c.tid);
    }
    forall i, j | 0 <= i < j < |commits| ensures commits[i].tid != commits[j].tid {
      assert InLedger(d, id, i, commits[i].tid) && InLedger(d, id, j, commits[j].tid);
    }
  }
}
