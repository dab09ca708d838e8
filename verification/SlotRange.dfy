/**
 * Slot indices stay in range: whatever a session or a waiting request refers to is a slot of the
 * table, which never shrinks. So eviction and crash recovery index it without fail.
 */
module SlotRange {
  import opened Wrappers
  import opened PoolModel
  import opened GatewaySystem
  import opened SlotAccounting

  predicate OnSlot(r: Request) {
    r.Creating? || r.Reloading? || r.Forking?
  }

  ghost predicate SessionsInRange(p: Pool) {
    forall ext | ext in p.sessions :: p.sessions[ext].slotIndex < |p.slots|
  }

  ghost predicate InRange(s: System) {
    && SessionsInRange(s.pool)
    && (forall rid | rid in s.transit && OnSlot(s.transit[rid]) :: s.transit[rid].slot < |s.pool.slots|)
  }

  /** No session is new and the table has not shrunk. */
  ghost predicate Settled(p: Pool, q: Pool) {
    && |p.slots| <= |q.slots|
    && q.sessions.Keys <= p.sessions.Keys
    && (forall ext | ext in q.sessions :: q.sessions[ext].slotIndex == p.sessions[ext].slotIndex)
  }

  lemma SelectedInRange(p: Pool)
    ensures SelectSlot(p).Some? ==> SelectSlot(p).value < |p.slots|
  {
  }

  lemma AssignedInRange(p: Pool, spawned: bool)
    ensures var placed := AssignSlot(p, spawned);
            && Settled(p, placed.0)
            && (placed.1.Some? ==> placed.1.value.0 < |placed.0.slots|)
  {
    SelectedInRange(p);
  }

  lemma ReloadInRange(p: Pool, ext: ExternalSid, frontend: FrontendId, spawned: bool, prompting: bool)
    ensures var reload := Reload(p, ext, frontend, spawned, prompting);
            && Settled(p, reload.0)
            && (reload.1.Some? ==> OnSlot(reload.1.value) && reload.1.value.slot < |reload.0.slots|)
  {
    if ext in p.evicted {
      AssignedInRange(TakeEvicted(p, ext), spawned);
    }
  }

  lemma RecordSenderSettled(p: Pool, ext: ExternalSid, frontend: FrontendId)
    ensures Settled(p, RecordSender(p, ext, frontend)) && RecordSender(p, ext, frontend).slots == p.slots
  {
  }

  lemma AwaitInRange(s: System, pool: Pool, rid: nat, request: Option<Request>)
    requires InRange(s) && Settled(s.pool, pool)
    requires request.Some? && OnSlot(request.value) ==> request.value.slot < |pool.slots|
    ensures InRange(Await(s, pool, rid, request))
  {
  }

  lemma PromptBegunInRange(s: System, begun: Pool, rid: nat, ext: ExternalSid, frontend: FrontendId, spawned: bool,
                           now: Instant)
    requires InRange(s) && Settled(s.pool, begun)
    ensures var t := PromptBegun(s, begun, rid, ext, frontend, spawned, now);
            InRange(t) && |s.pool.slots| <= |t.pool.slots|
  {
    if Resolves(begun, ext) {
      AwaitInRange(s, Touch(begun, ext, now), rid, Some(Prompting(ext)));
    } else {
      var reload := Reload(begun, ext, frontend, spawned, true);
      ReloadInRange(begun, ext, frontend, spawned, true);
      AwaitInRange(s, if reload.1.Some? then reload.0 else EndPrompt(reload.0, ext), rid, reload.1);
    }
  }

  lemma PromptStartedInRange(s: System, rid: nat, ext: ExternalSid, frontend: FrontendId, spawned: bool, now: Instant)
    requires InRange(s) && ext !in s.pool.inFlight
    ensures var t := PromptStarted(s, rid, ext, frontend, spawned, now);
            InRange(t) && |s.pool.slots| <= |t.pool.slots|
  {
    var recorded := RecordSender(s.pool, ext, frontend);
    RecordSenderSettled(s.pool, ext, frontend);
    RecordSenderSettled(recorded.(inFlight := recorded.inFlight + {ext},
                                  promptSenders := recorded.promptSenders[ext := frontend]), ext, frontend);
    PromptBegunInRange(s, BeginPrompt(recorded, ext, frontend), rid, ext, frontend, spawned, now);
  }

  lemma LoadStartedInRange(s: System, rid: nat, ext: ExternalSid, frontend: FrontendId, spawned: bool)
    requires InRange(s)
    ensures var t := LoadStarted(s, rid, ext, frontend, spawned); InRange(t) && |s.pool.slots| <= |t.pool.slots|
  {
    var recorded := RecordSender(s.pool, ext, frontend);
    RecordSenderSettled(s.pool, ext, frontend);
    if !Resolves(recorded, ext) {
      var reload := Reload(recorded, ext, frontend, spawned, false);
      ReloadInRange(recorded, ext, frontend, spawned, false);
      AwaitInRange(s, reload.0, rid, reload.1);
    }
  }

  lemma StartedInRange(s: System, e: Event)
    requires InRange(s) && Enabled(s, e)
    requires e.StartNew? || e.StartLoad? || e.StartPrompt? || e.StartFork? || e.StartClose?
    ensures InRange(Step(s, e)) && |s.pool.slots| <= |Step(s, e).pool.slots|
  {
    match e {
      case StartNew(rid, cwd, frontend, spawned) =>
        var placed := AssignSlot(s.pool, spawned);
        AssignedInRange(s.pool, spawned);
        AwaitInRange(s, placed.0, rid,
                     if placed.1.Some?
                      then Some(Creating(placed.1.value.0, cwd, frontend, placed.1.value.1))
                      else None);
      case StartLoad(rid, ext, frontend, spawned) => LoadStartedInRange(s, rid, ext, frontend, spawned);
      case StartPrompt(rid, ext, frontend, authorized, spawned, now) =>
        RecordSenderSettled(s.pool, ext, frontend);
        if authorized && ext !in s.pool.inFlight {
          PromptStartedInRange(s, rid, ext, frontend, spawned, now);
        }
      case StartFork(_, ext, _, frontend) => RecordSenderSettled(s.pool, ext, frontend);
      case StartClose(_, ext, frontend) => RecordSenderSettled(s.pool, ext, frontend);
    }
  }

  lemma FinishInRange(s: System, rid: nat)
    requires InRange(s) && rid in s.transit
    ensures InRange(Finish(s, rid)) && Finish(s, rid).pool.slots == s.pool.slots
  {
  }

  lemma OthersInRange(s: System, e: Event)
    requires InRange(s) && Enabled(s, e)
    requires e.Initialize? || e.InitReplied? || e.CloseReplied? || e.RequestEnded? || e.SenderRecorded?
             || e.IdleEvicted? || e.Purged? || e.BackendDied? || e.BackendSpawned?
    ensures InRange(Step(s, e)) && |s.pool.slots| <= |Step(s, e).pool.slots|
  {
    match e {
      case InitReplied(rid) => FinishInRange(s, rid);
      case RequestEnded(rid) => FinishInRange(s, rid);
      case SenderRecorded(ext, frontend) => RecordSenderSettled(s.pool, ext, frontend);
      case _ =>
    }
  }

  /** Every event keeps indices in range, and the table never shrinks. */
  lemma StepInRange(s: System, e: Event)
    requires InRange(s) && Enabled(s, e)
    ensures InRange(Step(s, e)) && |s.pool.slots| <= |Step(s, e).pool.slots|
    ensures Spawns(s, e).Some? ==> Spawns(s, e).value < |Step(s, e).pool.slots|
  {
    if e.StartNew? || e.StartLoad? || e.StartPrompt? || e.StartFork? || e.StartClose? {
      StartedInRange(s, e);
    } else if e.CreateReplied? || e.ForkReplied? || e.ReloadReplied? {
    } else {
      OthersInRange(s, e);
    }
    SpawnedInRange(s, e);
  }

  lemma SpawnedInRange(s: System, e: Event)
    requires Enabled(s, e)
    ensures Spawns(s, e).Some? ==> Spawns(s, e).value < |Step(s, e).pool.slots|
  {
    if !Counting(e) {
      OtherEventsUse(s, e);
    }
  }

  /**
   * Main result: in every reachable state every session and every waiting request refers to a slot of
   * the table, and a slot that ever held a backend stays one, so a late death report finds it.
   */
  lemma {:induction false} RunInRange(s: System, es: seq<Event>)
    requires InRange(s) && Run(s, es)
    ensures InRange(After(s, es)) && |s.pool.slots| <= |After(s, es).pool.slots|
    decreases |es|
  {
    if es != [] {
      StepInRange(s, es[0]);
      RunInRange(Step(s, es[0]), es[1..]);
    }
  }

  lemma ReachableInRange(strategy: Strategy, poolSize: nat, es: seq<Event>)
    requires Run(Boot(strategy, poolSize), es)
    ensures InRange(After(Boot(strategy, poolSize), es))
    ensures |After(Boot(strategy, poolSize), es).pool.slots| >= poolSize
  {
    RunInRange(Boot(strategy, poolSize), es);
  }
}
