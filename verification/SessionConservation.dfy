/** No session is lost silently: the events after which a session is nowhere, exactly. */
module SessionConservation {
  import opened Wrappers
  import opened PoolModel
  import opened GatewaySystem
  import opened SessionDirectory

  /** The session is active, evicted, or taken out for a reload. */
  ghost predicate Known(s: System, ext: ExternalSid) {
    ext in s.pool.sessions || ext in s.pool.evicted || exists rid :: Reloads(s, rid) && s.transit[rid].ext == ext
  }

  /** No slot to reload on, or an empty one into which no backend could be spawned. */
  predicate CannotPlace(p: Pool, spawned: bool) {
    match SelectSlot(p)
    case None => true
    case Some(i) => p.strategy.Dedicated? && !Populated(p.slots, i) && !spawned
  }

  /** A close that is answered, a purge that leaves the entry out, or a reload that fails. */
  predicate Loses(s: System, e: Event, ext: ExternalSid)
    requires Enabled(s, e)
  {
    match e
    case CloseReplied(rid) => s.transit[rid].ext == ext && ext in s.pool.sessions
    case Purged(_, keep) => ext in s.pool.evicted && ext !in keep
    case RequestEnded(rid) => s.transit[rid].Reloading? && s.transit[rid].ext == ext
    case InitReplied(rid) =>
      s.transit[rid].Reloading? && s.transit[rid].ext == ext && !Alive(s.pool.slots, s.transit[rid].slot)
    case StartLoad(_, x, _, spawned) => x == ext && ext in s.pool.evicted && CannotPlace(s.pool, spawned)
    case StartPrompt(_, x, _, authorized, spawned, _) =>
      && x == ext && ext in s.pool.evicted && authorized && ext !in s.pool.inFlight
      && CannotPlace(s.pool, spawned)
    case _ => false
  }

  lemma ReloadPlaces(s: System, rid: nat, pool: Pool, ext: ExternalSid, frontend: FrontendId, spawned: bool,
                     prompting: bool)
    requires pool.evicted.Keys == s.pool.evicted.Keys && pool.sessions.Keys == s.pool.sessions.Keys
    requires pool.slots == s.pool.slots && pool.strategy == s.pool.strategy
    ensures var reload := Reload(pool, ext, frontend, spawned, prompting);
            && reload.0.sessions == pool.sessions && reload.0.evicted == pool.evicted - {ext}
            && (reload.1.Some? <==> ext in s.pool.evicted && !CannotPlace(s.pool, spawned))
            && (reload.1.Some? ==> reload.1.value.Reloading? && reload.1.value.ext == ext)
  {
    assert SelectSlot(TakeEvicted(pool, ext)) == SelectSlot(s.pool);
    if ext !in pool.evicted {
      assert pool.evicted == pool.evicted - {ext};
    }
  }

  lemma AwaitKnown(s: System, pool: Pool, rid: nat, request: Option<Request>, ext: ExternalSid)
    requires rid !in s.transit
    ensures Known(Await(s, pool, rid, request), ext) <==>
            ext in pool.sessions || ext in pool.evicted
            || (exists r :: Reloads(s, r) && s.transit[r].ext == ext)
            || (request.Some? && request.value.Reloading? && request.value.ext == ext)
  {
    var t := Await(s, pool, rid, request);
    if r :| Reloads(s, r) && s.transit[r].ext == ext {
      assert Reloads(t, r);
    }
    if request.Some? && request.value.Reloading? {
      assert Reloads(t, rid);
    }
  }

  lemma LoadConserves(s: System, rid: nat, x: ExternalSid, frontend: FrontendId, spawned: bool, ext: ExternalSid)
    requires Consistent(s) && rid !in s.transit && Known(s, ext)
    ensures Known(LoadStarted(s, rid, x, frontend, spawned), ext) <==>
            !(x == ext && ext in s.pool.evicted && CannotPlace(s.pool, spawned))
  {
    var recorded := RecordSender(s.pool, x, frontend);
    RecordSenderPlaces(s.pool, x, frontend);
    if Resolves(recorded, x) {
      KnownSame(s, s.(pool := recorded), ext);
    } else {
      var done := Reload(recorded, x, frontend, spawned, false).0;
      ReloadConserves(s, rid, recorded, x, frontend, spawned, false, done, ext);
    }
  }

  lemma ReloadConserves(s: System, rid: nat, pool: Pool, x: ExternalSid, frontend: FrontendId, spawned: bool,
                        prompting: bool, done: Pool, ext: ExternalSid)
    requires Consistent(s) && rid !in s.transit && Known(s, ext) && SamePlaces(s.pool, pool)
    requires pool.slots == s.pool.slots && pool.strategy == s.pool.strategy
    requires SamePlaces(Reload(pool, x, frontend, spawned, prompting).0, done)
    ensures Known(Await(s, done, rid, Reload(pool, x, frontend, spawned, prompting).1), ext) <==>
            !(x == ext && ext in s.pool.evicted && CannotPlace(s.pool, spawned))
  {
    ReloadPlaces(s, rid, pool, x, frontend, spawned, prompting);
    AwaitKnown(s, done, rid, Reload(pool, x, frontend, spawned, prompting).1, ext);
  }

  lemma KnownSame(s: System, t: System, ext: ExternalSid)
    requires t.pool.sessions.Keys == s.pool.sessions.Keys && t.pool.evicted.Keys == s.pool.evicted.Keys
    requires t.transit == s.transit
    ensures Known(s, ext) <==> Known(t, ext)
  {
    assert forall r :: Reloads(s, r) <==> Reloads(t, r);
  }

  lemma PromptConserves(s: System, begun: Pool, rid: nat, x: ExternalSid, frontend: FrontendId, spawned: bool,
                        now: Instant, ext: ExternalSid)
    requires Consistent(s) && rid !in s.transit && Known(s, ext) && SamePlaces(s.pool, begun)
    requires begun.slots == s.pool.slots && begun.strategy == s.pool.strategy
    ensures Known(PromptBegun(s, begun, rid, x, frontend, spawned, now), ext) <==>
            !(x == ext && ext in s.pool.evicted && CannotPlace(s.pool, spawned))
  {
    if Resolves(begun, x) {
      TouchPlaces(begun, x, now);
      AwaitKnown(s, Touch(begun, x, now), rid, Some(Prompting(x)), ext);
    } else {
      var reload := Reload(begun, x, frontend, spawned, true);
      ReloadConserves(s, rid, begun, x, frontend, spawned, true,
                      if reload.1.Some? then reload.0 else EndPrompt(reload.0, x), ext);
    }
  }

  lemma FinishConserves(s: System, rid: nat, pool: Pool, ext: ExternalSid)
    requires Consistent(s) && rid in s.transit && Known(s, ext)
    requires pool.sessions.Keys == s.pool.sessions.Keys && pool.evicted.Keys == s.pool.evicted.Keys
    ensures Known(s.(pool := pool, transit := s.transit - {rid}), ext) <==>
            !(s.transit[rid].Reloading? && s.transit[rid].ext == ext)
  {
    var t := s.(pool := pool, transit := s.transit - {rid});
    if s.transit[rid].Reloading? && s.transit[rid].ext == ext {
      assert Reloads(s, rid);
      assert forall r | Reloads(t, r) :: Reloads(s, r);
    } else if r :| Reloads(s, r) && s.transit[r].ext == ext {
      assert Reloads(t, r);
    }
  }

  lemma KnownGrows(s: System, t: System, ext: ExternalSid)
    requires Known(s, ext)
    requires ext in s.pool.sessions || ext in s.pool.evicted ==> ext in t.pool.sessions || ext in t.pool.evicted
    requires forall r | Reloads(s, r) && s.transit[r].ext == ext ::
               ext in t.pool.sessions || (Reloads(t, r) && t.transit[r].ext == ext)
    ensures Known(t, ext)
  {
    if r :| Reloads(s, r) && s.transit[r].ext == ext {
      assert ext in t.pool.sessions || Reloads(t, r);
    }
  }

  lemma CloseConserves(s: System, rid: nat, ext: ExternalSid)
    requires Consistent(s) && Enabled(s, CloseReplied(rid)) && Known(s, ext)
    ensures Known(Step(s, CloseReplied(rid)), ext) <==> !Loses(s, CloseReplied(rid), ext)
  {
    var t := Step(s, CloseReplied(rid));
    if Loses(s, CloseReplied(rid), ext) {
      assert forall r | Reloads(t, r) :: Reloads(s, r);
    } else {
      KnownGrows(s, t, ext);
    }
  }

  lemma PurgeConserves(s: System, keep: set<ExternalSid>, ext: ExternalSid)
    requires Consistent(s) && Known(s, ext)
    ensures Known(s.(pool := KeepEvicted(s.pool, keep)), ext) <==> !(ext in s.pool.evicted && ext !in keep)
  {
    var t := s.(pool := KeepEvicted(s.pool, keep));
    if ext in s.pool.evicted && ext !in keep {
      assert forall r | Reloads(t, r) :: Reloads(s, r);
    } else {
      KnownGrows(s, t, ext);
    }
  }

  lemma QuietConserves(s: System, e: Event, ext: ExternalSid)
    requires Consistent(s) && Enabled(s, e) && Known(s, ext) && Quiet(e)
    ensures Known(Step(s, e), ext) <==> !Loses(s, e, ext)
  {
    QuietStep(s, e);
    var t := Step(s, e);
    if Drops(s, e) {
      FinishConserves(s, e.rid, t.pool, ext);
    } else {
      QuietKeepsReloads(s, e);
      KnownGrows(s, t, ext);
    }
  }

  /** The event drops its request. */
  predicate Drops(s: System, e: Event)
    requires Enabled(s, e)
  {
    e.RequestEnded? || (e.InitReplied? && !Alive(s.pool.slots, s.transit[e.rid].slot))
  }

  lemma QuietKeepsReloads(s: System, e: Event)
    requires Enabled(s, e) && Quiet(e) && !Drops(s, e)
    ensures forall r | Reloads(s, r) :: Reloads(Step(s, e), r) && Step(s, e).transit[r].ext == s.transit[r].ext
  {
  }

  lemma PromptStartedConserves(s: System, rid: nat, x: ExternalSid, frontend: FrontendId, spawned: bool, now: Instant,
                               ext: ExternalSid)
    requires Consistent(s) && rid !in s.transit && Known(s, ext) && x !in s.pool.inFlight
    ensures Known(PromptStarted(s, rid, x, frontend, spawned, now), ext) <==>
            !(x == ext && ext in s.pool.evicted && CannotPlace(s.pool, spawned))
  {
    BegunPlaces(s.pool, x, frontend);
    var begun := BeginPrompt(RecordSender(s.pool, x, frontend), x, frontend);
    PromptConserves(s, begun, rid, x, frontend, spawned, now, ext);
  }

  lemma BegunPlaces(p: Pool, x: ExternalSid, frontend: FrontendId)
    requires x !in p.inFlight
    ensures var begun := BeginPrompt(RecordSender(p, x, frontend), x, frontend);
            SamePlaces(p, begun) && begun.slots == p.slots && begun.strategy == p.strategy
  {
    var recorded := RecordSender(p, x, frontend);
    RecordSenderPlaces(p, x, frontend);
    BeginPromptPlaces(recorded, x, frontend);
  }

  lemma PromptEventConserves(s: System, rid: nat, x: ExternalSid, frontend: FrontendId, authorized: bool, spawned: bool,
                             now: Instant, ext: ExternalSid)
    requires Consistent(s) && rid !in s.transit && Known(s, ext)
    ensures var e := StartPrompt(rid, x, frontend, authorized, spawned, now);
            Known(Step(s, e), ext) <==> !Loses(s, e, ext)
  {
    PromptEvent(s, rid, x, frontend, authorized, spawned, now, ext);
    if authorized && x in s.pool.inFlight {
      RecordSenderPlaces(s.pool, x, frontend);
      KnownSame(s, s.(pool := RecordSender(s.pool, x, frontend)), ext);
    } else if authorized {
      PromptStartedConserves(s, rid, x, frontend, spawned, now, ext);
    }
  }

  lemma PromptEvent(s: System, rid: nat, x: ExternalSid, frontend: FrontendId, authorized: bool, spawned: bool,
                    now: Instant, ext: ExternalSid)
    requires rid !in s.transit
    ensures var e := StartPrompt(rid, x, frontend, authorized, spawned, now);
            && Step(s, e) == (if !authorized then s
                              else if x in s.pool.inFlight then s.(pool := RecordSender(s.pool, x, frontend))
                              else PromptStarted(s, rid, x, frontend, spawned, now))
            && (Loses(s, e, ext) <==> authorized && x !in s.pool.inFlight
                                      && x == ext && ext in s.pool.evicted && CannotPlace(s.pool, spawned))
  {
  }

  lemma CreatedConserves(s: System, rid: nat, x: ExternalSid, back: BackendSid, slot: nat, cwd: Path,
                         frontend: FrontendId, now: Instant, ext: ExternalSid)
    requires Known(s, ext) && rid in s.transit && !s.transit[rid].Reloading?
    ensures Known(Created(s, rid, x, back, slot, cwd, frontend, now), ext)
  {
    KnownGrows(s, Created(s, rid, x, back, slot, cwd, frontend, now), ext);
  }

  lemma ReloadedConserves(s: System, rid: nat, now: Instant, ext: ExternalSid)
    requires Known(s, ext) && rid in s.transit && s.transit[rid].Reloading?
    ensures Known(Reloaded(s, rid, now), ext)
  {
    KnownGrows(s, Reloaded(s, rid, now), ext);
  }

  lemma ParkConserves(s: System, pool: Pool, gone: set<ExternalSid>, now: Instant, ext: ExternalSid)
    requires Known(s, ext) && gone <= s.pool.sessions.Keys
    requires pool.sessions == Park(s.pool, gone, now).sessions && pool.evicted == Park(s.pool, gone, now).evicted
    ensures Known(s.(pool := pool), ext)
  {
    assert forall r | Reloads(s, r) :: Reloads(s.(pool := pool), r);
    KnownGrows(s, s.(pool := pool), ext);
  }

  lemma MoveConserves(s: System, e: Event, ext: ExternalSid)
    requires Consistent(s) && Enabled(s, e) && Known(s, ext)
    requires e.CreateReplied? || e.ForkReplied? || e.ReloadReplied? || e.IdleEvicted? || e.BackendDied?
    ensures Known(Step(s, e), ext)
  {
    match e {
      case IdleEvicted(now, timeout) =>
        ParkConserves(s, EvictIdle(s.pool, now, timeout), IdleSessions(s.pool, now, timeout), now, ext);
      case BackendDied(slot, now) =>
        ParkConserves(s, BackendDeath(s.pool, slot, now), SessionsOn(s.pool, slot), now, ext);
      case CreateReplied(rid, x, back, now) =>
        CreatedConserves(s, rid, x, back, s.transit[rid].slot, s.transit[rid].cwd, s.transit[rid].frontend, now, ext);
      case ForkReplied(rid, x, back, now) =>
        CreatedConserves(s, rid, x, back, s.transit[rid].slot, s.transit[rid].cwd, s.transit[rid].frontend, now, ext);
      case ReloadReplied(rid, now) => ReloadedConserves(s, rid, now, ext);
    }
  }

  /** Main result: an event makes a known session unknown exactly when `Loses` says so beforehand. */
  lemma LostExactlyWhen(s: System, e: Event, ext: ExternalSid)
    requires Consistent(s) && Enabled(s, e) && Known(s, ext)
    ensures Known(Step(s, e), ext) <==> !Loses(s, e, ext)
  {
    if Quiet(e) {
      QuietConserves(s, e, ext);
    } else {
      match e {
        case StartLoad(rid, x, frontend, spawned) => LoadConserves(s, rid, x, frontend, spawned, ext);
        case StartPrompt(rid, x, frontend, authorized, spawned, now) =>
          PromptEventConserves(s, rid, x, frontend, authorized, spawned, now, ext);
        case CloseReplied(rid) => CloseConserves(s, rid, ext);
        case Purged(_, keep) => PurgeConserves(s, keep, ext);
        case _ => MoveConserves(s, e, ext);
      }
    }
  }
}
