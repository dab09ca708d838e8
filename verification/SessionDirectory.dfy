/**
 * Where each session is. In every interleaving an external id is in at most one place (active,
 * evicted, or taken out for a reload), it keeps its backend id and working directory for life, and
 * the two lookup tables are inverse to each other.
 */
module SessionDirectory {
  import opened Wrappers
  import opened PoolModel
  import opened GatewaySystem

  datatype Place = Active(ext: ExternalSid) | Evicted(ext: ExternalSid) | InReload(rid: nat)

  /** `place` holds session `ext` with the given backend id and working directory. */
  predicate Holds(s: System, place: Place, ext: ExternalSid, b: Binding) {
    match place
    case Active(x) =>
      x == ext && ext in s.pool.sessions && b == Binding(s.pool.sessions[ext].backendSid, s.pool.sessions[ext].cwd)
    case Evicted(x) =>
      x == ext && ext in s.pool.evicted && b == Binding(s.pool.evicted[ext].backendSid, s.pool.evicted[ext].cwd)
    case InReload(rid) =>
      && rid in s.transit && s.transit[rid].Reloading? && s.transit[rid].ext == ext
      && b == Binding(s.transit[rid].entry.backendSid, s.transit[rid].entry.cwd)
  }

  /** `sessions` and `reverse` are inverse bijections. */
  ghost predicate Inverse(p: Pool) {
    && (forall ext | ext in p.sessions ::
          p.sessions[ext].backendSid in p.reverse && p.reverse[p.sessions[ext].backendSid] == ext)
    && (forall back | back in p.reverse ::
          p.reverse[back] in p.sessions && p.sessions[p.reverse[back]].backendSid == back)
  }

  ghost predicate OneToOne(s: System) {
    forall x, y | x in s.bound && y in s.bound && s.bound[x].backendSid == s.bound[y].backendSid :: x == y
  }

  ghost predicate Reloads(s: System, rid: nat) {
    rid in s.transit && s.transit[rid].Reloading?
  }

  ghost predicate ReloadsApart(s: System) {
    && (forall rid | Reloads(s, rid) ::
          s.transit[rid].ext !in s.pool.sessions && s.transit[rid].ext !in s.pool.evicted)
    && (forall r1, r2 | Reloads(s, r1) && Reloads(s, r2) && s.transit[r1].ext == s.transit[r2].ext :: r1 == r2)
  }

  ghost predicate KeepsBindings(s: System) {
    && (forall ext | ext in s.pool.sessions ::
          ext in s.bound && s.bound[ext] == Binding(s.pool.sessions[ext].backendSid, s.pool.sessions[ext].cwd))
    && (forall ext | ext in s.pool.evicted ::
          ext in s.bound && s.bound[ext] == Binding(s.pool.evicted[ext].backendSid, s.pool.evicted[ext].cwd))
    && (forall rid | Reloads(s, rid) ::
          var r := s.transit[rid];
          r.ext in s.bound && s.bound[r.ext] == Binding(r.entry.backendSid, r.entry.cwd))
  }

  ghost predicate Consistent(s: System) {
    && s.pool.sessions.Keys !! s.pool.evicted.Keys
    && ReloadsApart(s)
    && KeepsBindings(s)
    && OneToOne(s)
    && Inverse(s.pool)
  }

  // ----- What consistency means for places -----

  /** No session, and no backend id, is ever in two places. */
  lemma OnePlaceEach(s: System, p: Place, q: Place, x: ExternalSid, y: ExternalSid, b: Binding, c: Binding)
    requires Consistent(s) && Holds(s, p, x, b) && Holds(s, q, y, c)
    ensures x == y <==> p == q
    ensures b.backendSid == c.backendSid <==> p == q
  {
    assert s.bound[x] == b && s.bound[y] == c;
    if p.InReload? && q.InReload? {
      assert Reloads(s, p.rid) && Reloads(s, q.rid);
    } else if p.InReload? {
      assert Reloads(s, p.rid);
    } else if q.InReload? {
      assert Reloads(s, q.rid);
    }
  }

  // ----- Register -----

  /** Registering keeps the tables inverse exactly when neither id is already taken by another. */
  lemma RegisterKeepsInverse(p: Pool, ext: ExternalSid, back: BackendSid, slot: nat, cwd: Path,
                             frontend: FrontendId, now: Instant)
    requires Inverse(p)
    ensures Inverse(Register(p, ext, back, slot, cwd, frontend, now)) <==>
            (ext in p.sessions ==> p.sessions[ext].backendSid == back)
            && (back in p.reverse ==> p.reverse[back] == ext)
  {
    var q := Register(p, ext, back, slot, cwd, frontend, now);
    if ext in p.sessions && p.sessions[ext].backendSid != back {
      var prior := p.sessions[ext].backendSid;
      assert prior in q.reverse && q.reverse[prior] == ext;
    }
    if back in p.reverse && p.reverse[back] != ext {
      var victim := p.reverse[back];
      assert victim in q.sessions && q.sessions[victim].backendSid == back;
    }
  }

  /** Where the session `ext` is not yet, or is held only by the request that ends. */
  ghost predicate Vacant(s: System, ext: ExternalSid, b: Binding, transit: map<nat, Request>) {
    && ext !in s.pool.sessions && ext !in s.pool.evicted
    && (if ext in s.bound then s.bound[ext] == b else Fresh(s, ext, b.backendSid))
    && forall r | r in transit && transit[r].Reloading? ::
         Reloads(s, r) && transit[r] == s.transit[r] && transit[r].ext != ext
  }

  lemma VacantBackend(s: System, ext: ExternalSid, b: Binding, transit: map<nat, Request>)
    requires Consistent(s) && Vacant(s, ext, b, transit)
    ensures b.backendSid !in s.pool.reverse
  {
    forall back | back in s.pool.reverse
      ensures s.pool.reverse[back] != ext && s.bound[s.pool.reverse[back]].backendSid == back
    {
    }
  }

  lemma RegisterKeepsBindings(s: System, ext: ExternalSid, b: Binding, transit: map<nat, Request>, pool: Pool)
    requires KeepsBindings(s) && Vacant(s, ext, b, transit)
    requires pool.evicted == s.pool.evicted && pool.sessions.Keys == s.pool.sessions.Keys + {ext}
    requires forall x | x in s.pool.sessions :: pool.sessions[x] == s.pool.sessions[x]
    requires Binding(pool.sessions[ext].backendSid, pool.sessions[ext].cwd) == b
    ensures KeepsBindings(System(pool, transit, s.bound[ext := b]))
  {
    var t := System(pool, transit, s.bound[ext := b]);
    assert forall r | Reloads(t, r) :: Reloads(s, r) && transit[r] == s.transit[r];
  }

  lemma RegisterKeepsApart(s: System, ext: ExternalSid, b: Binding, transit: map<nat, Request>, pool: Pool)
    requires ReloadsApart(s) && Vacant(s, ext, b, transit)
    requires pool.evicted == s.pool.evicted && pool.sessions.Keys == s.pool.sessions.Keys + {ext}
    ensures ReloadsApart(System(pool, transit, s.bound[ext := b]))
  {
    var t := System(pool, transit, s.bound[ext := b]);
    assert forall r | Reloads(t, r) :: Reloads(s, r) && transit[r] == s.transit[r];
  }

  lemma RegisterConsistent(s: System, ext: ExternalSid, b: Binding, slot: nat, frontend: FrontendId,
                           now: Instant, transit: map<nat, Request>)
    requires Consistent(s) && Vacant(s, ext, b, transit)
    ensures Consistent(System(
                         Register(s.pool, ext, b.backendSid, slot, b.cwd, frontend, now), transit, s.bound[ext := b]))
  {
    var pool := Register(s.pool, ext, b.backendSid, slot, b.cwd, frontend, now);
    VacantBackend(s, ext, b, transit);
    RegisterKeepsInverse(s.pool, ext, b.backendSid, slot, b.cwd, frontend, now);
    RegisterKeepsBindings(s, ext, b, transit, pool);
    RegisterKeepsApart(s, ext, b, transit, pool);
  }

  // ----- Parking, and updates that keep every place as it is -----

  lemma ParkConsistent(s: System, gone: set<ExternalSid>, now: Instant)
    requires Consistent(s) && gone <= s.pool.sessions.Keys
    ensures Consistent(s.(pool := Park(s.pool, gone, now)))
  {
    ParkInverse(s.pool, gone, now);
    ParkElsewhere(s, gone, now);
  }

  lemma ParkInverse(p: Pool, gone: set<ExternalSid>, now: Instant)
    requires Inverse(p) && gone <= p.sessions.Keys
    ensures Inverse(Park(p, gone, now))
  {
    var q := Park(p, gone, now);
    forall ext | ext in q.sessions
      ensures q.sessions[ext].backendSid in q.reverse && q.reverse[q.sessions[ext].backendSid] == ext
    {
      assert p.sessions[ext].backendSid !in BackendsOf(p, gone);
    }
    forall back | back in q.reverse
      ensures q.reverse[back] in q.sessions && q.sessions[q.reverse[back]].backendSid == back
    {
      assert p.reverse[back] in gone ==> back in BackendsOf(p, gone);
    }
  }

  lemma ParkElsewhere(s: System, gone: set<ExternalSid>, now: Instant)
    requires Consistent(s) && gone <= s.pool.sessions.Keys
    ensures var t := s.(pool := Park(s.pool, gone, now));
            t.pool.sessions.Keys !! t.pool.evicted.Keys && ReloadsApart(t) && KeepsBindings(t) && OneToOne(t)
  {
    var t := s.(pool := Park(s.pool, gone, now));
    assert forall r | Reloads(t, r) :: Reloads(s, r);
  }

  /** The pool changed only in fields the directory does not look at. */
  ghost predicate SamePlaces(p: Pool, q: Pool) {
    && q.sessions.Keys == p.sessions.Keys && q.evicted.Keys == p.evicted.Keys && q.reverse == p.reverse
    && (forall ext | ext in p.sessions ::
          q.sessions[ext].backendSid == p.sessions[ext].backendSid && q.sessions[ext].cwd == p.sessions[ext].cwd)
    && (forall ext | ext in p.evicted ::
          q.evicted[ext].backendSid == p.evicted[ext].backendSid && q.evicted[ext].cwd == p.evicted[ext].cwd)
  }

  ghost predicate FewerReloads(s: System, transit: map<nat, Request>) {
    forall rid | rid in transit && transit[rid].Reloading? ::
      && Reloads(s, rid) && transit[rid].ext == s.transit[rid].ext && transit[rid].entry == s.transit[rid].entry
  }

  lemma SamePlacesConsistent(s: System, pool: Pool, transit: map<nat, Request>)
    requires Consistent(s) && SamePlaces(s.pool, pool) && FewerReloads(s, transit)
    ensures Consistent(System(pool, transit, s.bound))
  {
    var t := System(pool, transit, s.bound);
    assert forall rid | Reloads(t, rid) :: Reloads(s, rid);
  }

  lemma ForgetConsistent(s: System, pool: Pool)
    requires Consistent(s) && pool.evicted.Keys <= s.pool.evicted.Keys
    requires forall ext | ext in pool.evicted :: pool.evicted[ext] == s.pool.evicted[ext]
    requires pool.sessions == s.pool.sessions && pool.reverse == s.pool.reverse
    ensures Consistent(s.(pool := pool))
  {
    assert forall rid | Reloads(s.(pool := pool), rid) :: Reloads(s, rid);
  }

  lemma RecordSenderPlaces(p: Pool, ext: ExternalSid, frontend: FrontendId)
    ensures SamePlaces(p, RecordSender(p, ext, frontend))
  {
  }

  lemma AssignSlotPlaces(p: Pool, spawned: bool)
    ensures SamePlaces(p, AssignSlot(p, spawned).0)
  {
  }

  // ----- Reload: from the evicted table into the request -----

  lemma TakenApart(s: System, rid: nat, request: Request)
    requires Consistent(s) && rid !in s.transit
    requires request.Reloading? && request.ext in s.pool.evicted
    ensures ReloadsApart(Await(s, TakeEvicted(s.pool, request.ext), rid, Some(request)))
  {
    var t := Await(s, TakeEvicted(s.pool, request.ext), rid, Some(request));
    forall r | Reloads(t, r)
      ensures r == rid || (Reloads(s, r) && t.transit[r] == s.transit[r] && t.transit[r].ext != request.ext)
    {
      if r != rid {
        assert Reloads(s, r);
      }
    }
  }

  lemma TakeConsistent(s: System, rid: nat, request: Request)
    requires Consistent(s) && rid !in s.transit
    requires request.Reloading? && request.ext in s.pool.evicted && request.entry == s.pool.evicted[request.ext]
    ensures Consistent(Await(s, TakeEvicted(s.pool, request.ext), rid, Some(request)))
  {
    var t := Await(s, TakeEvicted(s.pool, request.ext), rid, Some(request));
    TakenApart(s, rid, request);
    assert forall r | Reloads(t, r) && r != rid :: Reloads(s, r) && t.transit[r] == s.transit[r];
  }

  lemma ReloadConsistent(s: System, rid: nat, pool: Pool, ext: ExternalSid, frontend: FrontendId,
                         spawned: bool, prompting: bool, done: Pool)
    requires Consistent(s) && rid !in s.transit && SamePlaces(s.pool, pool)
    requires SamePlaces(Reload(pool, ext, frontend, spawned, prompting).0, done)
    ensures Consistent(Await(s, done, rid, Reload(pool, ext, frontend, spawned, prompting).1))
  {
    SamePlacesConsistent(s, pool, s.transit);
    var s0 := System(pool, s.transit, s.bound);
    ReloadTakes(pool, ext, frontend, spawned, prompting, done);
    if ext !in pool.evicted {
      SamePlacesConsistent(s0, done, s.transit);
    } else {
      TakenConsistent(s0, rid, ext, Reload(pool, ext, frontend, spawned, prompting).1, done);
    }
  }

  lemma ReloadTakes(pool: Pool, ext: ExternalSid, frontend: FrontendId, spawned: bool, prompting: bool, done: Pool)
    requires SamePlaces(Reload(pool, ext, frontend, spawned, prompting).0, done)
    ensures ext !in pool.evicted ==> SamePlaces(pool, done) && Reload(pool, ext, frontend, spawned, prompting).1.None?
    ensures ext in pool.evicted ==>
              var request := Reload(pool, ext, frontend, spawned, prompting).1;
              && SamePlaces(TakeEvicted(pool, ext), done)
              && (request.Some? ==>
                    request.value.Reloading? && request.value.ext == ext && request.value.entry == pool.evicted[ext])
  {
    if ext in pool.evicted {
      var taken := TakeEvicted(pool, ext);
      AssignSlotPlaces(taken, spawned);
    }
  }

  /** The entry was taken, into the request or, when no slot was found, for good. */
  lemma TakenConsistent(s: System, rid: nat, ext: ExternalSid, request: Option<Request>, done: Pool)
    requires Consistent(s) && rid !in s.transit && ext in s.pool.evicted && SamePlaces(TakeEvicted(s.pool, ext), done)
    requires request.Some? ==>
               request.value.Reloading? && request.value.ext == ext && request.value.entry == s.pool.evicted[ext]
    ensures Consistent(Await(s, done, rid, request))
  {
    var taken := TakeEvicted(s.pool, ext);
    if request.None? {
      ForgetConsistent(s, taken);
      SamePlacesConsistent(s.(pool := taken), done, s.transit);
    } else {
      TakeConsistent(s, rid, request.value);
      SamePlacesConsistent(Await(s, taken, rid, request), done, s.transit[rid := request.value]);
    }
  }

  lemma LoadStartedConsistent(s: System, rid: nat, ext: ExternalSid, frontend: FrontendId, spawned: bool)
    requires Consistent(s) && rid !in s.transit
    ensures Consistent(LoadStarted(s, rid, ext, frontend, spawned))
  {
    var recorded := RecordSender(s.pool, ext, frontend);
    RecordSenderPlaces(s.pool, ext, frontend);
    if Resolves(recorded, ext) {
      SamePlacesConsistent(s, recorded, s.transit);
    } else {
      ReloadConsistent(s, rid, recorded, ext, frontend, spawned, false,
                       Reload(recorded, ext, frontend, spawned, false).0);
    }
  }

  lemma BeginPromptPlaces(p: Pool, ext: ExternalSid, frontend: FrontendId)
    requires ext !in p.inFlight
    ensures SamePlaces(p, BeginPrompt(p, ext, frontend))
  {
    RecordSenderPlaces(p.(inFlight := p.inFlight + {ext}, promptSenders := p.promptSenders[ext := frontend]),
                       ext, frontend);
  }

  lemma PromptBegunConsistent(s: System, begun: Pool, rid: nat, ext: ExternalSid, frontend: FrontendId,
                              spawned: bool, now: Instant)
    requires Consistent(s) && rid !in s.transit && SamePlaces(s.pool, begun)
    ensures Consistent(PromptBegun(s, begun, rid, ext, frontend, spawned, now))
  {
    if Resolves(begun, ext) {
      ForwardedConsistent(s, begun, rid, ext, now);
    } else {
      var reload := Reload(begun, ext, frontend, spawned, true);
      EndPromptPlaces(reload.0, ext);
      ReloadConsistent(s, rid, begun, ext, frontend, spawned, true,
                       if reload.1.Some? then reload.0 else EndPrompt(reload.0, ext));
    }
  }

  lemma EndPromptPlaces(p: Pool, ext: ExternalSid)
    ensures SamePlaces(p, EndPrompt(p, ext)) && SamePlaces(p, p)
  {
  }

  lemma ForwardedConsistent(s: System, begun: Pool, rid: nat, ext: ExternalSid, now: Instant)
    requires Consistent(s) && rid !in s.transit && SamePlaces(s.pool, begun)
    ensures Consistent(Await(s, Touch(begun, ext, now), rid, Some(Prompting(ext))))
  {
    TouchPlaces(begun, ext, now);
    SamePlacesConsistent(s, Touch(begun, ext, now), s.transit[rid := Prompting(ext)]);
  }

  lemma PromptStartedConsistent(
      s: System, rid: nat, ext: ExternalSid, frontend: FrontendId, spawned: bool, now: Instant)
    requires Consistent(s) && rid !in s.transit && ext !in s.pool.inFlight
    ensures Consistent(PromptStarted(s, rid, ext, frontend, spawned, now))
  {
    var recorded := RecordSender(s.pool, ext, frontend);
    RecordSenderPlaces(s.pool, ext, frontend);
    BeginPromptPlaces(recorded, ext, frontend);
    PromptBegunConsistent(s, BeginPrompt(recorded, ext, frontend), rid, ext, frontend, spawned, now);
  }

  lemma TouchPlaces(p: Pool, ext: ExternalSid, now: Instant)
    ensures SamePlaces(p, Touch(p, ext, now))
  {
  }

  lemma ReloadedConsistent(s: System, rid: nat, now: Instant)
    requires Consistent(s) && rid in s.transit && s.transit[rid].Reloading?
    ensures Consistent(Reloaded(s, rid, now))
  {
    var r := s.transit[rid];
    var b := Binding(r.entry.backendSid, r.entry.cwd);
    assert Reloads(s, rid) && s.bound[r.ext] == b;
    var transit := Reloaded(s, rid, now).transit;
    var pool := Register(s.pool, r.ext, b.backendSid, r.slot, b.cwd, r.frontend, now);
    RegisterConsistent(s, r.ext, b, r.slot, r.frontend, now, transit);
    assert s.bound[r.ext := b] == s.bound;
    TouchPlaces(pool, r.ext, now);
    if r.prompting {
      SamePlacesConsistent(System(pool, transit, s.bound), Touch(pool, r.ext, now), transit);
    }
  }

  lemma RemoveIsParkAndForget(p: Pool, ext: ExternalSid)
    requires ext in p.sessions && ext !in p.evicted
    ensures var parked, q := Park(p, {ext}, 0), Remove(p, ext);
            && q.sessions == parked.sessions && q.reverse == parked.reverse
            && q.evicted.Keys <= parked.evicted.Keys
            && forall x | x in q.evicted :: q.evicted[x] == parked.evicted[x]
  {
    assert BackendsOf(p, {ext}) == {p.sessions[ext].backendSid};
  }

  lemma RemoveConsistent(s: System, ext: ExternalSid, transit: map<nat, Request>)
    requires Consistent(s) && FewerReloads(s, transit)
    ensures Consistent(System(Remove(s.pool, ext), transit, s.bound))
  {
    SamePlacesConsistent(s, s.pool, transit);
    if ext in s.pool.sessions {
      var s0 := System(s.pool, transit, s.bound);
      ParkConsistent(s0, {ext}, 0);
      RemoveIsParkAndForget(s.pool, ext);
      ForgetConsistent(s0.(pool := Park(s.pool, {ext}, 0)), Remove(s.pool, ext));
    }
  }

  lemma EvictConsistent(s: System, now: Instant, timeout: nat)
    requires Consistent(s)
    ensures Consistent(s.(pool := EvictIdle(s.pool, now, timeout)))
  {
    var gone := IdleSessions(s.pool, now, timeout);
    ParkConsistent(s, gone, now);
    SamePlacesConsistent(s.(pool := Park(s.pool, gone, now)), EvictIdle(s.pool, now, timeout), s.transit);
  }

  lemma DeathConsistent(s: System, slot: nat, now: Instant)
    requires Consistent(s)
    ensures Consistent(s.(pool := BackendDeath(s.pool, slot, now)))
  {
    var gone := SessionsOn(s.pool, slot);
    ParkConsistent(s, gone, now);
    SamePlacesConsistent(s.(pool := Park(s.pool, gone, now)), BackendDeath(s.pool, slot, now), s.transit);
  }

  lemma CreatedConsistent(s: System, rid: nat, ext: ExternalSid, back: BackendSid, slot: nat, cwd: Path,
                          frontend: FrontendId, now: Instant)
    requires Consistent(s) && rid in s.transit && !s.transit[rid].Reloading? && Fresh(s, ext, back)
    ensures Consistent(Created(s, rid, ext, back, slot, cwd, frontend, now))
  {
    assert forall r | Reloads(s, r) :: s.transit[r].ext in s.bound;
    RegisterConsistent(s, ext, Binding(back, cwd), slot, frontend, now, s.transit - {rid});
  }

  // ----- Every event, and every run -----

  /** Events that move no session. */
  predicate Quiet(e: Event) {
    e.Initialize? || e.StartNew? || e.InitReplied? || e.StartFork? || e.StartClose? || e.RequestEnded?
    || e.SenderRecorded? || e.BackendSpawned?
  }

  lemma QuietRequests(s: System, e: Event)
    requires Enabled(s, e) && Quiet(e)
    ensures FewerReloads(s, Step(s, e).transit) && Step(s, e).bound == s.bound
  {
  }

  lemma SpawningPlaces(s: System, e: Event)
    requires Enabled(s, e) && (e.Initialize? || e.BackendSpawned?)
    ensures SamePlaces(s.pool, Step(s, e).pool)
  {
  }

  lemma FinishPlaces(s: System, rid: nat)
    requires rid in s.transit
    ensures SamePlaces(s.pool, Finish(s, rid).pool)
  {
  }

  lemma QuietPlaces(s: System, e: Event)
    requires Enabled(s, e) && Quiet(e)
    ensures SamePlaces(s.pool, Step(s, e).pool)
  {
    match e {
      case StartNew(rid, cwd, frontend, spawned) => AssignSlotPlaces(s.pool, spawned);
      case StartFork(rid, ext, cwd, frontend) => RecordSenderPlaces(s.pool, ext, frontend);
      case StartClose(rid, ext, frontend) => RecordSenderPlaces(s.pool, ext, frontend);
      case SenderRecorded(ext, frontend) => RecordSenderPlaces(s.pool, ext, frontend);
      case InitReplied(rid) => FinishPlaces(s, rid);
      case RequestEnded(rid) => FinishPlaces(s, rid);
      case _ => SpawningPlaces(s, e);
    }
  }

  lemma QuietStep(s: System, e: Event)
    requires Enabled(s, e) && Quiet(e)
    ensures SamePlaces(s.pool, Step(s, e).pool) && FewerReloads(s, Step(s, e).transit) && Step(s, e).bound == s.bound
  {
    QuietRequests(s, e);
    QuietPlaces(s, e);
  }

  lemma StepKeepsConsistent(s: System, e: Event)
    requires Consistent(s) && Enabled(s, e)
    ensures Consistent(Step(s, e))
  {
    if Quiet(e) {
      QuietStep(s, e);
      SamePlacesConsistent(s, Step(s, e).pool, Step(s, e).transit);
    } else {
      LoudStep(s, e);
    }
  }

  lemma LoudStep(s: System, e: Event)
    requires Consistent(s) && Enabled(s, e) && !Quiet(e)
    ensures Consistent(Step(s, e))
  {
    match e {
      case CreateReplied(rid, ext, back, now) =>
        var r := s.transit[rid];
        CreatedConsistent(s, rid, ext, back, r.slot, r.cwd, r.frontend, now);
      case ForkReplied(rid, ext, back, now) =>
        var r := s.transit[rid];
        CreatedConsistent(s, rid, ext, back, r.slot, r.cwd, r.frontend, now);
      case ReloadReplied(rid, now) =>
        ReloadedConsistent(s, rid, now);
      case StartLoad(rid, ext, frontend, spawned) =>
        LoadStartedConsistent(s, rid, ext, frontend, spawned);
      case StartPrompt(rid, ext, frontend, authorized, spawned, now) =>
        if authorized {
          if ext in s.pool.inFlight {
            RecordSenderPlaces(s.pool, ext, frontend);
            SamePlacesConsistent(s, RecordSender(s.pool, ext, frontend), s.transit);
          } else {
            PromptStartedConsistent(s, rid, ext, frontend, spawned, now);
          }
        }
      case CloseReplied(rid) => RemoveConsistent(s, s.transit[rid].ext, s.transit - {rid});
      case IdleEvicted(now, timeout) => EvictConsistent(s, now, timeout);
      case BackendDied(slot, now) => DeathConsistent(s, slot, now);
      case Purged(_, keep) => ForgetConsistent(s, KeepEvicted(s.pool, keep));
    }
  }

  /** Main result: every run from an empty pool stays consistent. */
  lemma {:induction false} RunKeepsConsistent(s: System, es: seq<Event>)
    requires Consistent(s) && Run(s, es)
    ensures Consistent(After(s, es))
    decreases |es|
  {
    if es != [] {
      StepKeepsConsistent(s, es[0]);
      RunKeepsConsistent(Step(s, es[0]), es[1..]);
    }
  }

  lemma {:induction false} RunKeepsBound(s: System, es: seq<Event>, ext: ExternalSid)
    requires Run(s, es) && ext in s.bound
    ensures ext in After(s, es).bound && After(s, es).bound[ext] == s.bound[ext]
    decreases |es|
  {
    if es != [] {
      RunKeepsBound(Step(s, es[0]), es[1..], ext);
    }
  }

  /** Main result: through evictions, crashes and reloads a session keeps its backend id and directory. */
  lemma BindingForLife(strategy: Strategy, poolSize: nat, es: seq<Event>, more: seq<Event>,
                       ext: ExternalSid, p: Place, b: Binding, q: Place, c: Binding)
    requires Run(Boot(strategy, poolSize), es)
    requires Run(After(Boot(strategy, poolSize), es), more)
    requires Holds(After(Boot(strategy, poolSize), es), p, ext, b)
    requires Holds(After(After(Boot(strategy, poolSize), es), more), q, ext, c)
    ensures b == c
  {
    var s := After(Boot(strategy, poolSize), es);
    RunKeepsConsistent(Boot(strategy, poolSize), es);
    RunKeepsConsistent(s, more);
    assert p.InReload? ==> Reloads(s, p.rid);
    assert q.InReload? ==> Reloads(After(s, more), q.rid);
    RunKeepsBound(s, more, ext);
  }

  /** Main result: in every reachable state no session and no backend id is in two places. */
  lemma NeverInTwoPlaces(strategy: Strategy, poolSize: nat, es: seq<Event>,
                         p: Place, q: Place, x: ExternalSid, y: ExternalSid, b: Binding, c: Binding)
    requires Run(Boot(strategy, poolSize), es)
    requires var s := After(Boot(strategy, poolSize), es); Holds(s, p, x, b) && Holds(s, q, y, c)
    ensures x == y <==> p == q
    ensures b.backendSid == c.backendSid <==> p == q
    ensures Inverse(After(Boot(strategy, poolSize), es).pool)
  {
    RunKeepsConsistent(Boot(strategy, poolSize), es);
    OnePlaceEach(After(Boot(strategy, poolSize), es), p, q, x, y, b, c);
  }
}
