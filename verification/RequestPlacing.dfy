/**
 * Requests that have been given a slot and wait for their answer. Whatever starts them, the slot is
 * the one selection chooses at that moment.
 */
module RequestPlacing {
  import opened Wrappers
  import opened PoolModel
  import opened GatewaySystem
  import opened SlotAccounting

  /** The request has been given a slot on which it has not registered a session yet. */
  ghost predicate Placing(s: System, rid: nat) {
    rid in s.transit && (s.transit[rid].Creating? || s.transit[rid].Reloading?)
  }

  /** A request newly given a slot was given the selected one. */
  ghost predicate PlacedWell(s: System, t: System, started: bool) {
    && (forall rid | Placing(t, rid) ::
          (Placing(s, rid) && t.transit[rid].slot == s.transit[rid].slot)
          || (started && SelectSlot(s.pool) == Some(t.transit[rid].slot)))
    && (forall r1, r2 | Placing(t, r1) && Placing(t, r2) && !Placing(s, r1) && !Placing(s, r2) :: r1 == r2)
  }

  ghost predicate NoNewFork(s: System, t: System) {
    forall rid | rid in t.transit && t.transit[rid].Forking? :: rid in s.transit && s.transit[rid].Forking?
  }

  ghost predicate Starts(e: Event) {
    e.StartNew? || e.StartLoad? || e.StartPrompt?
  }

  lemma AwaitPlaced(s: System, pool: Pool, rid: nat, request: Option<Request>, started: bool)
    requires rid !in s.transit
    requires request.Some? && (request.value.Creating? || request.value.Reloading?) ==>
               started && SelectSlot(s.pool) == Some(request.value.slot)
    requires request.Some? ==> !request.value.Forking?
    ensures PlacedWell(s, Await(s, pool, rid, request), started) && NoNewFork(s, Await(s, pool, rid, request))
  {
  }

  lemma ReloadPlaced(s: System, pool: Pool, rid: nat, ext: ExternalSid, frontend: FrontendId, spawned: bool,
                     prompting: bool, done: Pool)
    requires SameShape(s.pool, pool) && rid !in s.transit
    requires done.slots == Reload(pool, ext, frontend, spawned, prompting).0.slots
    ensures var t := Await(s, done, rid, Reload(pool, ext, frontend, spawned, prompting).1);
            PlacedWell(s, t, true) && NoNewFork(s, t)
  {
    assert SelectSlot(TakeEvicted(pool, ext)) == SelectSlot(s.pool);
    AwaitPlaced(s, done, rid, Reload(pool, ext, frontend, spawned, prompting).1, true);
  }

  lemma PromptPlaced(s: System, e: Event)
    requires Enabled(s, e) && e.StartPrompt?
    ensures PlacedWell(s, Step(s, e), true) && NoNewFork(s, Step(s, e))
  {
    if e.authorized {
      var recorded := RecordSender(s.pool, e.ext, e.frontend);
      RecordSenderShape(s.pool, e.ext, e.frontend);
      if e.ext !in s.pool.inFlight {
        var begun := BeginPrompt(recorded, e.ext, e.frontend);
        BeginPromptShape(recorded, e.ext, e.frontend);
        if Resolves(begun, e.ext) {
          AwaitPlaced(s, Touch(begun, e.ext, e.now), e.rid, Some(Prompting(e.ext)), true);
        } else {
          var reload := Reload(begun, e.ext, e.frontend, e.spawned, true);
          ReloadPlaced(s, begun, e.rid, e.ext, e.frontend, e.spawned, true,
                       if reload.1.Some? then reload.0 else EndPrompt(reload.0, e.ext));
        }
      }
    }
  }

  lemma LoadPlaced(s: System, rid: nat, ext: ExternalSid, frontend: FrontendId, spawned: bool)
    requires rid !in s.transit
    ensures var t := LoadStarted(s, rid, ext, frontend, spawned); PlacedWell(s, t, true) && NoNewFork(s, t)
  {
    var recorded := RecordSender(s.pool, ext, frontend);
    RecordSenderShape(s.pool, ext, frontend);
    if !Resolves(recorded, ext) {
      ReloadPlaced(s, recorded, rid, ext, frontend, spawned, false,
                   Reload(recorded, ext, frontend, spawned, false).0);
    }
  }

  lemma QuietPlaced(s: System, e: Event)
    requires Enabled(s, e) && !Counting(e) && !Starts(e)
    ensures PlacedWell(s, Step(s, e), false)
    ensures !(e.StartFork? && Resolves(s.pool, e.ext)) ==> NoNewFork(s, Step(s, e))
  {
    match e {
      case StartFork(_, ext, _, frontend) => RecordSenderShape(s.pool, ext, frontend);
      case _ =>
    }
  }

  lemma NewPlaced(s: System, e: Event)
    requires Enabled(s, e) && e.StartNew?
    ensures PlacedWell(s, Step(s, e), true) && NoNewFork(s, Step(s, e))
  {
    var placed := AssignSlot(s.pool, e.spawned);
    AwaitPlaced(s, placed.0, e.rid,
                if placed.1.Some? then Some(Creating(placed.1.value.0, e.cwd, e.frontend, placed.1.value.1)) else None,
                true);
  }

  lemma OtherEventsPlaced(s: System, e: Event)
    requires Enabled(s, e) && !Counting(e)
    ensures PlacedWell(s, Step(s, e), Starts(e))
    ensures !(e.StartFork? && Resolves(s.pool, e.ext)) ==> NoNewFork(s, Step(s, e))
  {
    if !Starts(e) {
      QuietPlaced(s, e);
    } else if e.StartNew? {
      NewPlaced(s, e);
    } else if e.StartLoad? {
      LoadPlaced(s, e.rid, e.ext, e.frontend, e.spawned);
    } else {
      PromptPlaced(s, e);
    }
  }
}
