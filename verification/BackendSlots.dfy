/**
 * When a slot gets, loses and lets go its backend. With exact counters a Dedicated slot is freed by an
 * answered close of its only session, an eviction of one of its sessions, or the death of its backend,
 * and by nothing else; a least-connections slot is never freed.
 */
module BackendSlots {
  import opened Wrappers
  import opened PoolModel
  import opened GatewaySystem
  import opened SessionDirectory
  import opened SlotAccounting

  /** Another session than `ext` is on the slot. */
  ghost predicate Shared(p: Pool, ext: ExternalSid, i: nat) {
    exists other :: other in p.sessions && other != ext && p.sessions[other].slotIndex == i
  }

  /** The event closes the only session of the slot, or evicts one of its sessions. */
  ghost predicate Vacates(s: System, e: Event, i: nat)
    requires Enabled(s, e)
  {
    var p := s.pool;
    || (e.CloseReplied? && var ext := s.transit[e.rid].ext;
        ext in p.sessions && p.sessions[ext].slotIndex == i && !Shared(p, ext, i))
    || (e.IdleEvicted? && exists ext ::
          ext in p.sessions && p.sessions[ext].slotIndex == i
          && (e.timeout == 0 || p.sessions[ext].lastActivity + e.timeout <= e.now))
  }

  ghost predicate Frees(s: System, e: Event, i: nat)
    requires Enabled(s, e)
  {
    s.pool.strategy.Dedicated? && (Vacates(s, e, i) || (e.BackendDied? && e.slot == i))
  }

  // ----- An answered close -----

  lemma SoleSession(p: Pool, ext: ExternalSid, i: nat)
    requires ext in p.sessions && p.sessions[ext].slotIndex == i
    ensures |SessionsOn(p, i)| >= 1
    ensures |SessionsOn(p, i)| == 1 <==> !Shared(p, ext, i)
  {
    var on := SessionsOn(p, i);
    assert ext in on;
    assert on == {ext} + (on - {ext});
    if other :| other in p.sessions && other != ext && p.sessions[other].slotIndex == i {
      assert other in on - {ext};
    } else {
      assert on - {ext} == {};
    }
  }

  /**
   * Main result: after an answered close of an active session its slot is empty exactly, in Dedicated
   * mode, when no other session is on it; else its backend counts the others. No other slot changes.
   */
  lemma CloseFreesExactly(p: Pool, ext: ExternalSid, i: nat)
    requires Exact(p) && ext in p.sessions && i < |p.slots|
    ensures var q, on := Remove(p, ext), p.sessions[ext].slotIndex == i;
            && |q.slots| == |p.slots|
            && q.slots[i] == if !on || p.slots[i].None? then p.slots[i]
                             else if p.strategy.Dedicated? && !Shared(p, ext, i) then None
                             else Some(Slot(|SessionsOn(q, i)|, p.slots[i].value.alive))
  {
    if p.sessions[ext].slotIndex == i {
      SoleSession(p, ext, i);
      RemoveCounts(p, ext, i);
    }
  }

  // ----- Every event -----

  lemma EvictedOn(p: Pool, now: Instant, timeout: nat, i: nat)
    ensures IdleSessions(p, now, timeout) * SessionsOn(p, i) != {} <==>
            exists ext :: ext in p.sessions && p.sessions[ext].slotIndex == i
                          && (timeout == 0 || p.sessions[ext].lastActivity + timeout <= now)
  {
    if ext :| ext in p.sessions && p.sessions[ext].slotIndex == i
              && (timeout == 0 || p.sessions[ext].lastActivity + timeout <= now) {
      assert ext in IdleSessions(p, now, timeout) * SessionsOn(p, i);
    } else {
      assert IdleSessions(p, now, timeout) * SessionsOn(p, i) == {};
    }
  }

  /** Both the slot's backend and whether it is alive. */
  ghost predicate SlotAfter(p: Pool, q: Pool, i: nat, spawned: bool, freed: bool, died: bool) {
    && (Populated(q.slots, i) <==> spawned || (Populated(p.slots, i) && !freed))
    && (Alive(q.slots, i) <==> spawned || (Alive(p.slots, i) && !freed && !died))
  }

  lemma RegisterSlots(p: Pool, ext: ExternalSid, back: BackendSid, slot: nat, cwd: Path, frontend: FrontendId,
                      now: Instant, i: nat)
    ensures SlotAfter(p, Register(p, ext, back, slot, cwd, frontend, now), i, false, false, false)
  {
  }

  lemma AnswerSlots(s: System, e: Event, i: nat)
    requires Enabled(s, e) && Registers(e)
    ensures SlotAfter(s.pool, Step(s, e).pool, i, false, false, false)
  {
    var r := s.transit[e.rid];
    if e.ReloadReplied? {
      RegisterSlots(s.pool, r.ext, r.entry.backendSid, r.slot, r.entry.cwd, r.frontend, e.now, i);
    } else {
      RegisterSlots(s.pool, e.ext, e.back, r.slot, r.cwd, r.frontend, e.now, i);
    }
  }

  lemma CloseSlots(p: Pool, ext: ExternalSid, i: nat)
    requires Exact(p)
    ensures SlotAfter(p, Remove(p, ext), i, false,
                      p.strategy.Dedicated? && ext in p.sessions && p.sessions[ext].slotIndex == i
                      && !Shared(p, ext, i), false)
  {
    if ext in p.sessions && i < |p.slots| {
      CloseFreesExactly(p, ext, i);
    }
  }

  lemma EvictSlots(p: Pool, now: Instant, timeout: nat, i: nat)
    ensures SlotAfter(p, EvictIdle(p, now, timeout), i, false,
                      p.strategy.Dedicated? && IdleSessions(p, now, timeout) * SessionsOn(p, i) != {}, false)
  {
  }

  lemma DeathSlots(p: Pool, slot: nat, now: Instant, i: nat)
    ensures SlotAfter(p, BackendDeath(p, slot, now), i, false, p.strategy.Dedicated? && slot == i, slot == i)
  {
  }

  lemma SpawnSlots(p: Pool, q: Pool, at: Option<nat>, i: nat)
    requires q.slots == SpawnedInto(p, at)
    ensures SlotAfter(p, q, i, at == Some(i), false, false)
  {
  }

  lemma CountingSlots(s: System, e: Event, i: nat)
    requires Enabled(s, e) && Exact(s.pool) && Counting(e)
    ensures SlotAfter(s.pool, Step(s, e).pool, i, false, Frees(s, e, i), e.BackendDied? && e.slot == i)
  {
    if Registers(e) {
      AnswerSlots(s, e, i);
    } else if e.CloseReplied? {
      CloseSlots(s.pool, s.transit[e.rid].ext, i);
    } else if e.IdleEvicted? {
      EvictedOn(s.pool, e.now, e.timeout, i);
      EvictSlots(s.pool, e.now, e.timeout, i);
    } else {
      DeathSlots(s.pool, e.slot, e.now, i);
    }
  }

  /**
   * Main result: a slot holds a backend after an event exactly when one is spawned into it, or it held
   * one that the event does not free; and a live one exactly when, besides, it does not die.
   */
  lemma SlotsChangeExactly(s: System, e: Event, i: nat)
    requires Enabled(s, e) && Exact(s.pool)
    ensures var p, q := s.pool, Step(s, e).pool;
            && (Populated(q.slots, i) <==> Spawns(s, e) == Some(i) || (Populated(p.slots, i) && !Frees(s, e, i)))
            && (Alive(q.slots, i) <==>
                  || Spawns(s, e) == Some(i)
                  || (Alive(p.slots, i) && !Frees(s, e, i) && !(e.BackendDied? && e.slot == i)))
  {
    if Counting(e) {
      CountingSlots(s, e, i);
    } else {
      OtherEventsUse(s, e);
      SpawnSlots(s.pool, Step(s, e).pool, Spawns(s, e), i);
    }
  }
}
