/**
 * How long a session that is used stays active. Over a run, it does exactly until it is closed, its slot
 * dies, or an eviction finds that its last use is as long ago as the timeout.
 */
module SessionActivity {
  import opened Wrappers
  import opened PoolModel
  import opened GatewaySystem
  import opened SessionDirectory
  import opened SessionEntries

  /** The session was used less than the timeout ago. */
  predicate InUse(p: Pool, ext: ExternalSid, timeout: nat, now: Instant) {
    ext in p.sessions && timeout > 0 && now < p.sessions[ext].lastActivity + timeout
  }

  /** Main result: an eviction keeps exactly the sessions used less than the timeout ago. */
  lemma EvictionKeepsTheUsed(p: Pool, now: Instant, timeout: nat, ext: ExternalSid)
    ensures ext in EvictIdle(p, now, timeout).sessions <==> InUse(p, ext, timeout, now)
    ensures ext in EvictIdle(p, now, timeout).sessions ==>
              EvictIdle(p, now, timeout).sessions[ext] == p.sessions[ext]
  {
  }

  /** The session is registered, or a prompt of it forwarded. */
  predicate Uses(s: System, e: Event, ext: ExternalSid)
    requires Enabled(s, e)
  {
    Forwards(s, e, ext) || (Registers(e) && Registered(s, e) == ext)
  }

  lemma UseIsRecorded(s: System, e: Event, ext: ExternalSid)
    requires Consistent(s) && Enabled(s, e) && Uses(s, e, ext)
    ensures var q := Step(s, e).pool; ext in q.sessions && q.sessions[ext].lastActivity == e.now
  {
    if Registers(e) {
      RegisteredTables(s, e);
    } else {
      EntriesChangeExactly(s, e, ext);
    }
  }

  // ----- Exactly how long -----

  /** When the session was last used, if that was at `since` before the event. */
  function LastUse(s: System, e: Event, ext: ExternalSid, since: Instant): Instant {
    if Forwards(s, e, ext) then e.now else since
  }

  /** The event ends the activity of a session last used at `since`. */
  predicate Ends(s: System, e: Event, ext: ExternalSid, since: Instant) {
    || Closes(s, e, ext)
    || (e.BackendDied? && ext in s.pool.sessions && e.slot == s.pool.sessions[ext].slotIndex)
    || (e.IdleEvicted? && (e.timeout == 0 || since + e.timeout <= e.now))
  }

  ghost predicate NeverEnds(s: System, es: seq<Event>, ext: ExternalSid, since: Instant)
    requires Run(s, es)
    decreases |es|
  {
    es == []
    || (!Ends(s, es[0], ext, since) && NeverEnds(Step(s, es[0]), es[1..], ext, LastUse(s, es[0], ext, since)))
  }

  ghost predicate AlwaysActive(s: System, es: seq<Event>, ext: ExternalSid)
    requires Run(s, es)
    decreases |es|
  {
    ext in s.pool.sessions && (es == [] || AlwaysActive(Step(s, es[0]), es[1..], ext))
  }

  lemma {:induction false} ActiveFromSince(s: System, es: seq<Event>, ext: ExternalSid, since: Instant)
    requires Consistent(s) && Run(s, es)
    requires ext in s.pool.sessions && s.pool.sessions[ext].lastActivity == since
    ensures AlwaysActive(s, es, ext) <==> NeverEnds(s, es, ext, since)
    decreases |es|
  {
    if es != [] {
      var t := Step(s, es[0]);
      EntriesChangeExactly(s, es[0], ext);
      StepKeepsConsistent(s, es[0]);
      if Ends(s, es[0], ext, since) {
        assert !AlwaysActive(t, es[1..], ext);
      } else {
        ActiveFromSince(t, es[1..], ext, LastUse(s, es[0], ext, since));
      }
    }
  }

  /**
   * Main result: from its registration or a forwarded prompt on, a session is active throughout a run
   * exactly when nothing ends it, its last use counted from there by the prompts forwarded since.
   */
  lemma ActiveUntilUnused(s: System, use: Event, es: seq<Event>, ext: ExternalSid)
    requires Consistent(s) && Enabled(s, use) && Uses(s, use, ext) && Run(Step(s, use), es)
    ensures AlwaysActive(Step(s, use), es, ext) <==> NeverEnds(Step(s, use), es, ext, use.now)
  {
    UseIsRecorded(s, use, ext);
    StepKeepsConsistent(s, use);
    ActiveFromSince(Step(s, use), es, ext, use.now);
  }

  // ----- With a clock that does not go back -----

  /**
   * No close of the session is answered and its slot does not die; evictions come before the timeout
   * counted from `since`, and prompts no earlier than that.
   */
  predicate Spares(s: System, e: Event, ext: ExternalSid, since: Instant) {
    && !Closes(s, e, ext)
    && (e.BackendDied? && ext in s.pool.sessions ==> e.slot != s.pool.sessions[ext].slotIndex)
    && (e.IdleEvicted? ==> e.timeout > 0 && e.now < since + e.timeout)
    && (e.StartPrompt? ==> since <= e.now)
  }

  ghost predicate Spared(s: System, es: seq<Event>, ext: ExternalSid, since: Instant)
    requires Run(s, es)
    decreases |es|
  {
    es == [] || (Spares(s, es[0], ext, since) && Spared(Step(s, es[0]), es[1..], ext, since))
  }

  lemma {:induction false} SafeWhileSpared(s: System, es: seq<Event>, ext: ExternalSid, since: Instant)
    requires Consistent(s) && Run(s, es) && Spared(s, es, ext, since)
    requires ext in s.pool.sessions && since <= s.pool.sessions[ext].lastActivity
    ensures ext in After(s, es).pool.sessions
    decreases |es|
  {
    if es != [] {
      EntriesChangeExactly(s, es[0], ext);
      StepKeepsConsistent(s, es[0]);
      SafeWhileSpared(Step(s, es[0]), es[1..], ext, since);
    }
  }

  /** So a session used at some instant is still active after any run of events that spare it. */
  lemma SafeAfterUse(s: System, use: Event, es: seq<Event>, ext: ExternalSid)
    requires Consistent(s) && Enabled(s, use) && Uses(s, use, ext)
    requires Run(Step(s, use), es) && Spared(Step(s, use), es, ext, use.now)
    ensures ext in After(Step(s, use), es).pool.sessions
  {
    UseIsRecorded(s, use, ext);
    StepKeepsConsistent(s, use);
    SafeWhileSpared(Step(s, use), es, ext, use.now);
  }
}
