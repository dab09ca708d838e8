/** One tick of the pool's maintenance loop: evict what is idle, then purge what is stale. */
module Maintenance {
  import opened Wrappers
  import opened PoolModel
  import opened SlotAccounting
  import GA = GatewayAgent
  import SA = SessionActivity

  const MAX_EVICTED: nat := 1000

  /** The pool after the tick, given which evicted entries the purge keeps. */
  ghost function Ticked(p: Pool, timeout: Option<nat>, now: Instant, keep: set<ExternalSid>): Pool {
    KeepEvicted(if timeout.Some? then EvictIdle(p, now, timeout.value) else p, keep)
  }

  ghost predicate TickKeeps(p: Pool, timeout: Option<nat>, now: Instant, keep: set<ExternalSid>) {
    NewestEvicted(if timeout.Some? then EvictIdle(p, now, timeout.value) else p, MAX_EVICTED, keep)
  }

  lemma TickActive(p: Pool, timeout: Option<nat>, now: Instant, keep: set<ExternalSid>)
    ensures forall ext | ext in p.sessions ::
              ext in Ticked(p, timeout, now, keep).sessions <==> timeout.None? || SA.InUse(p, ext, timeout.value, now)
  {
  }

  method Tick(gateway: GA.GatewayAgent, timeout: Option<nat>, now: Instant) returns (ghost keep: set<ExternalSid>)
    requires gateway.Valid()
    modifies gateway.pool
    ensures gateway.Valid()
    ensures TickKeeps(old(gateway.pool.State()), timeout, now, keep)
    ensures gateway.pool.State() == Ticked(old(gateway.pool.State()), timeout, now, keep)
    ensures forall ext | ext in old(gateway.pool.State()).sessions ::
              ext in gateway.pool.State().sessions
              <==> timeout.None? || SA.InUse(old(gateway.pool.State()), ext, timeout.value, now)
  {
    ghost var before := gateway.pool.State();
    if timeout.Some? {
      var _ := gateway.EvictIdle(now, timeout.value);
    }
    keep := gateway.Purge(MAX_EVICTED);
    TickActive(before, timeout, now, keep);
  }

  lemma UnionSize<T, U>(a: map<T, U>, b: map<T, U>)
    requires a.Keys !! b.Keys
    ensures |a + b| == |a| + |b|
  {
    assert (a + b).Keys == a.Keys + b.Keys;
    assert |a.Keys + b.Keys| == |a.Keys| + |b.Keys|;
  }

  lemma EvictedCount(p: Pool, timeout: nat, now: Instant)
    requires p.sessions.Keys !! p.evicted.Keys
    ensures |EvictIdle(p, now, timeout).evicted| == |p.evicted| + |IdleSessions(p, now, timeout)|
  {
    var gone := IdleSessions(p, now, timeout);
    var parked := map ext | ext in gone :: ParkedEntry(p.sessions[ext], now);
    assert parked.Keys == gone;
    UnionSize(p.evicted, parked);
    assert EvictIdle(p, now, timeout).evicted == p.evicted + parked;
  }

  /**
   * Main result: after a tick the active sessions are exactly those used within the timeout, as they
   * were; an idle one is parked with its backend id, directory and sender unless the table is full
   * of entries evicted at this same moment.
   */
  lemma TickSessions(p: Pool, timeout: nat, now: Instant, keep: set<ExternalSid>, ext: ExternalSid)
    requires forall x | x in p.evicted :: p.evicted[x].evictedAt <= now
    requires TickKeeps(p, Some(timeout), now, keep)
    ensures var q := Ticked(p, Some(timeout), now, keep);
            && (ext in q.sessions <==> SA.InUse(p, ext, timeout, now))
            && (ext in q.sessions ==> q.sessions[ext] == p.sessions[ext])
            && (ext in p.sessions && !SA.InUse(p, ext, timeout, now) ==>
                  var entry := p.sessions[ext];
                  if ext in q.evicted
                  then q.evicted[ext] == EvictedSession(entry.backendSid, entry.cwd, now, entry.lastSender)
                  else |q.evicted| == MAX_EVICTED && forall x | x in q.evicted :: q.evicted[x].evictedAt == now)
  {
    var mid, q := EvictIdle(p, now, timeout), Ticked(p, Some(timeout), now, keep);
    EvictSessions(p, timeout, now, ext);
    assert q.evicted.Keys == keep && q.sessions == mid.sessions;
    EvictTimes(p, timeout, now);
    KeptAreNewest(mid, keep, now, ext);
  }

  lemma EvictTimes(p: Pool, timeout: nat, now: Instant)
    requires forall x | x in p.evicted :: p.evicted[x].evictedAt <= now
    ensures forall x | x in EvictIdle(p, now, timeout).evicted :: EvictIdle(p, now, timeout).evicted[x].evictedAt <= now
  {
    var mid := EvictIdle(p, now, timeout);
    forall x | x in mid.evicted ensures mid.evicted[x].evictedAt <= now {
      EvictSessions(p, timeout, now, x);
      assert !(x in p.sessions && !SA.InUse(p, x, timeout, now)) ==> x in p.evicted && mid.evicted[x] == p.evicted[x];
    }
  }

  lemma EvictSessions(p: Pool, timeout: nat, now: Instant, ext: ExternalSid)
    ensures var q := EvictIdle(p, now, timeout);
            && (ext in q.sessions <==> SA.InUse(p, ext, timeout, now))
            && (ext in q.sessions ==> q.sessions[ext] == p.sessions[ext])
            && (ext in p.sessions && !SA.InUse(p, ext, timeout, now) ==>
                  ext in q.evicted && q.evicted[ext] == ParkedEntry(p.sessions[ext], now))
  {
  }

  lemma PurgedTable(p: Pool, keep: set<ExternalSid>)
    requires NewestEvicted(p, MAX_EVICTED, keep)
    ensures var q := KeepEvicted(p, keep);
            && |q.evicted| == (if |p.evicted| <= MAX_EVICTED then |p.evicted| else MAX_EVICTED)
            && (forall r, k | r in p.evicted && r !in q.evicted && k in q.evicted ::
                  p.evicted[r].evictedAt <= q.evicted[k].evictedAt)
  {
    assert KeepEvicted(p, keep).evicted.Keys == keep;
  }

  /** Main result: the table ends with min(size, limit) entries, none older than one left out. */
  lemma TickPurges(p: Pool, timeout: nat, now: Instant, keep: set<ExternalSid>)
    requires p.sessions.Keys !! p.evicted.Keys
    requires TickKeeps(p, Some(timeout), now, keep)
    ensures var q, total := Ticked(p, Some(timeout), now, keep), |p.evicted| + |IdleSessions(p, now, timeout)|;
            && |q.evicted| == (if total <= MAX_EVICTED then total else MAX_EVICTED)
            && (forall r, k | r in p.evicted && r !in q.evicted && k in q.evicted ::
                  p.evicted[r].evictedAt <= q.evicted[k].evictedAt)
  {
    EvictedCount(p, timeout, now);
    PurgedTable(EvictIdle(p, now, timeout), keep);
  }

  /** Main result: a least-connections slot is lowered by exactly the number of sessions that left it. */
  lemma TickLoads(p: Pool, timeout: nat, now: Instant, keep: set<ExternalSid>, i: nat)
    requires Exact(p) && p.strategy.LeastConnections? && Populated(p.slots, i)
    ensures var q, left := Ticked(p, Some(timeout), now, keep), IdleSessions(p, now, timeout) * SessionsOn(p, i);
            && Populated(q.slots, i) && (Alive(q.slots, i) <==> Alive(p.slots, i))
            && Load(q.slots, i) + |left| == Load(p.slots, i)
            && Load(q.slots, i) == |SessionsOn(q, i)|
  {
    var gone := IdleSessions(p, now, timeout);
    ExactNeverSaturates(p, "", gone, i);
    EvictCounts(p, gone, now, i);
    SameUseOn(EvictIdle(p, now, timeout), Ticked(p, Some(timeout), now, keep), i);
  }

  lemma KeptAreNewest(mid: Pool, keep: set<ExternalSid>, now: Instant, ext: ExternalSid)
    requires NewestEvicted(mid, MAX_EVICTED, keep)
    requires forall x | x in mid.evicted :: mid.evicted[x].evictedAt <= now
    ensures ext in mid.evicted && ext !in keep ==>
              && |keep| == MAX_EVICTED
              && forall x | x in keep :: mid.evicted[ext].evictedAt <= mid.evicted[x].evictedAt <= now
  {
    if ext in mid.evicted && ext !in keep {
      assert |keep| < |mid.evicted.Keys| by {
        assert |mid.evicted.Keys| == |keep| + |mid.evicted.Keys - keep|;
        assert ext in mid.evicted.Keys - keep;
      }
    }
  }
}
