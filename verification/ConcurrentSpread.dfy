/**
 * Least-connections mode with requests in flight. A request registers on the slot selected when it
 * started, so requests that overlap pile up on one slot; the spread of loads exceeds its old bound by
 * no more than the number of requests that are in flight at once.
 */
module ConcurrentSpread {
  import opened Wrappers
  import opened PoolModel
  import opened GatewaySystem
  import opened SlotAccounting
  import opened RequestPlacing
  import opened LeastConnections
  import DM = DedicatedMode

  /**
   * Main result: a session registered on a slot chosen earlier keeps the spread within `d` exactly when
   * that slot, as it is loaded when the answer arrives, has fewer than `d` more than any other alive one.
   */
  lemma LateAnswerSpreads(p: Pool, n: NewSession, slot: nat, d: nat)
    requires SpreadAtMost(p, d) && Alive(p.slots, slot)
    ensures SpreadAtMost(Register(p, n.ext, n.back, slot, n.cwd, n.frontend, n.now), d)
            <==> forall j: nat | Alive(p.slots, j) && j != slot :: Load(p.slots, slot) < Load(p.slots, j) + d
  {
    var q := Register(p, n.ext, n.back, slot, n.cwd, n.frontend, n.now);
    assert Alive(q.slots, slot) && Load(q.slots, slot) == Load(p.slots, slot) + 1;
    assert forall j: nat :: Alive(q.slots, j) <==> Alive(p.slots, j);
    assert forall j: nat | j != slot :: Load(q.slots, j) == Load(p.slots, j);
  }

  // ----- Every run that only adds sessions -----

  /** The requests that have a slot and wait for their answer, and those of them on slot `i`. */
  ghost function InFlight(s: System): set<nat> {
    set rid | rid in s.transit && Placing(s, rid)
  }

  ghost function OnSlot(s: System, i: nat): set<nat> {
    set rid | rid in s.transit && Placing(s, rid) && s.transit[rid].slot == i
  }

  /** Even if every request on one slot is answered before any other, the spread stays within `d`. */
  ghost predicate Leveled(s: System, d: nat) {
    forall i: nat, j: nat | Alive(s.pool.slots, i) && Alive(s.pool.slots, j) ::
      Load(s.pool.slots, i) + |OnSlot(s, i)| <= Load(s.pool.slots, j) + d
  }

  /** The event takes no session away, brings no backend, and answers no fork. */
  predicate Adds(e: Event) {
    !e.CloseReplied? && !e.IdleEvicted? && !e.BackendDied? && !e.BackendSpawned? && !e.ForkReplied?
  }

  lemma SubsetSize(a: set<nat>, b: set<nat>)
    requires a <= b
    ensures |a| <= |b|
  {
    assert b == a + (b - a);
  }

  lemma StartedLeveled(s: System, e: Event, d: nat)
    requires s.pool.strategy.LeastConnections? && Leveled(s, d) && Enabled(s, e) && Adds(e) && !Counting(e)
    requires |InFlight(Step(s, e))| <= d
    ensures Leveled(Step(s, e), d) && Step(s, e).pool.slots == s.pool.slots
  {
    var t := Step(s, e);
    OtherEventsUse(s, e);
    OtherEventsPlaced(s, e);
    forall i: nat, j: nat | Alive(t.pool.slots, i) && Alive(t.pool.slots, j)
      ensures Load(t.pool.slots, i) + |OnSlot(t, i)| <= Load(t.pool.slots, j) + d
    {
      if SelectSlot(s.pool) == Some(i) {
        SubsetSize(OnSlot(t, i), InFlight(t));
      } else {
        SubsetSize(OnSlot(t, i), OnSlot(s, i));
      }
    }
  }

  lemma AnsweredLeveled(s: System, e: Event, d: nat)
    requires Leveled(s, d) && Enabled(s, e) && (e.CreateReplied? || e.ReloadReplied?)
    ensures Leveled(Step(s, e), d)
  {
    var t, slot := Step(s, e), s.transit[e.rid].slot;
    AnsweredLoads(s, e);
    forall i: nat, j: nat | Alive(t.pool.slots, i) && Alive(t.pool.slots, j)
      ensures Load(t.pool.slots, i) + |OnSlot(t, i)| <= Load(t.pool.slots, j) + d
    {
      if i == slot {
        assert e.rid in OnSlot(s, i);
        SubsetSize(OnSlot(t, i), OnSlot(s, i) - {e.rid});
      } else {
        SubsetSize(OnSlot(t, i), OnSlot(s, i));
      }
    }
  }

  /** One more on the slot of the request, and one request fewer. */
  lemma AnsweredLoads(s: System, e: Event)
    requires Enabled(s, e) && (e.CreateReplied? || e.ReloadReplied?)
    ensures var t, slot := Step(s, e), s.transit[e.rid].slot;
            && (forall i: nat :: Alive(t.pool.slots, i) <==> Alive(s.pool.slots, i))
            && (forall i: nat :: Load(s.pool.slots, i) <= Load(t.pool.slots, i)
                                 <= Load(s.pool.slots, i) + if i == slot then 1 else 0)
            && (forall rid | Placing(t, rid) ::
                  rid != e.rid && Placing(s, rid) && t.transit[rid].slot == s.transit[rid].slot)
  {
  }

  lemma StepLeveled(s: System, e: Event, d: nat)
    requires s.pool.strategy.LeastConnections? && Leveled(s, d) && Enabled(s, e) && Adds(e)
    requires |InFlight(Step(s, e))| <= d
    ensures Leveled(Step(s, e), d)
  {
    if Counting(e) {
      AnsweredLeveled(s, e, d);
    } else {
      StartedLeveled(s, e, d);
    }
  }

  /** The run only adds sessions, with at most `k` requests in flight at any time. */
  ghost predicate Overlap(s: System, es: seq<Event>, k: nat)
    requires Run(s, es)
    decreases |es|
  {
    |InFlight(s)| <= k && (es == [] || (Adds(es[0]) && Overlap(Step(s, es[0]), es[1..], k)))
  }

  lemma {:induction false} RunLeveled(s: System, es: seq<Event>, d: nat)
    requires s.pool.strategy.LeastConnections? && Run(s, es) && Leveled(s, d) && Overlap(s, es, d)
    ensures Leveled(After(s, es), d)
    decreases |es|
  {
    if es != [] {
      StepLeveled(s, es[0], d);
      DM.ConfigKept(s, es[0]);
      RunLeveled(Step(s, es[0]), es[1..], d);
    }
  }

  lemma {:induction false} OverlapMono(s: System, es: seq<Event>, k: nat, d: nat)
    requires Run(s, es) && Overlap(s, es, k) && k <= d
    ensures Overlap(s, es, d)
    decreases |es|
  {
    if es != [] {
      OverlapMono(Step(s, es[0]), es[1..], k, d);
    }
  }

  /**
   * Main result: new sessions, reloads and prompts, answered in any order with at most `k` in flight at
   * once, never widen the spread of loads beyond max(old spread, k).
   */
  lemma SpreadUnderOverlap(s: System, es: seq<Event>, spread: nat, k: nat)
    requires s.pool.strategy.LeastConnections? && InFlight(s) == {} && SpreadAtMost(s.pool, spread)
    requires Run(s, es) && Overlap(s, es, k)
    ensures SpreadAtMost(After(s, es).pool, if spread < k then k else spread)
  {
    var d := if spread < k then k else spread;
    NoneInFlight(s, d);
    OverlapMono(s, es, k, d);
    RunLeveled(s, es, d);
  }

  lemma NoneInFlight(s: System, d: nat)
    requires InFlight(s) == {} && SpreadAtMost(s.pool, d)
    ensures Leveled(s, d)
  {
    forall i: nat ensures OnSlot(s, i) == {} {
      assert OnSlot(s, i) <= InFlight(s);
    }
  }

  // ----- The bound is reached -----

  function Starting(ns: seq<NewSession>): seq<Event> {
    if ns == [] then [] else [StartNew(ns[0].rid, ns[0].cwd, ns[0].frontend, false)] + Starting(ns[1..])
  }

  function Answering(ns: seq<NewSession>): seq<Event> {
    if ns == [] then [] else [CreateReplied(ns[0].rid, ns[0].ext, ns[0].back, ns[0].now)] + Answering(ns[1..])
  }

  ghost predicate Distinct(ns: seq<NewSession>) {
    forall i, j | 0 <= i < j < |ns| ::
      ns[i].rid != ns[j].rid && ns[i].ext != ns[j].ext && ns[i].back != ns[j].back
  }

  ghost predicate WaitOn(s: System, ns: seq<NewSession>, slot: nat) {
    forall n | n in ns :: n.rid in s.transit && s.transit[n.rid] == Creating(slot, n.cwd, n.frontend, Calling)
  }

  lemma DistinctTail(ns: seq<NewSession>)
    requires ns != [] && Distinct(ns)
    ensures Distinct(ns[1..])
    ensures forall n | n in ns[1..] :: n in ns && n.rid != ns[0].rid && n.ext != ns[0].ext && n.back != ns[0].back
  {
    forall n | n in ns[1..]
      ensures n in ns && n.rid != ns[0].rid && n.ext != ns[0].ext && n.back != ns[0].back
    {
      var i :| 0 <= i < |ns[1..]| && ns[1..][i] == n;
      assert n == ns[i + 1];
    }
  }

  lemma {:induction false} AllStart(s: System, ns: seq<NewSession>, slot: nat)
    requires s.pool.strategy.LeastConnections? && SelectSlot(s.pool) == Some(slot) && Distinct(ns)
    requires forall n | n in ns :: n.rid !in s.transit
    ensures Run(s, Starting(ns))
    ensures var t := After(s, Starting(ns));
            && t.pool == s.pool && t.bound == s.bound && WaitOn(t, ns, slot)
            && forall rid | rid in s.transit :: rid in t.transit && t.transit[rid] == s.transit[rid]
    decreases |ns|
  {
    if ns != [] {
      var e := StartNew(ns[0].rid, ns[0].cwd, ns[0].frontend, false);
      var t := s.(transit := s.transit[ns[0].rid := Creating(slot, ns[0].cwd, ns[0].frontend, Calling)]);
      DistinctTail(ns);
      AllStart(t, ns[1..], slot);
      RunOne(s, e);
      RunAppend(s, [e], Starting(ns[1..]));
      assert ns[0].rid in t.transit;
      assert forall n | n in ns :: n == ns[0] || n in ns[1..];
    }
  }

  lemma {:induction false} AllAnswered(s: System, ns: seq<NewSession>, slot: nat)
    requires Alive(s.pool.slots, slot) && WaitOn(s, ns, slot) && Distinct(ns)
    requires forall n | n in ns :: Fresh(s, n.ext, n.back)
    ensures Run(s, Answering(ns))
    ensures var p := After(s, Answering(ns)).pool;
            && Load(p.slots, slot) == Load(s.pool.slots, slot) + |ns|
            && (forall i: nat :: Alive(p.slots, i) <==> Alive(s.pool.slots, i))
            && (forall i: nat | i != slot :: Load(p.slots, i) == Load(s.pool.slots, i))
    decreases |ns|
  {
    if ns != [] {
      var e := CreateReplied(ns[0].rid, ns[0].ext, ns[0].back, ns[0].now);
      assert ns[0] in ns;
      DistinctTail(ns);
      var t := Step(s, e);
      AllAnswered(t, ns[1..], slot);
      RunOne(s, e);
      RunAppend(s, [e], Answering(ns[1..]));
    }
  }

  /**
   * Main result: any number of new_session requests that start before the first is answered all end up
   * on one slot, so from even loads their number is the spread.
   */
  lemma BurstOnOneSlot(s: System, ns: seq<NewSession>)
    requires s.pool.strategy.LeastConnections? && SelectSlot(s.pool).Some? && Distinct(ns)
    requires forall n | n in ns :: n.rid !in s.transit && Fresh(s, n.ext, n.back)
    ensures var es, slot := Starting(ns) + Answering(ns), SelectSlot(s.pool).value;
            && Run(s, es)
            && var p := After(s, es).pool;
               && Alive(p.slots, slot) && Load(p.slots, slot) == Load(s.pool.slots, slot) + |ns|
               && forall i: nat | i != slot :: Load(p.slots, i) == Load(s.pool.slots, i)
  {
    var slot := SelectSlot(s.pool).value;
    AllStart(s, ns, slot);
    var t := After(s, Starting(ns));
    AllAnswered(t, ns, slot);
    RunAppend(s, Starting(ns), Answering(ns));
  }
}
