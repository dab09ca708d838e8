/** The pool object: its fields are updated in place, and every method is tied to `PoolModel`. */
module AgentPool {
  import opened Wrappers
  import opened PoolModel

  class AgentPool {
    const strategy: Strategy
    const poolSize: nat
    var slots: seq<Option<Slot>>
    var sessions: map<ExternalSid, SessionEntry>
    var reverse: map<BackendSid, ExternalSid>
    var evicted: map<ExternalSid, EvictedSession>
    var inFlight: set<ExternalSid>
    var promptSenders: map<ExternalSid, FrontendId>
    var initRequest: Option<string>

    ghost function State(): Pool
      reads this
    {
      Pool(strategy, poolSize, slots, sessions, reverse, evicted, inFlight, promptSenders, initRequest)
    }

    constructor (strategy: Strategy, poolSize: nat)
      ensures State() == New(strategy, poolSize)
    {
      this.strategy, this.poolSize := strategy, poolSize;
      slots := seq(poolSize, _ => None);
      sessions, reverse, evicted := map[], map[], map[];
      inFlight, promptSenders, initRequest := {}, map[], None;
    }

    method StoreInitRequest(request: string)
      modifies this
      ensures State() == old(State()).(initRequest := Some(request))
    {
      initRequest := Some(request);
    }

    method InsertSlot(index: nat, slot: Slot)
      modifies this
      ensures State() == PoolModel.InsertSlot(old(State()), index, slot)
    {
      if index >= |slots| {
        slots := slots + seq(index + 1 - |slots|, _ => None);
      }
      slots := slots[index := Some(slot)];
    }

    /** A least loaded alive slot, or an idle or empty one for a session of its own. */
    method SelectSlot() returns (r: Option<nat>)
      ensures r == PoolModel.SelectSlot(State())
    {
      match strategy {
        case LeastConnections =>
          r := None;
          for i := 0 to |slots|
            invariant r == LeastLoaded(slots, i)
          {
            if slots[i].Some? && slots[i].value.alive
               && (r.None? || slots[i].value.sessionCount < slots[r.value].value.sessionCount) {
              r := Some(i);
            }
          }
        case Dedicated =>
          r := First(slots, Idle);
          if r.None? {
            r := First(slots, (s: Option<Slot>) => s.None?);
          }
      }
    }

    method RegisterSession(ext: ExternalSid, back: BackendSid, slotIndex: nat, cwd: Path,
                           frontend: FrontendId, now: Instant)
      modifies this
      ensures State() == Register(old(State()), ext, back, slotIndex, cwd, frontend, now)
    {
      sessions := sessions[ext := SessionEntry(slotIndex, back, now, cwd, frontend)];
      reverse := reverse[back := ext];
      if slotIndex < |slots| && slots[slotIndex].Some? {
        var slot := slots[slotIndex].value;
        slots := slots[slotIndex := Some(slot.(sessionCount := slot.sessionCount + 1))];
      }
    }

    method RecordSender(ext: ExternalSid, frontend: FrontendId)
      modifies this
      ensures State() == PoolModel.RecordSender(old(State()), ext, frontend)
    {
      if ext in sessions {
        sessions := sessions[ext := sessions[ext].(lastSender := frontend)];
      } else if ext in evicted {
        evicted := evicted[ext := evicted[ext].(lastSender := frontend)];
      }
    }

    method RemoveSession(ext: ExternalSid)
      modifies this
      ensures State() == Remove(old(State()), ext)
    {
      if ext !in sessions {
        return;
      }
      var entry := sessions[ext];
      var i := entry.slotIndex;
      sessions := sessions - {ext};
      reverse := reverse - {entry.backendSid};
      inFlight := inFlight - {ext};
      promptSenders := promptSenders - {ext};
      if i < |slots| && slots[i].Some? {
        var slot := slots[i].value;
        slots := slots[i := Some(slot.(sessionCount := SaturatingSub(slot.sessionCount, 1)))];
      }
      if strategy == Dedicated && i < |slots| && slots[i].Some? && slots[i].value.sessionCount == 0 {
        slots := slots[i := None];
      }
    }

    method TouchSession(ext: ExternalSid, now: Instant)
      modifies this
      ensures State() == Touch(old(State()), ext, now)
      ensures ext in old(sessions) ==> ext in sessions && sessions[ext].lastActivity == now
    {
      if ext in sessions {
        sessions := sessions[ext := sessions[ext].(lastActivity := now)];
      }
    }

    /** Refuses exactly when a prompt is already in flight, and then changes nothing. */
    method BeginPrompt(ext: ExternalSid, frontend: FrontendId) returns (ok: bool)
      modifies this
      ensures ok == (ext !in old(inFlight))
      ensures State() == if ok then PoolModel.BeginPrompt(old(State()), ext, frontend) else old(State())
    {
      if ext in inFlight {
        return false;
      }
      inFlight := inFlight + {ext};
      promptSenders := promptSenders[ext := frontend];
      if ext in sessions {
        sessions := sessions[ext := sessions[ext].(lastSender := frontend)];
      } else if ext in evicted {
        evicted := evicted[ext := evicted[ext].(lastSender := frontend)];
      }
      return true;
    }

    method EndPrompt(ext: ExternalSid)
      modifies this
      ensures State() == PoolModel.EndPrompt(old(State()), ext)
    {
      inFlight := inFlight - {ext};
      promptSenders := promptSenders - {ext};
    }

    method TakeEvicted(ext: ExternalSid) returns (entry: Option<EvictedSession>)
      modifies this
      ensures entry == if ext in old(evicted) then Some(old(evicted)[ext]) else None
      ensures State() == PoolModel.TakeEvicted(old(State()), ext)
    {
      if ext !in evicted {
        assert evicted - {ext} == evicted;
        return None;
      }
      entry := Some(evicted[ext]);
      evicted := evicted - {ext};
    }

    /** Moves one session to the evicted table. */
    method ParkSession(ext: ExternalSid, now: Instant)
      requires ext in sessions
      modifies this
      ensures State() == ParkOne(old(State()), ext, now)
    {
      var entry := sessions[ext];
      sessions := sessions - {ext};
      reverse := reverse - {entry.backendSid};
      promptSenders := promptSenders - {ext};
      evicted := evicted[ext := ParkedEntry(entry, now)];
    }

    /** Parks every idle session; the order in which the table yields them is left open. */
    method ParkIdle(now: Instant, timeout: nat) returns (gone: seq<ExternalSid>, toFree: set<nat>)
      modifies this
      ensures Sweep(IdleSessions(old(State()), now, timeout), {}, gone)
      ensures State() == ParkEach(old(State()), gone, now).(
                slots := if strategy.Dedicated? then old(slots) else LowerEach(old(State()), gone))
      ensures toFree == if strategy.Dedicated? then SlotsOf(old(State()), gone) else {}
    {
      ghost var before := State();
      var todo := set ext | ext in sessions && Elapsed(now, sessions[ext].lastActivity) >= timeout;
      toFree := {};
      gone := [];
      while todo != {}
        invariant Sweep(IdleSessions(before, now, timeout), todo, gone)
        invariant State() == ParkEach(before, gone, now).(
                    slots := if strategy.Dedicated? then before.slots else LowerEach(before, gone))
        invariant toFree == if strategy.Dedicated? then SlotsOf(before, gone) else {}
      {
        var ext :| ext in todo;
        SweepStep(IdleSessions(before, now, timeout), todo, gone, ext);
        ParkEachKeeps(before, gone, ext, now);
        var i := sessions[ext].slotIndex;
        ParkSession(ext, now);
        if strategy == Dedicated {
          toFree := toFree + {i};
        } else if i < |slots| && slots[i].Some? {
          slots := slots[i := Some(slots[i].value.(sessionCount := SaturatingSub(slots[i].value.sessionCount, 1)))];
        }
        gone := gone + [ext];
        todo := todo - {ext};
      }
    }

    method FreeSlots(indices: set<nat>)
      requires forall i | i in indices :: i < |slots|
      modifies this`slots
      ensures |slots| == |old(slots)|
      ensures forall i: nat | i < |slots| :: slots[i] == if i in indices then None else old(slots)[i]
    {
      var toFree := indices;
      while toFree != {}
        invariant toFree <= indices && |slots| == |old(slots)|
        invariant forall i: nat | i < |slots| :: slots[i] == if i in indices - toFree then None else old(slots)[i]
      {
        var i :| i in toFree;
        slots := slots[i := None];
        toFree := toFree - {i};
      }
    }

    /** Evicts every idle session and frees the slots they leave in Dedicated mode. */
    method EvictIdleSessions(now: Instant, timeout: nat) returns (gone: seq<ExternalSid>)
      requires strategy.Dedicated? ==> forall ext | ext in sessions :: sessions[ext].slotIndex < |slots|
      modifies this
      ensures State() == EvictIdle(old(State()), now, timeout)
      ensures Distinct(gone) && Members(gone) == IdleSessions(old(State()), now, timeout)
      ensures forall ext | ext in old(sessions) ::
                ext in sessions <==> timeout > 0 && now < old(sessions)[ext].lastActivity + timeout
    {
      ghost var before := State();
      var toFree;
      gone, toFree := ParkIdle(now, timeout);
      assert Members(gone) == IdleSessions(before, now, timeout);
      ParkEachIsPark(before, gone, now);
      LeavingSlots(before, gone);
      FreeSlots(toFree);
      assert slots == EvictedSlots(before, Members(gone));
    }

    method DropEvicted(order: seq<ExternalSid>)
      modifies this`evicted
      ensures evicted == old(evicted) - Members(order)
    {
      for i := 0 to |order|
        invariant evicted == old(evicted) - Members(order[..i])
      {
        MembersAppend(order[..i], order[i]);
        assert order[..i + 1] == order[..i] + [order[i]];
        evicted := evicted - {order[i]};
      }
      assert order[..|order|] == order;
    }

    /** Drops the oldest evicted entries beyond `maxEntries`; ties fall either way. */
    method PurgeStaleEvicted(maxEntries: nat) returns (ghost keep: set<ExternalSid>)
      modifies this
      ensures NewestEvicted(old(State()), maxEntries, keep)
      ensures State() == KeepEvicted(old(State()), keep)
    {
      if |evicted| > maxEntries {
        var excess := |evicted| - maxEntries;
        var order := OldestFirst();
        OldestDropped(evicted, order, excess);
        DropEvicted(order[..excess]);
      }
      keep := evicted.Keys;
      KeepRest(old(State()), evicted);
    }

    /** The evicted ids by eviction time, oldest first. */
    method OldestFirst() returns (order: seq<ExternalSid>)
      ensures |order| == |evicted|
      ensures forall i | 0 <= i < |order| :: order[i] in evicted
      ensures forall ext | ext in evicted :: ext in order
      ensures forall i, j | 0 <= i < j < |order| ::
                order[i] != order[j] && evicted[order[i]].evictedAt <= evicted[order[j]].evictedAt
    {
      order := [];
      var todo := evicted.Keys;
      while todo != {}
        invariant todo <= evicted.Keys && |order| + |todo| == |evicted|
        invariant forall i | 0 <= i < |order| :: order[i] in evicted && order[i] !in todo
        invariant forall ext | ext in evicted :: ext in order || ext in todo
        invariant forall i, ext | 0 <= i < |order| && ext in todo ::
                    evicted[order[i]].evictedAt <= evicted[ext].evictedAt
        invariant forall i, j | 0 <= i < j < |order| ::
                    order[i] != order[j] && evicted[order[i]].evictedAt <= evicted[order[j]].evictedAt
      {
        ghost var oldest := Oldest(evicted, todo);
        var next :| next in todo && forall ext | ext in todo :: evicted[next].evictedAt <= evicted[ext].evictedAt;
        order := order + [next];
        todo := todo - {next};
      }
    }

    /** Marks the slot dead, or frees it, and parks every session it carried. */
    method HandleBackendDeath(slotIndex: nat, now: Instant)
      requires strategy.Dedicated? ==> slotIndex < |slots|
      modifies this
      ensures State() == BackendDeath(old(State()), slotIndex, now)
    {
      ghost var before := State();
      if strategy == Dedicated {
        slots := slots[slotIndex := None];
      } else if slotIndex < |slots| && slots[slotIndex].Some? {
        slots := slots[slotIndex := Some(Slot(0, false))];
      }
      ghost var after := State();
      ghost var gone := ParkSlot(slotIndex, now);
      DeathIsPark(before, after, slotIndex, gone, now);
    }

    /** Parks every session of the slot and clears its in-flight flag. */
    method ParkSlot(slotIndex: nat, now: Instant) returns (ghost gone: seq<ExternalSid>)
      modifies this
      ensures Sweep(SessionsOn(old(State()), slotIndex), {}, gone)
      ensures State() == ParkEach(old(State()), gone, now).(inFlight := old(inFlight) - Members(gone))
    {
      ghost var before := State();
      var todo := set ext | ext in sessions && sessions[ext].slotIndex == slotIndex;
      gone := [];
      while todo != {}
        invariant Sweep(SessionsOn(before, slotIndex), todo, gone)
        invariant State() == ParkEach(before, gone, now).(inFlight := before.inFlight - Members(gone))
      {
        var ext :| ext in todo;
        SweepStep(SessionsOn(before, slotIndex), todo, gone, ext);
        ParkEachKeeps(before, gone, ext, now);
        ParkSession(ext, now);
        inFlight := inFlight - {ext};
        MembersAppend(gone, ext);
        gone := gone + [ext];
        todo := todo - {ext};
      }
    }

    method AliveSlots() returns (alive: seq<nat>)
      ensures forall i: nat :: i in alive <==> Alive(slots, i)
      ensures forall j, k | 0 <= j < k < |alive| :: alive[j] < alive[k]
    {
      alive := [];
      for i := 0 to |slots|
        invariant forall j: nat :: j in alive <==> j < i && Alive(slots, j)
        invariant forall j | 0 <= j < |alive| :: alive[j] < i
        invariant forall j, k | 0 <= j < k < |alive| :: alive[j] < alive[k]
      {
        if slots[i].Some? && slots[i].value.alive {
          alive := alive + [i];
        }
      }
    }
  }

  // ----- One session at a time adds up to the batch -----

  ghost predicate Distinct(order: seq<ExternalSid>) {
    forall i, j | 0 <= i < j < |order| :: order[i] != order[j]
  }

  ghost function Members(order: seq<ExternalSid>): set<ExternalSid> {
    set ext | ext in order
  }

  /** `gone` lists, once each, the members of `all` no longer in `todo`. */
  ghost predicate Sweep(all: set<ExternalSid>, todo: set<ExternalSid>, gone: seq<ExternalSid>) {
    Distinct(gone) && todo !! Members(gone) && todo + Members(gone) == all
  }

  lemma SweepStep(all: set<ExternalSid>, todo: set<ExternalSid>, gone: seq<ExternalSid>, ext: ExternalSid)
    requires Sweep(all, todo, gone) && ext in todo
    ensures ext in all && ext !in Members(gone)
    ensures Sweep(all, todo - {ext}, gone + [ext])
  {
    MembersAppend(gone, ext);
    assert forall i | 0 <= i < |gone| :: gone[i] in Members(gone);
  }

  lemma MembersAppend(order: seq<ExternalSid>, ext: ExternalSid)
    ensures Members(order + [ext]) == Members(order) + {ext}
  {
  }

  ghost function ParkOne(p: Pool, ext: ExternalSid, now: Instant): Pool
    requires ext in p.sessions
  {
    p.(sessions := p.sessions - {ext},
       reverse := p.reverse - {p.sessions[ext].backendSid},
       promptSenders := p.promptSenders - {ext},
       evicted := p.evicted[ext := ParkedEntry(p.sessions[ext], now)])
  }

  ghost function ParkEach(p: Pool, order: seq<ExternalSid>, now: Instant): Pool {
    if order == [] then p
    else
      var q := ParkEach(p, order[..|order| - 1], now);
      if order[|order| - 1] in q.sessions then ParkOne(q, order[|order| - 1], now) else q
  }

  ghost function LowerEach(p: Pool, order: seq<ExternalSid>): seq<Option<Slot>> {
    if order == [] then p.slots
    else
      var slots := LowerEach(p, order[..|order| - 1]);
      var ext := order[|order| - 1];
      if ext !in p.sessions then slots
      else SetCount(slots, p.sessions[ext].slotIndex, SaturatingSub(Load(slots, p.sessions[ext].slotIndex), 1))
  }

  ghost function SlotsOf(p: Pool, order: seq<ExternalSid>): set<nat> {
    set ext | ext in order && ext in p.sessions :: p.sessions[ext].slotIndex
  }

  lemma {:induction false} ParkEachSessions(p: Pool, order: seq<ExternalSid>, now: Instant)
    ensures ParkEach(p, order, now).sessions == p.sessions - Members(order)
    ensures ParkEach(p, order, now).slots == p.slots && ParkEach(p, order, now).inFlight == p.inFlight
  {
    if order != [] {
      var front, last := order[..|order| - 1], order[|order| - 1];
      ParkEachSessions(p, front, now);
      assert order == front + [last];
      MembersAppend(front, last);
    }
  }

  /** A session not yet parked still has its entry, and parking it next extends the order. */
  lemma ParkEachKeeps(p: Pool, order: seq<ExternalSid>, ext: ExternalSid, now: Instant)
    requires ext in p.sessions && ext !in Members(order)
    ensures var q := ParkEach(p, order, now);
            && ext in q.sessions && q.sessions[ext] == p.sessions[ext]
            && ParkEach(p, order + [ext], now) == ParkOne(q, ext, now)
    ensures SlotsOf(p, order + [ext]) == SlotsOf(p, order) + {p.sessions[ext].slotIndex}
    ensures LowerEach(p, order + [ext]) ==
            SetCount(LowerEach(p, order), p.sessions[ext].slotIndex,
                     SaturatingSub(Load(LowerEach(p, order), p.sessions[ext].slotIndex), 1))
  {
    ParkEachSessions(p, order, now);
    assert (order + [ext])[..|order|] == order;
  }

  lemma {:induction false} ParkEachIsPark(p: Pool, order: seq<ExternalSid>, now: Instant)
    requires Distinct(order) && Members(order) <= p.sessions.Keys
    ensures ParkEach(p, order, now) == Park(p, Members(order), now)
  {
    if order == [] {
      assert Park(p, {}, now).sessions == p.sessions;
      assert Park(p, {}, now).evicted == p.evicted;
      assert Park(p, {}, now).reverse == p.reverse;
      assert Park(p, {}, now).promptSenders == p.promptSenders;
    } else {
      var front, last := order[..|order| - 1], order[|order| - 1];
      assert order == front + [last];
      MembersAppend(front, last);
      assert last in Members(order);
      ParkEachIsPark(p, front, now);
      ParkStep(p, Members(front), last, now);
    }
  }

  lemma ParkStepReverse(p: Pool, done: set<ExternalSid>, ext: ExternalSid, now: Instant)
    requires done <= p.sessions.Keys && ext in p.sessions && ext !in done
    ensures Park(p, done + {ext}, now).reverse == Park(p, done, now).reverse - {p.sessions[ext].backendSid}
  {
    assert BackendsOf(p, done + {ext}) == BackendsOf(p, done) + {p.sessions[ext].backendSid};
  }

  lemma ParkStepEvicted(p: Pool, done: set<ExternalSid>, ext: ExternalSid, now: Instant)
    requires done <= p.sessions.Keys && ext in p.sessions && ext !in done
    ensures Park(p, done + {ext}, now).evicted
            == Park(p, done, now).evicted[ext := ParkedEntry(p.sessions[ext], now)]
  {
  }

  lemma ParkStep(p: Pool, done: set<ExternalSid>, ext: ExternalSid, now: Instant)
    requires done <= p.sessions.Keys && ext in p.sessions && ext !in done
    ensures Park(p, done + {ext}, now) == ParkOne(Park(p, done, now), ext, now)
  {
    ParkStepReverse(p, done, ext, now);
    ParkStepEvicted(p, done, ext, now);
    var one, both := ParkOne(Park(p, done, now), ext, now), Park(p, done + {ext}, now);
    assert both.sessions == one.sessions;
    assert both.promptSenders == one.promptSenders;
  }

  /** Parking does not look at the slots. */
  lemma ParkSlots(p: Pool, q: Pool, gone: set<ExternalSid>, now: Instant)
    requires gone <= p.sessions.Keys && q == p.(slots := q.slots)
    ensures Park(q, gone, now) == Park(p, gone, now).(slots := q.slots)
  {
    assert BackendsOf(q, gone) == BackendsOf(p, gone);
    assert Park(q, gone, now).evicted == Park(p, gone, now).evicted;
  }

  lemma DeathIsPark(p: Pool, q: Pool, slotIndex: nat, order: seq<ExternalSid>, now: Instant)
    requires q == p.(slots := BackendDeath(p, slotIndex, now).slots)
    requires Sweep(SessionsOn(q, slotIndex), {}, order)
    ensures ParkEach(q, order, now).(inFlight := q.inFlight - Members(order)) == BackendDeath(p, slotIndex, now)
  {
    assert SessionsOn(q, slotIndex) == SessionsOn(p, slotIndex);
    assert Members(order) == SessionsOn(p, slotIndex);
    ParkEachIsPark(q, order, now);
    ParkSlots(p, q, Members(order), now);
  }

  lemma LeavingOn(p: Pool, gone: set<ExternalSid>, ext: ExternalSid, i: nat)
    requires ext in p.sessions && ext !in gone
    ensures |(gone + {ext}) * SessionsOn(p, i)|
            == |gone * SessionsOn(p, i)| + if p.sessions[ext].slotIndex == i then 1 else 0
  {
    if p.sessions[ext].slotIndex == i {
      assert (gone + {ext}) * SessionsOn(p, i) == gone * SessionsOn(p, i) + {ext};
    } else {
      assert (gone + {ext}) * SessionsOn(p, i) == gone * SessionsOn(p, i);
    }
  }

  ghost function Departures(p: Pool, order: seq<ExternalSid>, i: nat): nat {
    if order == [] then 0
    else
      var last := order[|order| - 1];
      Departures(p, order[..|order| - 1], i) +
      if last in p.sessions && p.sessions[last].slotIndex == i then 1 else 0
  }

  lemma {:induction false} DeparturesCounted(p: Pool, order: seq<ExternalSid>, i: nat)
    requires Distinct(order) && Members(order) <= p.sessions.Keys
    ensures Departures(p, order, i) == |Members(order) * SessionsOn(p, i)|
  {
    if order == [] {
      assert Members(order) * SessionsOn(p, i) == {};
    } else {
      var front, last := order[..|order| - 1], order[|order| - 1];
      assert order == front + [last];
      MembersAppend(front, last);
      assert last in Members(order);
      DeparturesCounted(p, front, i);
      LeavingOn(p, Members(front), last, i);
    }
  }

  /** Lowering one slot per departure equals lowering every slot by its number of departures. */
  lemma {:induction false} LowerEachCounts(p: Pool, order: seq<ExternalSid>, i: nat)
    requires i < |p.slots|
    ensures |LowerEach(p, order)| == |p.slots|
    ensures LowerEach(p, order)[i] == Lowered(p.slots[i], Departures(p, order, i))
  {
    if order != [] {
      LowerEachCounts(p, order[..|order| - 1], i);
    }
  }

  lemma LeavingSlots(p: Pool, order: seq<ExternalSid>)
    requires Distinct(order) && Members(order) <= p.sessions.Keys
    ensures p.strategy.LeastConnections? ==> LowerEach(p, order) == EvictedSlots(p, Members(order))
    ensures p.strategy.Dedicated? ==>
              forall i: nat | i < |p.slots| ::
                EvictedSlots(p, Members(order))[i] == if i in SlotsOf(p, order) then None else p.slots[i]
  {
    if p.strategy.LeastConnections? {
      LowerEachLength(p, order);
      forall i: nat | i < |p.slots| ensures LowerEach(p, order)[i] == EvictedSlot(p, Members(order), i) {
        LowerEachCounts(p, order, i);
        DeparturesCounted(p, order, i);
      }
    } else {
      forall i: nat | i < |p.slots|
        ensures |Members(order) * SessionsOn(p, i)| > 0 <==> i in SlotsOf(p, order)
      {
        if ext :| ext in order && p.sessions[ext].slotIndex == i {
          assert ext in Members(order) && ext in Members(order) * SessionsOn(p, i);
        } else {
          assert Members(order) * SessionsOn(p, i) == {};
        }
      }
    }
  }

  lemma {:induction false} LowerEachLength(p: Pool, order: seq<ExternalSid>)
    ensures |LowerEach(p, order)| == |p.slots|
  {
    if order != [] {
      LowerEachLength(p, order[..|order| - 1]);
    }
  }

  lemma {:induction false} MembersOfDistinct(order: seq<ExternalSid>)
    requires Distinct(order)
    ensures |Members(order)| == |order|
  {
    if order != [] {
      var last := |order| - 1;
      MembersOfDistinct(order[..last]);
      assert Members(order) == Members(order[..last]) + {order[last]};
    }
  }

  lemma KeepRest(p: Pool, rest: map<ExternalSid, EvictedSession>)
    requires rest.Keys <= p.evicted.Keys && forall ext | ext in rest :: rest[ext] == p.evicted[ext]
    ensures KeepEvicted(p, rest.Keys) == p.(evicted := rest)
  {
    assert KeepEvicted(p, rest.Keys).evicted == rest;
  }

  lemma OldestDropped(evicted: map<ExternalSid, EvictedSession>, order: seq<ExternalSid>, excess: nat)
    requires excess <= |order| == |evicted|
    requires forall i | 0 <= i < |order| :: order[i] in evicted
    requires forall i, j | 0 <= i < j < |order| ::
               order[i] != order[j] && evicted[order[i]].evictedAt <= evicted[order[j]].evictedAt
    ensures var dropped := Members(order[..excess]);
            && dropped <= evicted.Keys
            && |evicted.Keys - dropped| == |evicted| - excess
            && forall k, r | k in evicted.Keys - dropped && r in dropped ::
                 evicted[r].evictedAt <= evicted[k].evictedAt
  {
    var dropped := Members(order[..excess]);
    MembersOfDistinct(order[..excess]);
    MembersOfDistinct(order);
    assert dropped <= evicted.Keys;
    assert |evicted.Keys - dropped| == |evicted.Keys| - |dropped|;
    Everyone(evicted.Keys, Members(order));
    forall k, r | k in evicted.Keys - dropped && r in dropped
      ensures evicted[r].evictedAt <= evicted[k].evictedAt
    {
      assert k in Members(order);
      var j :| 0 <= j < |order| && order[j] == k;
      var i :| 0 <= i < excess && order[i] == r;
      assert k !in order[..excess];
    }
  }

  lemma Everyone(all: set<ExternalSid>, some: set<ExternalSid>)
    requires some <= all && |some| == |all|
    ensures some == all
  {
    assert all == some + (all - some);
    assert |all| == |some| + |all - some|;
  }

  lemma {:induction false} Oldest(evicted: map<ExternalSid, EvictedSession>, todo: set<ExternalSid>)
    returns (next: ExternalSid)
    requires todo != {} && todo <= evicted.Keys
    ensures next in todo && forall ext | ext in todo :: evicted[next].evictedAt <= evicted[ext].evictedAt
  {
    next :| next in todo;
    if todo != {next} {
      var other := Oldest(evicted, todo - {next});
      if evicted[other].evictedAt < evicted[next].evictedAt {
        next := other;
      }
    }
  }
}
