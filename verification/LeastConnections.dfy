/** Least-connections mode spreads sessions evenly; the first of the least loaded slots wins. */
module LeastConnections {
  import opened Wrappers
  import opened PoolModel
  import opened GatewaySystem

  datatype NewSession = NewSession(
    rid: nat, ext: ExternalSid, back: BackendSid, cwd: Path, frontend: FrontendId, now: Instant)

  /** One new session: select, then register. */
  function Add(p: Pool, n: NewSession): Pool
    requires SelectSlot(p).Some?
  {
    Register(p, n.ext, n.back, SelectSlot(p).value, n.cwd, n.frontend, n.now)
  }

  lemma AddKeepsAlive(p: Pool, n: NewSession)
    requires p.strategy.LeastConnections? && SelectSlot(p).Some?
    ensures forall i: nat :: Alive(Add(p, n).slots, i) <==> Alive(p.slots, i)
    ensures Add(p, n).strategy == p.strategy
    ensures SelectSlot(Add(p, n)).Some?
  {
    assert Alive(Add(p, n).slots, SelectSlot(p).value);
  }

  function AddAll(p: Pool, ns: seq<NewSession>): Pool
    requires p.strategy.LeastConnections? && SelectSlot(p).Some?
    decreases |ns|
  {
    if ns == [] then p
    else
      AddKeepsAlive(p, ns[0]);
      AddAll(Add(p, ns[0]), ns[1..])
  }

  function Requests(n: NewSession): seq<Event> {
    [StartNew(n.rid, n.cwd, n.frontend, false), CreateReplied(n.rid, n.ext, n.back, n.now)]
  }

  /** A new_session request that is answered at once does exactly this to the pool. */
  lemma AddIsNewSession(s: System, n: NewSession)
    requires s.pool.strategy.LeastConnections? && SelectSlot(s.pool).Some?
    requires n.rid !in s.transit && Fresh(s, n.ext, n.back)
    ensures Run(s, Requests(n))
    ensures After(s, Requests(n))
            == System(Add(s.pool, n), s.transit, s.bound[n.ext := Binding(n.back, n.cwd)])
  {
    var e1, e2 := StartNew(n.rid, n.cwd, n.frontend, false), CreateReplied(n.rid, n.ext, n.back, n.now);
    var slot := SelectSlot(s.pool).value;
    assert Step(s, e1) == s.(transit := s.transit[n.rid := Creating(slot, n.cwd, n.frontend, Calling)]);
    AnswerAdds(s, n, slot);
    RunTwo(s, e1, e2);
  }

  function AllRequests(ns: seq<NewSession>): seq<Event> {
    if ns == [] then [] else Requests(ns[0]) + AllRequests(ns[1..])
  }

  /** Ids that are new to the system and to each other. */
  ghost predicate AllFresh(s: System, ns: seq<NewSession>) {
    && (forall n | n in ns :: n.rid !in s.transit && Fresh(s, n.ext, n.back))
    && (forall i, j | 0 <= i < j < |ns| :: ns[i].ext != ns[j].ext && ns[i].back != ns[j].back)
  }

  /** Main result: a run of answered new_session requests, one after the other, is that many additions. */
  lemma {:induction false} AddAllIsARun(s: System, ns: seq<NewSession>)
    requires s.pool.strategy.LeastConnections? && SelectSlot(s.pool).Some? && AllFresh(s, ns)
    ensures Run(s, AllRequests(ns))
    ensures After(s, AllRequests(ns)).pool == AddAll(s.pool, ns)
    decreases |ns|
  {
    if ns != [] {
      var t := System(Add(s.pool, ns[0]), s.transit, s.bound[ns[0].ext := Binding(ns[0].back, ns[0].cwd)]);
      AddIsNewSession(s, ns[0]);
      AddKeepsAlive(s.pool, ns[0]);
      StillFresh(s, t, ns);
      AddAllIsARun(t, ns[1..]);
      RunAppend(s, Requests(ns[0]), AllRequests(ns[1..]));
    }
  }

  lemma StillFresh(s: System, t: System, ns: seq<NewSession>)
    requires ns != [] && AllFresh(s, ns)
    requires t.transit == s.transit && t.bound == s.bound[ns[0].ext := Binding(ns[0].back, ns[0].cwd)]
    ensures AllFresh(t, ns[1..])
  {
    forall n | n in ns[1..] ensures n.rid !in t.transit && Fresh(t, n.ext, n.back) {
      var i :| 0 <= i < |ns[1..]| && ns[1..][i] == n;
      assert n == ns[i + 1] && ns[0].ext != ns[i + 1].ext && ns[0].back != ns[i + 1].back;
    }
  }

  lemma AnswerAdds(s: System, n: NewSession, slot: nat)
    requires n.rid !in s.transit && Fresh(s, n.ext, n.back)
    ensures var s1 := s.(transit := s.transit[n.rid := Creating(slot, n.cwd, n.frontend, Calling)]);
            var e := CreateReplied(n.rid, n.ext, n.back, n.now);
            && Enabled(s1, e)
            && Step(s1, e) == System(Register(s.pool, n.ext, n.back, slot, n.cwd, n.frontend, n.now), s.transit,
                                     s.bound[n.ext := Binding(n.back, n.cwd)])
  {
    assert s.transit[n.rid := Creating(slot, n.cwd, n.frontend, Calling)] - {n.rid} == s.transit;
  }

  // ----- Ranks of the alive slots -----

  /** How many of the first `i` slots are alive. */
  function Rank(slots: seq<Option<Slot>>, i: nat): (r: nat)
    requires i <= |slots|
    ensures r <= i
  {
    if i == 0 then 0 else Rank(slots, i - 1) + if Alive(slots, i - 1) then 1 else 0
  }

  lemma {:induction false} RankMonotone(slots: seq<Option<Slot>>, i: nat, j: nat)
    requires i <= j <= |slots|
    ensures Rank(slots, i) <= Rank(slots, j)
    ensures i < j && Alive(slots, i) ==> Rank(slots, i) < Rank(slots, j)
    decreases j
  {
    if i < j {
      RankMonotone(slots, i, j - 1);
    }
  }

  lemma {:induction false} SlotOfRank(slots: seq<Option<Slot>>, n: nat, k: nat) returns (i: nat)
    requires n <= |slots| && k < Rank(slots, n)
    ensures i < n && Alive(slots, i) && Rank(slots, i) == k
  {
    if Alive(slots, n - 1) && Rank(slots, n - 1) == k {
      i := n - 1;
    } else {
      i := SlotOfRank(slots, n - 1, k);
    }
  }

  lemma {:induction false} SameRank(a: seq<Option<Slot>>, b: seq<Option<Slot>>, i: nat)
    requires |a| == |b| && i <= |a|
    requires forall j: nat | j < |a| :: Alive(a, j) <==> Alive(b, j)
    ensures Rank(a, i) == Rank(b, i)
  {
    if i > 0 {
      SameRank(a, b, i - 1);
    }
  }

  // ----- The exact distribution -----

  /** Sessions on the alive slot of rank `r` of `m` after `n` were added to an empty pool. */
  function Share(n: nat, m: nat, r: nat): nat
    requires r < m
  {
    (n + m - 1 - r) / m
  }

  lemma MulMono(x: nat, y: nat, m: nat)
    ensures x <= y ==> x * m <= y * m
  {
  }

  lemma DivIs(a: nat, m: nat, q: nat, rem: nat)
    requires m > 0 && a == q * m + rem && rem < m
    ensures a / m == q && a % m == rem
  {
    var d := a / m;
    assert a == d * m + a % m;
    MulMono(d + 1, q, m);
    MulMono(q + 1, d, m);
    assert (d + 1) * m == d * m + m && (q + 1) * m == q * m + m;
  }

  lemma NextRound(n: nat, m: nat)
    requires m > 0
    ensures if n % m + 1 < m then (n + 1) / m == n / m && (n + 1) % m == n % m + 1
            else (n + 1) / m == n / m + 1 && (n + 1) % m == 0
  {
    var q, k := n / m, n % m;
    assert n == q * m + k;
    if k + 1 < m {
      DivIs(n + 1, m, q, k + 1);
    } else {
      assert (q + 1) * m == q * m + m;
      DivIs(n + 1, m, q + 1, 0);
    }
  }

  /** The share is the full rounds, plus one for the ranks already served in the current round. */
  lemma ShareByRound(n: nat, m: nat, r: nat)
    requires r < m
    ensures Share(n, m, r) == n / m + if r < n % m then 1 else 0
  {
    var q, k := n / m, n % m;
    assert n == q * m + k;
    if r < k {
      assert n + m - 1 - r == (q + 1) * m + (k - 1 - r);
      DivIs(n + m - 1 - r, m, q + 1, k - 1 - r);
    } else {
      DivIs(n + m - 1 - r, m, q, k + m - 1 - r);
    }
  }

  lemma NextShare(n: nat, m: nat, r: nat)
    requires r < m
    ensures Share(n + 1, m, r) == Share(n, m, r) + if r == n % m then 1 else 0
  {
    ShareByRound(n, m, r);
    ShareByRound(n + 1, m, r);
    NextRound(n, m);
  }

  ghost predicate Even(p: Pool, n: nat) {
    && p.strategy.LeastConnections?
    && Rank(p.slots, |p.slots|) > 0
    && forall i: nat | i < |p.slots| && Alive(p.slots, i) ::
         Rank(p.slots, i) < Rank(p.slots, |p.slots|)
         && Load(p.slots, i) == Share(n, Rank(p.slots, |p.slots|), Rank(p.slots, i))
  }

  /** In an even state the next session goes to the slot whose turn it is. */
  lemma NextTurn(p: Pool, n: nat)
    requires Even(p, n)
    ensures SelectSlot(p).Some? && Alive(p.slots, SelectSlot(p).value)
    ensures Rank(p.slots, SelectSlot(p).value) == n % Rank(p.slots, |p.slots|)
  {
    var m := Rank(p.slots, |p.slots|);
    var j := SlotOfRank(p.slots, |p.slots|, n % m);
    var i := SelectSlot(p).value;
    ShareByRound(n, m, Rank(p.slots, i));
    ShareByRound(n, m, Rank(p.slots, j));
    RankMonotone(p.slots, i, j);
  }

  lemma EvenStep(p: Pool, n: nat, next: NewSession)
    requires Even(p, n) && SelectSlot(p).Some?
    ensures Even(Add(p, next), n + 1)
    ensures |Add(p, next).slots| == |p.slots|
  {
    NextTurn(p, n);
    var q, m, at := Add(p, next), Rank(p.slots, |p.slots|), SelectSlot(p).value;
    SameRank(p.slots, q.slots, |p.slots|);
    forall i: nat | i < |q.slots| && Alive(q.slots, i)
      ensures Rank(q.slots, i) < m && Load(q.slots, i) == Share(n + 1, m, Rank(q.slots, i))
    {
      SameRank(p.slots, q.slots, i);
      NextShare(n, m, Rank(p.slots, i));
      if i < at {
        RankMonotone(p.slots, i, at);
      } else if at < i {
        RankMonotone(p.slots, at, i);
      }
    }
  }

  lemma {:induction false} EvenAfter(p: Pool, n: nat, ns: seq<NewSession>, total: nat)
    requires Even(p, n) && SelectSlot(p).Some? && total == n + |ns|
    ensures Even(AddAll(p, ns), total)
    decreases |ns|
  {
    if ns != [] {
      EvenStep(p, n, ns[0]);
      AddKeepsAlive(p, ns[0]);
      EvenAfter(Add(p, ns[0]), n + 1, ns[1..], total);
    }
  }

  lemma {:induction false} AliveAfter(p: Pool, ns: seq<NewSession>)
    requires p.strategy.LeastConnections? && SelectSlot(p).Some?
    ensures |AddAll(p, ns).slots| == |p.slots|
    ensures forall i: nat :: Alive(AddAll(p, ns).slots, i) <==> Alive(p.slots, i)
    decreases |ns|
  {
    if ns != [] {
      AddKeepsAlive(p, ns[0]);
      AliveAfter(Add(p, ns[0]), ns[1..]);
    }
  }

  lemma EmptyIsEven(p: Pool)
    requires p.strategy.LeastConnections? && SelectSlot(p).Some?
    requires forall j: nat | Alive(p.slots, j) :: Load(p.slots, j) == 0
    ensures Even(p, 0)
  {
    var m := Rank(p.slots, |p.slots|);
    RankMonotone(p.slots, SelectSlot(p).value, |p.slots|);
    forall j: nat | j < |p.slots| && Alive(p.slots, j)
      ensures Rank(p.slots, j) < m && Load(p.slots, j) == Share(0, m, Rank(p.slots, j))
    {
      RankMonotone(p.slots, j, |p.slots|);
      DivIs(m - 1 - Rank(p.slots, j), m, 0, m - 1 - Rank(p.slots, j));
    }
  }

  /**
   * Main result: `n` new sessions on `m` alive empty slots leave the alive slot of rank `r` with
   * exactly floor((n + m - 1 - r) / m) of them, whatever dead or empty slots lie between.
   */
  lemma ExactShares(p: Pool, ns: seq<NewSession>, i: nat)
    requires p.strategy.LeastConnections? && SelectSlot(p).Some?
    requires forall j: nat | Alive(p.slots, j) :: Load(p.slots, j) == 0
    requires i < |p.slots| && Alive(p.slots, i)
    ensures Rank(p.slots, i) < Rank(p.slots, |p.slots|)
    ensures Load(AddAll(p, ns).slots, i) == Share(|ns|, Rank(p.slots, |p.slots|), Rank(p.slots, i))
  {
    EmptyIsEven(p);
    EvenAfter(p, 0, ns, |ns|);
    AliveAfter(p, ns);
    SameRank(p.slots, AddAll(p, ns).slots, i);
    SameRank(p.slots, AddAll(p, ns).slots, |p.slots|);
  }

  // ----- The spread from any state -----

  ghost predicate SpreadAtMost(p: Pool, d: nat) {
    forall i: nat, j: nat | Alive(p.slots, i) && Alive(p.slots, j) :: Load(p.slots, i) <= Load(p.slots, j) + d
  }

  /** Main result: a new session never widens the spread of loads beyond max(old spread, 1). */
  lemma SpreadNeverWidens(p: Pool, n: NewSession, d: nat)
    requires p.strategy.LeastConnections? && SelectSlot(p).Some?
    requires d >= 1 && SpreadAtMost(p, d)
    ensures SpreadAtMost(Add(p, n), d)
  {
    var q, at := Add(p, n), SelectSlot(p).value;
    forall i: nat, j: nat | Alive(q.slots, i) && Alive(q.slots, j)
      ensures Load(q.slots, i) <= Load(q.slots, j) + d
    {
      assert Alive(p.slots, i) && Alive(p.slots, j);
    }
  }

  lemma {:induction false} SpreadNeverWidensAll(p: Pool, ns: seq<NewSession>, d: nat)
    requires p.strategy.LeastConnections? && SelectSlot(p).Some?
    requires d >= 1 && SpreadAtMost(p, d)
    ensures SpreadAtMost(AddAll(p, ns), d)
    decreases |ns|
  {
    if ns != [] {
      SpreadNeverWidens(p, ns[0], d);
      AddKeepsAlive(p, ns[0]);
      SpreadNeverWidensAll(Add(p, ns[0]), ns[1..], d);
    }
  }
}
