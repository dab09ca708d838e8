/**
 * The model client's rate limiter, over the reals. A caller that finds no token is told how long to
 * sleep and then proceeds without taking one.
 */
module TokenBucket {
  datatype Bucket = Bucket(tokens: real, capacity: real, rate: real, last: real)

  /** `Panics` stands for the infinite wait that a rate of zero asks for, which is no duration. */
  datatype Decision = Granted | WaitFor(seconds: real) | Panics

  function New(requestsPerMinute: nat, now: real): Bucket {
    Bucket(requestsPerMinute as real, requestsPerMinute as real, requestsPerMinute as real / 60.0, now)
  }

  function Min(a: real, b: real): real {
    if a <= b then a else b
  }

  /** A clock that went back counts as no time. */
  function Elapsed(b: Bucket, now: real): real {
    if now >= b.last then now - b.last else 0.0
  }

  function Refill(b: Bucket, now: real): Bucket {
    b.(tokens := Min(b.tokens + Elapsed(b, now) * b.rate, b.capacity), last := now)
  }

  function Acquire(b: Bucket, now: real): (Bucket, Decision) {
    var full := Refill(b, now);
    if full.tokens >= 1.0 then (full.(tokens := full.tokens - 1.0), Granted)
    else if full.rate == 0.0 then (full, Panics)
    else (full, WaitFor((1.0 - full.tokens) / full.rate))
  }

  class Limiter {
    var tokens: real
    var lastRefill: real
    const capacity: real
    const refillRate: real

    ghost function View(): Bucket
      reads this
    {
      Bucket(tokens, capacity, refillRate, lastRefill)
    }

    constructor (requestsPerMinute: nat, now: real)
      ensures View() == New(requestsPerMinute, now)
    {
      capacity := requestsPerMinute as real;
      tokens := requestsPerMinute as real;
      refillRate := requestsPerMinute as real / 60.0;
      lastRefill := now;
    }

    method AcquireToken(now: real) returns (d: Decision)
      modifies this
      ensures (View(), d) == Acquire(old(View()), now)
    {
      var elapsed := if now >= lastRefill then now - lastRefill else 0.0;
      tokens := Min(tokens + elapsed * refillRate, capacity);
      lastRefill := now;
      if tokens >= 1.0 {
        tokens := tokens - 1.0;
        return Granted;
      }
      d := if refillRate == 0.0 then Panics else WaitFor((1.0 - tokens) / refillRate);
    }
  }

  // ----- Calls at a sequence of instants -----

  function After(b: Bucket, times: seq<real>): Bucket
    decreases |times|
  {
    if times == [] then b else After(Acquire(b, times[0]).0, times[1..])
  }

  function Decisions(b: Bucket, times: seq<real>): (ds: seq<Decision>)
    ensures |ds| == |times|
    decreases |times|
  {
    if times == [] then [] else [Acquire(b, times[0]).1] + Decisions(Acquire(b, times[0]).0, times[1..])
  }

  function Cost(d: Decision): nat {
    if d.Granted? then 1 else 0
  }

  function Grants(ds: seq<Decision>): nat {
    if ds == [] then 0 else Cost(ds[0]) + Grants(ds[1..])
  }

  predicate Ordered(times: seq<real>) {
    forall i, j | 0 <= i < j < |times| :: times[i] <= times[j]
  }

  predicate Within(b: Bucket, requestsPerMinute: nat) {
    && 0.0 <= b.tokens <= b.capacity
    && b.capacity == requestsPerMinute as real && b.rate == b.capacity / 60.0
  }

  lemma GainIsNonNegative(elapsed: real, rate: real)
    requires elapsed >= 0.0 && rate >= 0.0
    ensures elapsed * rate >= 0.0
  {
  }

  lemma AcquireStaysWithin(b: Bucket, now: real, rpm: nat)
    requires Within(b, rpm)
    ensures Within(Refill(b, now), rpm) && Within(Acquire(b, now).0, rpm)
    ensures Acquire(b, now).1.Panics? <==> rpm == 0
  {
    GainIsNonNegative(Elapsed(b, now), b.rate);
  }

  /** Main result: whatever the clock does, the tokens stay between none and full; only a rate of zero panics. */
  lemma {:induction false} StaysWithin(b: Bucket, times: seq<real>, rpm: nat)
    requires Within(b, rpm)
    ensures Within(After(b, times), rpm)
    ensures forall d | d in Decisions(b, times) :: d.Panics? <==> rpm == 0
    decreases |times|
  {
    if times != [] {
      AcquireStaysWithin(b, times[0], rpm);
      StaysWithin(Acquire(b, times[0]).0, times[1..], rpm);
    }
  }

  // ----- How many are let through at once -----

  /** What the bucket holds and can still gain by an instant comes within a budget. */
  predicate Affords(budget: real, b: Bucket, until: real) {
    b.tokens + (until - b.last) * b.rate <= budget
  }

  lemma GrantCosts(b: Bucket, now: real, until: real, rpm: nat, budget: real)
    requires Within(b, rpm) && b.last <= now <= until && Affords(budget, b, until)
    ensures Affords(budget - Cost(Acquire(b, now).1) as real, Acquire(b, now).0, until)
  {
    assert (until - b.last) * b.rate == (until - now) * b.rate + (now - b.last) * b.rate;
  }

  lemma NothingLeft(b: Bucket, until: real, rpm: nat, budget: real)
    requires Within(b, rpm) && b.last <= until && Affords(budget, b, until)
    ensures 0.0 <= budget
  {
    GainIsNonNegative(until - b.last, b.rate);
  }

  lemma {:induction false} GrantsAreFunded(b: Bucket, times: seq<real>, until: real, rpm: nat, budget: real)
    requires Within(b, rpm) && Ordered(times) && b.last <= until && Affords(budget, b, until)
    requires forall t | t in times :: b.last <= t <= until
    ensures Grants(Decisions(b, times)) as real <= budget
    decreases |times|
  {
    if times == [] {
      NothingLeft(b, until, rpm, budget);
    } else {
      var (c, d) := Acquire(b, times[0]);
      assert times[0] in times;
      AcquireStaysWithin(b, times[0], rpm);
      GrantCosts(b, times[0], until, rpm, budget);
      LaterTimes(times, until);
      GrantsAreFunded(c, times[1..], until, rpm, budget - Cost(d) as real);
      GrantsStep(b, times);
    }
  }

  lemma LaterTimes(times: seq<real>, until: real)
    requires Ordered(times) && times != [] && forall t | t in times :: t <= until
    ensures Ordered(times[1..]) && forall t | t in times[1..] :: times[0] <= t <= until
  {
    forall t | t in times[1..] ensures times[0] <= t <= until {
      var i :| 0 <= i < |times[1..]| && times[1..][i] == t;
      assert times[0] <= times[i + 1] && times[i + 1] in times;
    }
  }

  lemma GrantsStep(b: Bucket, times: seq<real>)
    requires times != []
    ensures var (c, d) := Acquire(b, times[0]);
            Grants(Decisions(b, times)) == Cost(d) + Grants(Decisions(c, times[1..]))
  {
  }

  /** Main result: in every window of a run the immediate grants number at most capacity * (1 + T / 60). */
  lemma GrantsInWindow(rpm: nat, start: real, before: seq<real>, window: seq<real>, length: real)
    requires Ordered(window) && window != [] && window[|window| - 1] - window[0] <= length
    ensures Grants(Decisions(After(New(rpm, start), before), window)) as real <= rpm as real * (1.0 + length / 60.0)
  {
    var b := After(New(rpm, start), before);
    StaysWithin(New(rpm, start), before, rpm);
    var first, until := window[0], window[|window| - 1];
    var full := Refill(b, first);
    AcquireStaysWithin(b, first, rpm);
    SameDecisions(b, window, rpm);
    forall t | t in window ensures first <= t <= until {
      var i :| 0 <= i < |window| && window[i] == t;
    }
    WindowBudget(full, until, length, rpm);
    GrantsAreFunded(full, window, until, rpm, rpm as real * (1.0 + length / 60.0));
  }

  lemma SameDecisions(b: Bucket, window: seq<real>, rpm: nat)
    requires Within(b, rpm) && window != []
    ensures Decisions(Refill(b, window[0]), window) == Decisions(b, window)
  {
    RefillIsIdempotent(b, window[0], rpm);
  }

  lemma RefillIsIdempotent(b: Bucket, now: real, rpm: nat)
    requires Within(b, rpm)
    ensures Refill(Refill(b, now), now) == Refill(b, now) && Acquire(Refill(b, now), now) == Acquire(b, now)
  {
  }

  lemma WindowBudget(b: Bucket, until: real, length: real, rpm: nat)
    requires Within(b, rpm) && until - b.last <= length
    ensures Affords(rpm as real * (1.0 + length / 60.0), b, until)
  {
    var c, elapsed := rpm as real, until - b.last;
    assert elapsed * c <= length * c;
    assert elapsed * b.rate == elapsed * c / 60.0 && c * (1.0 + length / 60.0) == c + length * c / 60.0;
  }

  /** How far the clock goes forward, steps back left out. */
  function Forward(last: real, times: seq<real>): real
    decreases |times|
  {
    if times == [] then 0.0
    else (if times[0] > last then times[0] - last else 0.0) + Forward(times[0], times[1..])
  }

  /** The budget covers what the bucket holds and gains while the clock goes that far forward. */
  predicate Covers(budget: real, b: Bucket, forward: real) {
    b.tokens + forward * b.rate <= budget
  }

  lemma CallIsCovered(b: Bucket, now: real, rest: real, rpm: nat, budget: real)
    requires Within(b, rpm) && Covers(budget, b, (if now > b.last then now - b.last else 0.0) + rest)
    ensures Covers(budget - Cost(Acquire(b, now).1) as real, Acquire(b, now).0, rest)
  {
    var step := if now > b.last then now - b.last else 0.0;
    assert (step + rest) * b.rate == step * b.rate + rest * b.rate;
  }

  /** Main result: whatever the clock does, grants and what is left are paid by the tokens and the time gone forward. */
  lemma {:induction false} GrantsWithAnyClock(b: Bucket, times: seq<real>, rpm: nat, budget: real)
    requires Within(b, rpm) && Covers(budget, b, Forward(b.last, times))
    ensures Grants(Decisions(b, times)) as real + After(b, times).tokens <= budget
    decreases |times|
  {
    if times != [] {
      var (c, d) := Acquire(b, times[0]);
      AcquireStaysWithin(b, times[0], rpm);
      CallIsCovered(b, times[0], Forward(times[0], times[1..]), rpm, budget);
      GrantsWithAnyClock(c, times[1..], rpm, budget - Cost(d) as real);
      GrantsStep(b, times);
    }
  }

  // ----- What a refusal promises, and what it does not -----

  /** Main result: the wait is the least delay after which a caller, left alone, finds a token. */
  lemma WaitIsLeast(b: Bucket, now: real, rpm: nat, delay: real)
    requires Within(b, rpm) && Acquire(b, now).1.WaitFor? && delay >= 0.0
    ensures Acquire(b, now).1.seconds > 0.0
    ensures Acquire(Acquire(b, now).0, now + delay).1.Granted? <==> delay >= Acquire(b, now).1.seconds
  {
    var (c, d) := Acquire(b, now);
    AcquireStaysWithin(b, now, rpm);
    assert rpm >= 1;
    DivideThrough(1.0 - c.tokens, delay, c.rate);
    DivideThrough(1.0 - c.tokens, 0.0, c.rate);
  }

  lemma DivideThrough(missing: real, delay: real, rate: real)
    requires rate > 0.0
    ensures delay >= missing / rate <==> delay * rate >= missing
  {
    var q := missing / rate;
    assert q * rate == missing;
    if delay >= q {
      assert delay * rate >= q * rate;
    } else {
      assert delay * rate < q * rate;
    }
  }

  function Burst(now: real, n: nat): seq<real> {
    seq(n, _ => now)
  }

  /**
   * Main result: of n calls at one instant exactly those the tokens cover are granted, and all others
   * are told the same wait; so after it they all proceed together, however many they are.
   */
  lemma {:induction false} BurstSharesOneWait(b: Bucket, now: real, whole: nat, n: nat, rpm: nat, k: nat)
    requires Within(b, rpm) && rpm >= 1 && k < n
    requires whole as real <= Refill(b, now).tokens < whole as real + 1.0
    ensures Decisions(b, Burst(now, n))[k]
            == if k < whole then Granted
               else WaitFor((1.0 - (Refill(b, now).tokens - whole as real)) / b.rate)
    decreases n
  {
    var c := Acquire(b, now).0;
    AcquireStaysWithin(b, now, rpm);
    assert Burst(now, n)[1..] == Burst(now, n - 1);
    assert c.last == now && Refill(c, now) == c;
    if k > 0 {
      BurstSharesOneWait(c, now, if whole > 0 then whole - 1 else 0, n - 1, rpm, k - 1);
    }
  }

  /** On a fresh limiter every call past the first `rpm` sleeps 60 / rpm seconds and then goes ahead. */
  lemma FreshBurst(rpm: nat, start: real, n: nat, k: nat)
    requires rpm >= 1 && k < n
    ensures Decisions(New(rpm, start), Burst(start, n))[k] == if k < rpm then Granted else WaitFor(60.0 / rpm as real)
  {
    var b := New(rpm, start);
    assert Refill(b, start) == b;
    BurstSharesOneWait(b, start, rpm, n, rpm, k);
    assert 1.0 / (rpm as real / 60.0) == 60.0 / rpm as real;
  }
}
