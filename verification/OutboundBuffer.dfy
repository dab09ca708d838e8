/**
 * The bounded queue between a peer's output and its HTTP stream. The oldest message gives way when
 * it is full, one stream at a time may take messages out, and a closed queue still hands out the rest.
 */
module OutboundBuffer {
  import opened Wrappers

  datatype ClaimError = StreamAlreadyOpen | ConnectionClosed

  datatype Queue<T> = Queue(limit: nat, messages: seq<T>, streamOpen: bool, closed: bool)

  predicate Full<T>(q: Queue<T>) {
    q.messages != [] && |q.messages| >= q.limit
  }

  function Push<T>(q: Queue<T>, message: T): Queue<T> {
    if q.closed then q
    else q.(messages := (if Full(q) then q.messages[1..] else q.messages) + [message])
  }

  function Claim<T>(q: Queue<T>): Result<Queue<T>, ClaimError> {
    if q.streamOpen then Failure(StreamAlreadyOpen)
    else if q.closed && q.messages == [] then Failure(ConnectionClosed)
    else Success(q.(streamOpen := true))
  }

  class Buffer<T> {
    const limit: nat
    var queue: seq<T>
    var streamOpen: bool
    var closed: bool

    ghost function View(): Queue<T>
      reads this
    {
      Queue(limit, queue, streamOpen, closed)
    }

    constructor (maxBufferedMessages: nat)
      ensures View() == Queue(maxBufferedMessages, [], false, false)
    {
      limit, queue, streamOpen, closed := maxBufferedMessages, [], false, false;
    }

    method PushMessage(message: T)
      modifies this
      ensures View() == Push(old(View()), message)
    {
      if closed {
        return;
      }
      if |queue| >= limit && queue != [] {
        queue := queue[1..];
      }
      queue := queue + [message];
    }

    method Close()
      modifies this
      ensures View() == old(View()).(closed := true)
    {
      closed := true;
    }

    method ClaimStream() returns (r: Result<(), ClaimError>)
      modifies this
      ensures var c := Claim(old(View()));
              if c.Success? then r == Success(()) && View() == c.value
              else r == Failure(c.error) && View() == old(View())
    {
      if streamOpen {
        return Failure(StreamAlreadyOpen);
      }
      if closed && queue == [] {
        return Failure(ConnectionClosed);
      }
      streamOpen := true;
      r := Success(());
    }

    method ReleaseStream()
      modifies this
      ensures View() == old(View()).(streamOpen := false)
    {
      streamOpen := false;
    }

    /** The first look of `next_message`; the second, at `closed`, takes the lock anew. */
    method PopFront() returns (r: Option<T>)
      modifies this
      ensures if old(queue) == [] then r == None && View() == old(View())
              else r == Some(old(queue)[0]) && View() == old(View()).(messages := old(queue)[1..])
    {
      if queue == [] {
        return None;
      }
      r, queue := Some(queue[0]), queue[1..];
    }
  }

  // ----- Runs of locked operations -----

  /** What became of an accepted message, and how many messages had been accepted by then. */
  datatype Fate = Waiting | Delivered(at: nat) | Dropped(at: nat)

  /** The reader of the open stream; `Looking` once it found the queue empty when `seen` were accepted. */
  datatype Reader = Idle | Looking(seen: nat) | Ended

  datatype Channel<T> = Channel(
    queue: Queue<T>,
    accepted: seq<T>,
    fates: seq<Fate>,
    delivered: seq<T>,
    leases: nat,
    reader: Reader)

  datatype Event<T> = Pushed(message: T) | Closed | Claimed | Released | Popped | CheckedClosed

  /** Only the holder of a lease reads, looks again or lets go. */
  predicate Enabled<T>(c: Channel<T>, e: Event<T>) {
    match e
    case Popped => c.leases > 0 && c.reader.Idle?
    case CheckedClosed => c.leases > 0 && c.reader.Looking?
    case Released => c.leases > 0
    case _ => true
  }

  /** How many accepted messages have left the queue. */
  function Head<T>(c: Channel<T>): int {
    |c.accepted| - |c.queue.messages|
  }

  function Settle(fates: seq<Fate>, i: int, fate: Fate): seq<Fate> {
    if 0 <= i < |fates| then fates[i := fate] else fates
  }

  function Step<T>(c: Channel<T>, e: Event<T>): Channel<T>
    requires Enabled(c, e)
  {
    match e
    case Pushed(m) =>
      if c.queue.closed then c
      else
        var settled := if Full(c.queue) then Settle(c.fates, Head(c), Dropped(|c.accepted| + 1)) else c.fates;
        c.(queue := Push(c.queue, m), accepted := c.accepted + [m], fates := settled + [Waiting])
    case Closed => c.(queue := c.queue.(closed := true))
    case Claimed =>
      var claim := Claim(c.queue);
      if claim.Success? then c.(queue := claim.value, leases := c.leases + 1) else c
    case Released => c.(queue := c.queue.(streamOpen := false), leases := c.leases - 1, reader := Idle)
    case Popped =>
      if c.queue.messages == [] then c.(reader := Looking(|c.accepted|))
      else c.(queue := c.queue.(messages := c.queue.messages[1..]),
              fates := Settle(c.fates, Head(c), Delivered(|c.accepted|)),
              delivered := c.delivered + [c.queue.messages[0]])
    case CheckedClosed => c.(reader := if c.queue.closed then Ended else Idle)
  }

  predicate Run<T>(c: Channel<T>, es: seq<Event<T>>)
    decreases |es|
  {
    es == [] || (Enabled(c, es[0]) && Run(Step(c, es[0]), es[1..]))
  }

  function After<T>(c: Channel<T>, es: seq<Event<T>>): Channel<T>
    requires Run(c, es)
    decreases |es|
  {
    if es == [] then c else After(Step(c, es[0]), es[1..])
  }

  function Opening<T>(limit: nat): Channel<T> {
    Channel(Queue(limit, [], false, false), [], [], [], 0, Idle)
  }

  /** A limit of zero still holds one message. */
  function Capacity<T>(c: Channel<T>): nat {
    if c.queue.limit == 0 then 1 else c.queue.limit
  }

  /** The delivered ones among some messages, in order. */
  function Chosen<T>(messages: seq<T>, fates: seq<Fate>): seq<T>
    requires |messages| == |fates|
  {
    if messages == [] then []
    else
      var last := |messages| - 1;
      Chosen(messages[..last], fates[..last]) + if fates[last].Delivered? then [messages[last]] else []
  }

  /** The queue is the last accepted messages, and it fits. */
  ghost predicate QueueIsSuffix<T>(c: Channel<T>) {
    && |c.fates| == |c.accepted| && 0 <= Head(c)
    && c.queue.messages == c.accepted[Head(c)..]
    && |c.queue.messages| <= Capacity(c)
  }

  /**
   * Exactly the messages before the queue have met their fate: delivered while at most `capacity`
   * had been accepted from it on, or dropped by the push that made them more. Fates come in order.
   */
  predicate FatesSettled(fates: seq<Fate>, head: int, capacity: nat)
    requires 0 <= head <= |fates|
  {
    && (forall i | 0 <= i < |fates| :: fates[i].Waiting? <==> head <= i)
    && (forall i | 0 <= i < head && fates[i].Dropped? :: fates[i].at == i + capacity + 1 && fates[i].at <= |fates|)
    && (forall i | 0 <= i < head && fates[i].Delivered? :: i < fates[i].at <= i + capacity && fates[i].at <= |fates|)
    && (forall i, j | 0 <= i < j < head :: fates[i].at <= fates[j].at)
  }

  ghost predicate DeliveredInOrder<T>(c: Channel<T>)
    requires QueueIsSuffix(c)
  {
    c.delivered == Chosen(c.accepted[..Head(c)], c.fates[..Head(c)])
  }

  /** One lease at most; a reader that found nothing has since seen only pushes. */
  ghost predicate OneStream<T>(c: Channel<T>) {
    && c.leases == (if c.queue.streamOpen then 1 else 0)
    && (!c.reader.Idle? ==> c.leases == 1)
    && (c.reader.Ended? ==> c.queue.closed)
    && (c.reader.Looking? ==>
          c.reader.seen <= |c.accepted|
          && |c.queue.messages| == (if |c.accepted| - c.reader.seen <= Capacity(c) then |c.accepted| - c.reader.seen
                                    else Capacity(c)))
  }

  ghost predicate Kept<T>(c: Channel<T>) {
    QueueIsSuffix(c) && FatesSettled(c.fates, Head(c), Capacity(c)) && DeliveredInOrder(c) && OneStream(c)
  }

  /** The head meets its fate now, and nothing else changes. */
  lemma SettleHead(fates: seq<Fate>, head: int, capacity: nat, fate: Fate, arrivals: seq<Fate>)
    requires 0 <= head < |fates| <= head + capacity && FatesSettled(fates, head, capacity)
    requires || (fate == Delivered(|fates|) && arrivals == [])
             || (fate == Dropped(|fates| + 1) && arrivals == [Waiting] && |fates| == head + capacity)
    ensures FatesSettled(fates[head := fate] + arrivals, head + 1, capacity)
  {
  }

  lemma PushKeepsFates<T>(c: Channel<T>, m: T)
    requires Kept(c) && !c.queue.closed && QueueIsSuffix(Step(c, Pushed(m)))
    ensures FatesSettled(Step(c, Pushed(m)).fates, Head(Step(c, Pushed(m))), Capacity(c))
  {
    var d, h := Step(c, Pushed(m)), Head(c);
    if Full(c.queue) {
      SettleHead(c.fates, h, Capacity(c), Dropped(|c.accepted| + 1), [Waiting]);
      assert d.fates == c.fates[h := Dropped(|c.accepted| + 1)] + [Waiting];
    } else {
      assert d.fates == c.fates + [Waiting] && Head(d) == h;
    }
  }

  lemma PushKeepsDelivered<T>(c: Channel<T>, m: T)
    requires Kept(c) && !c.queue.closed && QueueIsSuffix(Step(c, Pushed(m)))
    ensures DeliveredInOrder(Step(c, Pushed(m)))
  {
    var d, h := Step(c, Pushed(m)), Head(c);
    if Full(c.queue) {
      assert d.fates[h].Dropped?;
      assert d.accepted[..Head(d)][..h] == c.accepted[..h] && d.fates[..Head(d)][..h] == c.fates[..h];
    } else {
      assert d.accepted[..h] == c.accepted[..h] && d.fates[..h] == c.fates[..h];
    }
  }

  lemma PushKeeps<T>(c: Channel<T>, m: T)
    requires Kept(c) && !c.queue.closed
    ensures Kept(Step(c, Pushed(m)))
  {
    PushKeepsFates(c, m);
    PushKeepsDelivered(c, m);
  }

  lemma PopKeeps<T>(c: Channel<T>)
    requires Kept(c) && Enabled(c, Popped)
    ensures Kept(Step(c, Popped))
  {
    var d, h := Step(c, Popped), Head(c);
    if c.queue.messages != [] {
      SettleHead(c.fates, h, Capacity(c), Delivered(|c.accepted|), []);
      assert d.fates == c.fates[h := Delivered(|c.accepted|)] + [];
      assert QueueIsSuffix(d);
      assert d.accepted[..Head(d)][..h] == c.accepted[..h] && d.fates[..Head(d)][..h] == c.fates[..h];
    }
  }

  lemma StepKeeps<T>(c: Channel<T>, e: Event<T>)
    requires Kept(c) && Enabled(c, e)
    ensures Kept(Step(c, e))
  {
    match e {
      case Pushed(m) =>
        if !c.queue.closed {
          PushKeeps(c, m);
        }
      case Popped => PopKeeps(c);
      case _ =>
    }
  }

  /** Main result: the invariant holds in every interleaving of the locked operations. */
  lemma {:induction false} RunKeeps<T>(c: Channel<T>, es: seq<Event<T>>)
    requires Kept(c) && Run(c, es)
    ensures Kept(After(c, es))
    decreases |es|
  {
    if es != [] {
      StepKeeps(c, es[0]);
      RunKeeps(Step(c, es[0]), es[1..]);
    }
  }

  // ----- What follows -----

  function Lost(fates: seq<Fate>): nat {
    if fates == [] then 0
    else Lost(fates[..|fates| - 1]) + if fates[|fates| - 1].Dropped? then 1 else 0
  }

  lemma {:induction false} ChosenOrLost<T>(messages: seq<T>, fates: seq<Fate>)
    requires |messages| == |fates| && forall i | 0 <= i < |fates| :: !fates[i].Waiting?
    ensures |Chosen(messages, fates)| + Lost(fates) == |messages|
    ensures Chosen(messages, fates) == messages <==> Lost(fates) == 0
  {
    if messages != [] {
      var last := |messages| - 1;
      ChosenOrLost(messages[..last], fates[..last]);
      assert messages == messages[..last] + [messages[last]];
      if fates[last].Delivered? {
        SameTail(Chosen(messages[..last], fates[..last]), messages[..last], messages[last]);
      }
    }
  }

  lemma SameTail<T>(a: seq<T>, b: seq<T>, x: T)
    ensures a + [x] == b + [x] <==> a == b
  {
    if a + [x] == b + [x] {
      assert a == (a + [x])[..|a|] && b == (b + [x])[..|b|];
    }
  }

  /**
   * Main result, conservation: accepted messages are delivered, dropped or queued, and the stream
   * together with the queue is everything accepted exactly when none was dropped.
   */
  lemma AcceptedIsPartitioned<T>(limit: nat, es: seq<Event<T>>)
    requires Run(Opening(limit), es)
    ensures var c: Channel<T> := After(Opening(limit), es);
            && QueueIsSuffix(c)
            && |c.accepted| == |c.delivered| + Lost(c.fates[..Head(c)]) + |c.queue.messages|
            && (c.delivered + c.queue.messages == c.accepted <==> Lost(c.fates[..Head(c)]) == 0)
  {
    var o: Channel<T> := Opening(limit);
    assert Kept(o);
    RunKeeps(o, es);
    var c := After(o, es);
    ChosenOrLost(c.accepted[..Head(c)], c.fates[..Head(c)]);
    assert c.accepted == c.accepted[..Head(c)] + c.queue.messages;
    if c.delivered + c.queue.messages == c.accepted {
      assert c.delivered == (c.delivered + c.queue.messages)[..|c.delivered|];
    }
  }

  /**
   * Main result: the stream ends with the queue drained exactly when nothing was accepted between
   * its two looks; otherwise the messages stay, and a new stream may still claim them.
   */
  lemma EndsDrainedUnlessRaced<T>(c: Channel<T>)
    requires Kept(c) && Enabled(c, CheckedClosed) && c.queue.closed
    ensures Step(c, CheckedClosed).reader.Ended?
    ensures Run(c, [CheckedClosed, Released])
    ensures var d := After(c, [CheckedClosed, Released]);
            && (d.queue.messages == [] <==> c.reader.seen == |c.accepted|)
            && (Claim(d.queue).Success? <==> c.reader.seen < |c.accepted|)
  {
    var d := Step(c, CheckedClosed);
    var e1: Event<T>, e2: Event<T> := CheckedClosed, Released;
    assert [e1, e2][1..] == [e2] && [e2][1..] == [];
    assert Run(Step(d, e2), []);
    assert Run(d, [e2]) && After(d, [e2]) == Step(d, e2);
  }

  /**
   * The race is a run: a push and a close between the two looks end the stream with the message still
   * queued. It takes a runtime with several threads, since no await lies between the looks.
   */
  lemma RaceLeavesMessage<T>(limit: nat, message: T)
    ensures var es := [Claimed, Popped, Pushed(message), Closed, CheckedClosed];
            && Run(Opening(limit), es)
            && var c := After(Opening(limit), es);
               c.reader.Ended? && c.queue.messages == [message] && c.delivered == []
  {
    var c0: Channel<T> := Opening(limit);
    var c2 := Step(Step(c0, Claimed), Popped);
    var c3 := Step(c2, Pushed(message));
    assert c3.queue.messages == [message];
    var c5 := Step(Step(c3, Closed), CheckedClosed);
    var e1: Event<T>, e2: Event<T>, e3, e4: Event<T>, e5: Event<T> :=
      Claimed, Popped, Pushed(message), Closed, CheckedClosed;
    assert [e1, e2, e3, e4, e5][1..] == [e2, e3, e4, e5] && [e2, e3, e4, e5][1..] == [e3, e4, e5];
    assert [e3, e4, e5][1..] == [e4, e5] && [e4, e5][1..] == [e5] && [e5][1..] == [];
    assert Run(c5, []) && After(c5, []) == c5;
    assert Run(Step(c3, e4), [e5]) && After(Step(c3, e4), [e5]) == c5;
    assert Run(c3, [e4, e5]) && After(c3, [e4, e5]) == c5;
    assert Run(c2, [e3, e4, e5]) && After(c2, [e3, e4, e5]) == c5;
    assert Run(Step(c0, e1), [e2, e3, e4, e5]) && After(Step(c0, e1), [e2, e3, e4, e5]) == c5;
  }

  /** The second look follows the first at once, as on a runtime with a single thread. */
  predicate LooksTogether<T>(c: Channel<T>, es: seq<Event<T>>)
    requires Run(c, es)
    decreases |es|
  {
    es == [] || ((c.reader.Looking? ==> es[0].CheckedClosed?) && LooksTogether(Step(c, es[0]), es[1..]))
  }

  /** A reader that looked has missed nothing, and one that ended left nothing. */
  predicate NothingMissed<T>(c: Channel<T>) {
    && (c.reader.Looking? ==> c.reader.seen == |c.accepted|)
    && (c.reader.Ended? ==> c.queue.closed && c.queue.messages == [])
  }

  lemma {:induction false} TogetherMissesNothing<T>(c: Channel<T>, es: seq<Event<T>>)
    requires Kept(c) && NothingMissed(c) && Run(c, es) && LooksTogether(c, es)
    ensures NothingMissed(After(c, es))
    decreases |es|
  {
    if es != [] {
      StepKeeps(c, es[0]);
      TogetherMissesNothing(Step(c, es[0]), es[1..]);
    }
  }

  /** Main result: with both looks as one step, a stream ends only when everything accepted has left the queue. */
  lemma TogetherEndsDrained<T>(limit: nat, es: seq<Event<T>>)
    requires Run(Opening(limit), es) && LooksTogether(Opening(limit), es)
    ensures var c: Channel<T> := After(Opening(limit), es);
            c.reader.Ended? ==>
              c.queue.messages == [] && Claim(c.queue.(streamOpen := false)) == Failure(ConnectionClosed)
  {
    var o: Channel<T> := Opening(limit);
    assert Kept(o);
    TogetherMissesNothing(o, es);
  }

  /** Once closed, nothing more is accepted or dropped: what is queued can only be delivered. */
  lemma {:induction false} ClosedOnlyDrains<T>(c: Channel<T>, es: seq<Event<T>>)
    requires Kept(c) && Run(c, es) && c.queue.closed
    ensures var d := After(c, es);
            && d.queue.closed && d.accepted == c.accepted
            && d.delivered + d.queue.messages == c.delivered + c.queue.messages
    decreases |es|
  {
    if es != [] {
      StepKeeps(c, es[0]);
      ClosedOnlyDrains(Step(c, es[0]), es[1..]);
    }
  }
}
