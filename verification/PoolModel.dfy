/** The session pool as a value, and what each locked operation of the pool makes of it. */
module PoolModel {
  import opened Wrappers

  type ExternalSid = string
  type BackendSid = string
  type FrontendId = string
  type Path = string
  type Instant = nat

  datatype Strategy = LeastConnections | Dedicated

  datatype Slot = Slot(sessionCount: nat, alive: bool)

  datatype SessionEntry = SessionEntry(
    slotIndex: nat,
    backendSid: BackendSid,
    lastActivity: Instant,
    cwd: Path,
    lastSender: FrontendId)

  datatype EvictedSession = EvictedSession(
    backendSid: BackendSid,
    cwd: Path,
    evictedAt: Instant,
    lastSender: FrontendId)

  datatype Pool = Pool(
    strategy: Strategy,
    poolSize: nat,
    slots: seq<Option<Slot>>,
    sessions: map<ExternalSid, SessionEntry>,
    reverse: map<BackendSid, ExternalSid>,
    evicted: map<ExternalSid, EvictedSession>,
    inFlight: set<ExternalSid>,
    promptSenders: map<ExternalSid, FrontendId>,
    initRequest: Option<string>)

  const FRESH_SLOT := Slot(0, true)

  function New(strategy: Strategy, poolSize: nat): Pool {
    Pool(strategy, poolSize, seq(poolSize, _ => None), map[], map[], map[], {}, map[], None)
  }

  // ----- Slots -----

  predicate Populated(slots: seq<Option<Slot>>, i: nat) {
    i < |slots| && slots[i].Some?
  }

  predicate Alive(slots: seq<Option<Slot>>, i: nat) {
    Populated(slots, i) && slots[i].value.alive
  }

  function Load(slots: seq<Option<Slot>>, i: nat): nat {
    if Populated(slots, i) then slots[i].value.sessionCount else 0
  }

  function SetCount(slots: seq<Option<Slot>>, i: nat, count: nat): (r: seq<Option<Slot>>)
    ensures |r| == |slots|
  {
    if Populated(slots, i) then slots[i := Some(slots[i].value.(sessionCount := count))] else slots
  }

  function SaturatingSub(a: nat, b: nat): nat {
    if b <= a then a - b else 0
  }

  function InsertSlot(p: Pool, i: nat, slot: Slot): Pool {
    var grown := if i < |p.slots| then p.slots else p.slots + seq(i + 1 - |p.slots|, _ => None);
    p.(slots := grown[i := Some(slot)])
  }

  /** The first element that satisfies `want`. */
  function First<T>(xs: seq<T>, want: T -> bool): (r: Option<nat>)
    ensures r.Some? ==> r.value < |xs| && want(xs[r.value])
    ensures forall i | 0 <= i < |xs| && want(xs[i]) :: r.Some? && r.value <= i
  {
    if xs == [] then None
    else if want(xs[0]) then Some(0)
    else match First(xs[1..], want)
      case None => assert forall i | 0 < i < |xs| :: xs[i] == xs[1..][i - 1]; None
      case Some(i) => assert forall j | 0 < j < |xs| :: xs[j] == xs[1..][j - 1]; Some(i + 1)
  }

  /** Among the first `n` slots, the alive one that carries the fewest sessions; the first of equals. */
  function LeastLoaded(slots: seq<Option<Slot>>, n: nat): (r: Option<nat>)
    requires n <= |slots|
    ensures r.Some? ==> r.value < n && Alive(slots, r.value)
    ensures forall i: nat | i < n && Alive(slots, i) ::
              r.Some? && Load(slots, r.value) <= Load(slots, i)
              && (Load(slots, r.value) == Load(slots, i) ==> r.value <= i)
  {
    if n == 0 then None
    else
      var best := LeastLoaded(slots, n - 1);
      if Alive(slots, n - 1) && (best.None? || Load(slots, n - 1) < Load(slots, best.value))
      then Some(n - 1)
      else best
  }

  predicate Idle(slot: Option<Slot>) {
    slot.Some? && slot.value.alive && slot.value.sessionCount == 0
  }

  function SelectSlot(p: Pool): Option<nat> {
    match p.strategy
    case LeastConnections => LeastLoaded(p.slots, |p.slots|)
    case Dedicated =>
      var idle := First(p.slots, Idle);
      if idle.Some? then idle else First(p.slots, (s: Option<Slot>) => s.None?)
  }

  // ----- Sessions -----

  function Register(p: Pool, ext: ExternalSid, back: BackendSid, slot: nat, cwd: Path,
                    frontend: FrontendId, now: Instant): Pool
  {
    p.(sessions := p.sessions[ext := SessionEntry(slot, back, now, cwd, frontend)],
       reverse := p.reverse[back := ext],
       slots := SetCount(p.slots, slot, Load(p.slots, slot) + 1))
  }

  function RecordSender(p: Pool, ext: ExternalSid, frontend: FrontendId): Pool {
    if ext in p.sessions then
      p.(sessions := p.sessions[ext := p.sessions[ext].(lastSender := frontend)])
    else if ext in p.evicted then
      p.(evicted := p.evicted[ext := p.evicted[ext].(lastSender := frontend)])
    else p
  }

  function RouteFrontend(p: Pool, ext: ExternalSid): Option<FrontendId> {
    if ext in p.promptSenders then Some(p.promptSenders[ext])
    else if ext in p.sessions then Some(p.sessions[ext].lastSender)
    else if ext in p.evicted then Some(p.evicted[ext].lastSender)
    else None
  }

  function Remove(p: Pool, ext: ExternalSid): Pool {
    if ext !in p.sessions then p
    else
      var i := p.sessions[ext].slotIndex;
      var slots := SetCount(p.slots, i, SaturatingSub(Load(p.slots, i), 1));
      p.(sessions := p.sessions - {ext},
         reverse := p.reverse - {p.sessions[ext].backendSid},
         inFlight := p.inFlight - {ext},
         promptSenders := p.promptSenders - {ext},
         slots := if p.strategy.Dedicated? && Populated(slots, i) && Load(slots, i) == 0
                  then slots[i := None] else slots)
  }

  function Touch(p: Pool, ext: ExternalSid, now: Instant): Pool {
    if ext in p.sessions then
      p.(sessions := p.sessions[ext := p.sessions[ext].(lastActivity := now)])
    else p
  }

  /** The session is active and its slot holds a live backend. */
  predicate Resolves(p: Pool, ext: ExternalSid) {
    ext in p.sessions && Alive(p.slots, p.sessions[ext].slotIndex)
  }

  // ----- Prompts -----

  function BeginPrompt(p: Pool, ext: ExternalSid, frontend: FrontendId): Pool
    requires ext !in p.inFlight
  {
    RecordSender(p.(inFlight := p.inFlight + {ext}, promptSenders := p.promptSenders[ext := frontend]),
                 ext, frontend)
  }

  function EndPrompt(p: Pool, ext: ExternalSid): Pool {
    p.(inFlight := p.inFlight - {ext}, promptSenders := p.promptSenders - {ext})
  }

  // ----- Eviction -----

  function Elapsed(now: Instant, since: Instant): nat {
    SaturatingSub(now, since)
  }

  function IdleSessions(p: Pool, now: Instant, timeout: nat): set<ExternalSid> {
    set ext | ext in p.sessions && Elapsed(now, p.sessions[ext].lastActivity) >= timeout
  }

  function SessionsOn(p: Pool, i: nat): set<ExternalSid> {
    set ext | ext in p.sessions && p.sessions[ext].slotIndex == i
  }

  function BackendsOf(p: Pool, gone: set<ExternalSid>): set<BackendSid> {
    set ext | ext in gone && ext in p.sessions :: p.sessions[ext].backendSid
  }

  function ParkedEntry(entry: SessionEntry, now: Instant): EvictedSession {
    EvictedSession(entry.backendSid, entry.cwd, now, entry.lastSender)
  }

  /** Every session of `gone` moves from the active table to the evicted one. */
  function Park(p: Pool, gone: set<ExternalSid>, now: Instant): Pool
    requires gone <= p.sessions.Keys
  {
    p.(sessions := p.sessions - gone,
       reverse := p.reverse - BackendsOf(p, gone),
       promptSenders := p.promptSenders - gone,
       evicted := p.evicted + map ext | ext in gone :: ParkedEntry(p.sessions[ext], now))
  }

  function Lowered(slot: Option<Slot>, n: nat): Option<Slot> {
    match slot
    case None => None
    case Some(s) => Some(s.(sessionCount := SaturatingSub(s.sessionCount, n)))
  }

  /** What eviction of `gone` leaves of slot `i`. */
  function EvictedSlot(p: Pool, gone: set<ExternalSid>, i: nat): Option<Slot>
    requires i < |p.slots|
  {
    var leaving := |gone * SessionsOn(p, i)|;
    match p.strategy
    case Dedicated => if leaving > 0 then None else p.slots[i]
    case LeastConnections => Lowered(p.slots[i], leaving)
  }

  function EvictedSlots(p: Pool, gone: set<ExternalSid>): (r: seq<Option<Slot>>)
    ensures |r| == |p.slots|
    ensures forall i: nat | i < |r| :: r[i] == EvictedSlot(p, gone, i)
  {
    seq(|p.slots|, i requires 0 <= i < |p.slots| => EvictedSlot(p, gone, i))
  }

  function EvictIdle(p: Pool, now: Instant, timeout: nat): Pool {
    var gone := IdleSessions(p, now, timeout);
    Park(p, gone, now).(slots := EvictedSlots(p, gone))
  }

  function TakeEvicted(p: Pool, ext: ExternalSid): Pool {
    p.(evicted := p.evicted - {ext})
  }

  /** `keep` holds min(size, maxEntries) evicted entries, none older than an entry left out. */
  predicate NewestEvicted(p: Pool, maxEntries: nat, keep: set<ExternalSid>) {
    && keep <= p.evicted.Keys
    && |keep| == (if |p.evicted| <= maxEntries then |p.evicted| else maxEntries)
    && forall k, r | k in keep && r in p.evicted.Keys - keep ::
         p.evicted[r].evictedAt <= p.evicted[k].evictedAt
  }

  function KeepEvicted(p: Pool, keep: set<ExternalSid>): Pool {
    p.(evicted := map ext | ext in p.evicted && ext in keep :: p.evicted[ext])
  }

  // ----- Crash recovery -----

  function BackendDeath(p: Pool, i: nat, now: Instant): Pool {
    var gone := SessionsOn(p, i);
    Park(p, gone, now).(
      inFlight := p.inFlight - gone,
      slots := if !Populated(p.slots, i) then p.slots
               else p.slots[i := if p.strategy.Dedicated? then None else Some(Slot(0, false))])
  }
}
