/** The timer queue as a state machine: its two sets of timers, the heap of Timer objects with reusable addresses,
    the clock and the timerfd.  Class `TimerQueues.TimerQueue` implements the steps. */
module TimerQueueSpec {
  import opened Options
  import opened TimerEntries

  datatype Timer = Timer(expiration: int, delta: int, repeat: bool, sequence: int)

  datatype TimerId = TimerId(timer: Address, sequence: int)

  datatype Queue = Queue(
    clock: int,               // microseconds since the epoch
    deadline: Option<int>,    // when the timerfd becomes readable, if armed
    armedAt: int,             // when the timerfd was last set
    heap: map<Address, Timer>,
    numCreated: int,          // `s_numCreated_`
    pending: set<Address>,    // created, `addTimerInLoop` still to run
    created: set<int>,        // sequence numbers of all timers of this queue
    deleted: seq<int>,        // sequence numbers of the deleted ones, in order
    timers: seq<Entry>,
    active: set<TimerId>,
    calling: bool,
    canceling: set<TimerId>,
    expired: seq<Entry>,      // the batch `handleRead` works on
    now: int                  // the time `handleRead` started
  )

  // ------------------------------------------------------------------
  // Steps.

  /** `seconds * kMicroSecondsPerSecond` truncated to an integer. */
  function Microseconds(seconds: real): int {
    var us := seconds * 1000000.0;
    if us >= 0.0 then us.Floor else -((-us).Floor)
  }

  function TimerIdOf(q: Queue, addr: Address): TimerId
    requires addr in q.heap
  {
    TimerId(addr, q.heap[addr].sequence)
  }

  function Create(q: Queue, addr: Address, when: int, interval: real): Queue {
    var n := q.numCreated + 1;
    q.(heap := q.heap[addr := Timer(when, Microseconds(interval), interval > 0.0, n)],
       numCreated := n, created := q.created + {n}, pending := q.pending + {addr})
  }

  /** `resetTimerfd` and `howMuchTimeFromNow`: never less than 100 microseconds ahead. */
  function Arm(q: Queue, when: int): Queue {
    var microseconds := when - q.clock;
    q.(deadline := Some(q.clock + if microseconds < 100 then 100 else microseconds), armedAt := q.clock)
  }

  function EarliestChanges(q: Queue, when: int): bool {
    q.timers == [] || when < q.timers[0].when
  }

  function InsertTimer(q: Queue, addr: Address): Queue
    requires addr in q.heap
  {
    q.(timers := Insert(q.timers, Entry(q.heap[addr].expiration, addr)), active := q.active + {TimerIdOf(q, addr)})
  }

  function AddTimerInLoop(q: Queue, addr: Address): Queue
    requires addr in q.heap
  {
    var when := q.heap[addr].expiration;
    var inserted := InsertTimer(q, addr).(pending := q.pending - {addr});
    if EarliestChanges(q, when) then Arm(inserted, when) else inserted
  }

  function Delete(q: Queue, addr: Address): Queue
    requires addr in q.heap
  {
    q.(heap := q.heap - {addr}, deleted := q.deleted + [q.heap[addr].sequence])
  }

  function CancelInLoop(q: Queue, id: TimerId): Queue
    requires id in q.active ==> id.timer in q.heap
  {
    if id in q.active then
      Delete(q.(timers := Erase(q.timers, Entry(q.heap[id.timer].expiration, id.timer)), active := q.active - {id}),
            id.timer)
    else if q.calling then
      q.(canceling := q.canceling + {id})
    else
      q
  }

  function IdsOf(heap: map<Address, Timer>, es: seq<Entry>): set<TimerId> {
    set e | e in es && e.timer in heap :: TimerId(e.timer, heap[e.timer].sequence)
  }

  /** `getExpired`: the entries up to the sentry leave both sets. */
  function GetExpired(q: Queue): Queue {
    var end := LowerBound(q.timers, Entry(q.now, UINTPTR_MAX));
    q.(expired := q.timers[..end], timers := q.timers[end..], active := q.active - IdsOf(q.heap, q.timers[..end]))
  }

  /** The timerfd can be read: its deadline has passed since it was set. */
  predicate Readable(q: Queue) {
    q.deadline.Some? && q.deadline.value <= q.clock
  }

  /** `readTimerfd`, which takes nothing when the timerfd was set again after `poll` returned. */
  function AfterRead(q: Queue): Queue {
    q.(now := q.clock, deadline := if Readable(q) then None else q.deadline)
  }

  /** `handleRead` up to the callbacks. */
  function BeginRead(q: Queue): Queue {
    GetExpired(AfterRead(q)).(calling := true, canceling := {})
  }

  /** The batch holds distinct, live timers. */
  predicate Resettable(q: Queue) {
    && (forall i :: 0 <= i < |q.expired| ==> q.expired[i].timer in q.heap)
    && (forall i, j :: 0 <= i < j < |q.expired| ==> q.expired[i].timer != q.expired[j].timer)
  }

  /** One turn of the loop in `reset`: re-arm a repeating timer that was not cancelled, delete any other. */
  function ResetOne(q: Queue): Queue
    requires Resettable(q) && q.expired != []
    ensures Resettable(ResetOne(q))
  {
    var addr := q.expired[0].timer;
    var t := q.heap[addr];
    var rest := q.(expired := q.expired[1..]);
    if t.repeat && TimerIdOf(q, addr) !in q.canceling then
      InsertTimer(rest.(heap := q.heap[addr := t.(expiration := q.now + t.delta)]), addr)
    else
      Delete(rest, addr)
  }

  function ResetAll(q: Queue): Queue
    requires Resettable(q)
    decreases |q.expired|
  {
    if q.expired == [] then q else ResetAll(ResetOne(q))
  }

  /** `handleRead` after the callbacks. */
  function EndRead(q: Queue): Queue
    requires Resettable(q)
  {
    var r := ResetAll(q.(calling := false));
    if r.timers != [] && r.timers[0].when > 0 then Arm(r, r.timers[0].when) else r
  }

  datatype Event =
    | Tick(d: nat)
    | ForeignCreate                                          // another queue draws a sequence number
    | CreateTimer(addr: Address, when: int, interval: real)  // `new Timer` in `addTimer`, on any thread
    | AddTimer(addr: Address)                                // `addTimerInLoop`
    | Cancel(id: TimerId)                                    // `cancelInLoop`
    | ReadStart                                              // `handleRead` takes its batch
    | ReadEnd                                                // the callbacks have run: `reset`

  /** What the environment guarantees: `new` returns free memory, functors run once, the loop does not call
      `handleRead` from within itself. */
  predicate Enabled(q: Queue, ev: Event) {
    match ev
    case Tick(_) => true
    case ForeignCreate => true
    case CreateTimer(addr, _, _) => addr !in q.heap && addr < UINTPTR_MAX
    case AddTimer(addr) => addr in q.pending && addr in q.heap
    case Cancel(id) => id in q.active ==> id.timer in q.heap
    case ReadStart => !q.calling
    case ReadEnd => q.calling && Resettable(q)
  }

  function Step(q: Queue, ev: Event): Queue
    requires Enabled(q, ev)
  {
    match ev
    case Tick(d) => q.(clock := q.clock + d)
    case ForeignCreate => q.(numCreated := q.numCreated + 1)
    case CreateTimer(addr, when, interval) => Create(q, addr, when, interval)
    case AddTimer(addr) => AddTimerInLoop(q, addr)
    case Cancel(id) => CancelInLoop(q, id)
    case ReadStart => BeginRead(q)
    case ReadEnd => EndRead(q)
  }

  /** The state after a run; an event that cannot happen is skipped. */
  function Run(q: Queue, evs: seq<Event>): Queue
    decreases |evs|
  {
    if evs == [] then q
    else Run(if Enabled(q, evs[0]) then Step(q, evs[0]) else q, evs[1..])
  }

  // ------------------------------------------------------------------
  // The invariant.

  /** `timers_` and `activeTimers_` hold the same timers, under their current expiration and sequence. */
  predicate SameTimers(q: Queue) {
    && Ordered(q.timers)
    && (forall e :: e in q.timers ==>
          e.timer in q.heap && q.heap[e.timer].expiration == e.when && TimerIdOf(q, e.timer) in q.active)
    && (forall id :: id in q.active ==>
          id.timer in q.heap && TimerIdOf(q, id.timer) == id
          && Entry(q.heap[id.timer].expiration, id.timer) in q.timers)
  }

  function Addresses(es: seq<Entry>): set<Address> {
    set e | e in es :: e.timer
  }

  /** Every live timer is pending, active or in the batch, and in only one of them. */
  predicate OnePlace(q: Queue) {
    && Resettable(q)
    && q.pending <= q.heap.Keys
    && (forall e :: e in q.expired ==> e.timer !in q.pending && e.timer in q.heap && TimerIdOf(q, e.timer) !in q.active)
    && (forall a :: a in q.pending ==> a in q.heap && TimerIdOf(q, a) !in q.active)
    && (forall a :: a in q.heap ==> a in q.pending || TimerIdOf(q, a) in q.active || a in Addresses(q.expired))
  }

  predicate Live(q: Queue, n: int) {
    exists a :: a in q.heap && q.heap[a].sequence == n
  }

  predicate NoDuplicates(s: seq<int>) {
    forall i, j :: 0 <= i < j < |s| ==> s[i] != s[j]
  }

  /** Sequence numbers identify timers, and each timer ever created is live or was deleted once. */
  predicate Accounted(q: Queue) {
    && (forall a :: a in q.heap ==>
              a < UINTPTR_MAX && q.heap[a].sequence in q.created && q.heap[a].sequence !in q.deleted)
    && (forall a, b :: a in q.heap && b in q.heap && q.heap[a].sequence == q.heap[b].sequence ==> a == b)
    && (forall n :: n in q.created ==> n <= q.numCreated && (n in q.deleted || Live(q, n)))
    && (forall n :: n in q.deleted ==> n in q.created)
    && NoDuplicates(q.deleted)
  }

  /** The timerfd will fire early enough for the first timer. */
  predicate Armed(q: Queue) {
    q.timers != [] ==>
      q.deadline.Some? && (q.deadline.value <= q.timers[0].when || q.deadline.value <= q.armedAt + 100)
  }

  predicate Timely(q: Queue) {
    && q.clock > 0 && q.armedAt <= q.clock
    && (forall a :: a in q.heap && q.heap[a].repeat ==> q.heap[a].delta >= 0)
    && (q.calling ==> q.now > 0 && (q.timers != [] && q.timers[0].when <= 0 ==> Armed(q)))
    && (!q.calling ==> Armed(q))
  }

  predicate Structure(q: Queue) {
    SameTimers(q) && OnePlace(q) && Accounted(q)
  }

  predicate Inv(q: Queue) {
    Structure(q) && Timely(q) && (!q.calling ==> q.expired == [])
  }
}
