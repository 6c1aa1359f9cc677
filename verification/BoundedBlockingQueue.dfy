/** `muduo::BoundedBlockingQueue`: a monitor with two condition variables, any number of threads, barging (a new
    caller may overtake an awakened one), spurious wakeups, and signals that wake one thread or more. */
module BoundedBlockingQueues {
  import opened Options

  datatype Monitor<T> = Monitor(
    capacity: nat,
    queue: seq<T>,
    waitingTakers: nat,          // in `notEmpty_.wait()`
    awakeTakers: nat,            // signalled or woken, not yet back under the mutex
    waitingPuts: multiset<T>,    // values whose `put` is in `notFull_.wait()`
    awakePuts: multiset<T>,
    // History.
    putCalls: multiset<T>, takeCalls: nat,
    puts: seq<T>, takes: seq<T>)

  function Start<T>(capacity: nat): Monitor<T> {
    Monitor(capacity, [], 0, 0, multiset{}, multiset{}, multiset{}, 0, [], [])
  }

  /** `notify` wakes at least one of the threads waiting, if there are any. */
  predicate SomeOf(woken: nat, waiting: nat) {
    woken <= waiting && (waiting > 0 ==> woken > 0)
  }

  predicate Full<T>(m: Monitor<T>) {
    |m.queue| >= m.capacity
  }

  /** One pass of `put` through the mutex: insert and signal, or wait. */
  function TryPut<T>(m: Monitor<T>, x: T, woken: nat): Monitor<T>
    requires SomeOf(woken, m.waitingTakers)
  {
    if Full(m) then m.(waitingPuts := m.waitingPuts + multiset{x})
    else m.(queue := m.queue + [x], puts := m.puts + [x],
            waitingTakers := m.waitingTakers - woken, awakeTakers := m.awakeTakers + woken)
  }

  function TryTake<T>(m: Monitor<T>, woken: multiset<T>): Monitor<T>
    requires woken <= m.waitingPuts
  {
    if m.queue == [] then m.(waitingTakers := m.waitingTakers + 1)
    else m.(queue := m.queue[1..], takes := m.takes + [m.queue[0]],
            waitingPuts := m.waitingPuts - woken, awakePuts := m.awakePuts + woken)
  }

  datatype Event<T> =
    | Put(x: T, wokenTakers: nat)       // a new call
    | Take(wokenPuts: multiset<T>)
    | RePut(x: T, wokenTakers: nat)     // an awakened thread runs again
    | ReTake(wokenPuts: multiset<T>)
    | SpuriousPut(x: T)
    | SpuriousTake

  predicate Enabled<T>(m: Monitor<T>, ev: Event<T>) {
    match ev
    case Put(_, k) => SomeOf(k, m.waitingTakers)
    case RePut(x, k) => SomeOf(k, m.waitingTakers) && x in m.awakePuts
    case Take(w) => w <= m.waitingPuts && SomeOf(|w|, |m.waitingPuts|)
    case ReTake(w) => w <= m.waitingPuts && SomeOf(|w|, |m.waitingPuts|) && m.awakeTakers > 0
    case SpuriousPut(x) => x in m.waitingPuts
    case SpuriousTake => m.waitingTakers > 0
  }

  function Step<T>(m: Monitor<T>, ev: Event<T>): Monitor<T>
    requires Enabled(m, ev)
  {
    match ev
    case Put(x, k) => TryPut(m.(putCalls := m.putCalls + multiset{x}), x, k)
    case RePut(x, k) => TryPut(m.(awakePuts := m.awakePuts - multiset{x}), x, k)
    case Take(w) => TryTake(m.(takeCalls := m.takeCalls + 1), w)
    case ReTake(w) => TryTake(m.(awakeTakers := m.awakeTakers - 1), w)
    case SpuriousPut(x) => m.(waitingPuts := m.waitingPuts - multiset{x}, awakePuts := m.awakePuts + multiset{x})
    case SpuriousTake => m.(waitingTakers := m.waitingTakers - 1, awakeTakers := m.awakeTakers + 1)
  }

  function Run<T>(m: Monitor<T>, evs: seq<Event<T>>): Monitor<T>
    decreases |evs|
  {
    if evs == [] then m
    else Run(if Enabled(m, evs[0]) then Step(m, evs[0]) else m, evs[1..])
  }

  // ------------------------------------------------------------------
  // Invariants.

  /** No signal is lost: while a thread waits, enough threads are on their way to use up what it could wait for. */
  predicate Signalled<T>(m: Monitor<T>) {
    && |m.queue| <= m.capacity
    && (m.waitingTakers > 0 ==> |m.queue| <= m.awakeTakers)
    && (|m.waitingPuts| > 0 ==> m.capacity - |m.queue| <= |m.awakePuts|)
  }

  /** First in, first out; and every call is waiting, awake or has had its effect once. */
  predicate Fifo<T>(m: Monitor<T>) {
    && m.puts == m.takes + m.queue
    && m.putCalls == m.waitingPuts + m.awakePuts + multiset(m.puts)
    && m.takeCalls == m.waitingTakers + m.awakeTakers + |m.takes|
  }

  lemma TryPutSignalled<T>(m: Monitor<T>, x: T, woken: nat)
    requires Signalled(m) && SomeOf(woken, m.waitingTakers)
    ensures Signalled(TryPut(m, x, woken))
  {
  }

  /** `put` by an awakened thread gives up one place among the awake and fills one free place, or finds none free. */
  lemma RePutSignalled<T>(m: Monitor<T>, x: T, woken: nat)
    requires Signalled(m) && x in m.awakePuts && SomeOf(woken, m.waitingTakers)
    ensures Signalled(TryPut(m.(awakePuts := m.awakePuts - multiset{x}), x, woken))
  {
    assert |m.awakePuts - multiset{x}| == |m.awakePuts| - 1;
  }

  lemma TryTakeSignalled<T>(m: Monitor<T>, woken: multiset<T>)
    requires woken <= m.waitingPuts && SomeOf(|woken|, |m.waitingPuts|)
    requires |m.queue| <= m.capacity
    requires m.waitingTakers > 0 ==> |m.queue| <= m.awakeTakers + 1
    requires m.queue == [] || m.waitingTakers == 0 || |m.queue| - 1 <= m.awakeTakers
    requires |m.waitingPuts| > 0 ==> m.capacity - |m.queue| <= |m.awakePuts|
    ensures Signalled(TryTake(m, woken))
  {
    assert |m.awakePuts + woken| == |m.awakePuts| + |woken|;
    assert |m.waitingPuts - woken| == |m.waitingPuts| - |woken|;
  }

  lemma StepSignalled<T>(m: Monitor<T>, ev: Event<T>)
    requires Signalled(m) && Enabled(m, ev)
    ensures Signalled(Step(m, ev))
  {
    match ev
    case Put(x, k) => TryPutSignalled(m.(putCalls := m.putCalls + multiset{x}), x, k);
    case RePut(x, k) => RePutSignalled(m, x, k);
    case Take(w) => TryTakeSignalled(m.(takeCalls := m.takeCalls + 1), w);
    case ReTake(w) => TryTakeSignalled(m.(awakeTakers := m.awakeTakers - 1), w);
    case SpuriousPut(x) =>
      assert |m.waitingPuts - multiset{x}| == |m.waitingPuts| - 1;
    case SpuriousTake =>
  }

  /** `Fifo` for a call or awakened thread that holds the mutex with value x in hand. */
  lemma TryPutFifo<T>(m: Monitor<T>, x: T, woken: nat)
    requires SomeOf(woken, m.waitingTakers)
    requires m.puts == m.takes + m.queue
    requires m.putCalls == m.waitingPuts + m.awakePuts + multiset(m.puts) + multiset{x}
    requires m.takeCalls == m.waitingTakers + m.awakeTakers + |m.takes|
    ensures Fifo(TryPut(m, x, woken))
  {
    if !Full(m) {
      assert multiset(m.puts + [x]) == multiset(m.puts) + multiset{x};
    }
  }

  lemma TryTakeFifo<T>(m: Monitor<T>, woken: multiset<T>)
    requires woken <= m.waitingPuts
    requires m.puts == m.takes + m.queue
    requires m.putCalls == m.waitingPuts + m.awakePuts + multiset(m.puts)
    requires m.takeCalls == m.waitingTakers + m.awakeTakers + |m.takes| + 1
    ensures Fifo(TryTake(m, woken))
  {
    if m.queue != [] {
      assert m.takes + m.queue == (m.takes + [m.queue[0]]) + m.queue[1..];
      assert (m.waitingPuts - woken) + (m.awakePuts + woken) == m.waitingPuts + m.awakePuts;
    }
  }

  lemma StepFifo<T>(m: Monitor<T>, ev: Event<T>)
    requires Fifo(m) && Enabled(m, ev)
    ensures Fifo(Step(m, ev))
  {
    hide TryPut, TryTake;
    match ev
    case Put(x, k) => TryPutFifo(m.(putCalls := m.putCalls + multiset{x}), x, k);
    case RePut(x, k) =>
      assert m.awakePuts == (m.awakePuts - multiset{x}) + multiset{x};
      TryPutFifo(m.(awakePuts := m.awakePuts - multiset{x}), x, k);
    case Take(w) => TryTakeFifo(m.(takeCalls := m.takeCalls + 1), w);
    case ReTake(w) => TryTakeFifo(m.(awakeTakers := m.awakeTakers - 1), w);
    case SpuriousPut(x) =>
      assert (m.waitingPuts - multiset{x}) + (m.awakePuts + multiset{x}) == m.waitingPuts + m.awakePuts;
    case SpuriousTake =>
  }

  lemma {:induction false} RunKeeps<T>(m: Monitor<T>, evs: seq<Event<T>>)
    requires Signalled(m) && Fifo(m)
    ensures Signalled(Run(m, evs)) && Fifo(Run(m, evs)) && Run(m, evs).capacity == m.capacity
    decreases |evs|
  {
    hide Signalled, Fifo;
    if evs != [] {
      if Enabled(m, evs[0]) {
        StepSignalled(m, evs[0]);
        StepFifo(m, evs[0]);
        RunKeeps(Step(m, evs[0]), evs[1..]);
      } else {
        RunKeeps(m, evs[1..]);
      }
    }
  }

  // ------------------------------------------------------------------
  // Main results.

  /** In every run the queue is bounded, first in first out, and no signal is lost. */
  lemma {:induction false} QueueIsSound<T>(capacity: nat, evs: seq<Event<T>>)
    ensures var m := Run(Start<T>(capacity), evs);
            && |m.queue| <= capacity && m.puts == m.takes + m.queue
            && (m.waitingTakers > 0 ==> |m.queue| <= m.awakeTakers)
            && (|m.waitingPuts| > 0 ==> capacity - |m.queue| <= |m.awakePuts|)
            && m.putCalls == m.waitingPuts + m.awakePuts + multiset(m.puts)
            && m.takeCalls == m.waitingTakers + m.awakeTakers + |m.takes|
  {
    RunKeeps(Start<T>(capacity), evs);
  }

  /** No call is ever refused: a new one may always pass through the mutex, and so may an awakened one. */
  lemma AlwaysPossible<T>(m: Monitor<T>, x: T)
    ensures Enabled(m, Put(x, m.waitingTakers)) && Enabled(m, Take(m.waitingPuts))
    ensures x in m.awakePuts ==> Enabled(m, RePut(x, m.waitingTakers))
    ensures m.awakeTakers > 0 ==> Enabled(m, ReTake(m.waitingPuts))
  {
  }

  /** A thread that wakes up spuriously may pass through the mutex like one that was signalled. */
  lemma SpuriousProceeds<T>(m: Monitor<T>, x: T)
    ensures m.waitingTakers > 0 ==> Enabled(Step(m, Event<T>.SpuriousTake), ReTake(m.waitingPuts))
    ensures x in m.waitingPuts ==> Enabled(Step(m, SpuriousPut(x)), RePut(x, m.waitingTakers))
  {
  }

  /** Both sides wait and nobody is on the way. */
  predicate Stuck<T>(m: Monitor<T>) {
    m.waitingTakers > 0 && |m.waitingPuts| > 0 && m.awakeTakers == 0 && |m.awakePuts| == 0
  }

  lemma {:induction false} NeverStuck<T>(capacity: nat, evs: seq<Event<T>>)
    requires capacity >= 1
    ensures !Stuck(Run(Start<T>(capacity), evs))
  {
    QueueIsSound<T>(capacity, evs);
  }

  /** A producer and a consumer of a queue without room wait for each other. */
  lemma ZeroCapacityStuck<T>(x: T)
    ensures Stuck(Run(Start<T>(0), [Put(x, 0), Take(multiset{x})]))
  {
    var evs := [Put(x, 0), Take(multiset{x})];
    var m1 := Step(Start<T>(0), Put(x, 0));
    assert m1.waitingPuts == multiset{x} && |m1.waitingPuts| == 1;
    assert evs[1..] == [Take(multiset{x})] && evs[1..][1..] == [];
    var m2 := Step(m1, Take(multiset{x}));
    assert Run(m2, []) == m2;
  }

  /** The queue never gets stuck, in any run, exactly when it has room for an element. */
  lemma StuckIffNoCapacity<T>(capacity: nat, x: T)
    ensures capacity >= 1 <==> (forall evs: seq<Event<T>> :: !Stuck(Run(Start<T>(capacity), evs)))
  {
    if capacity >= 1 {
      forall evs: seq<Event<T>> ensures !Stuck(Run(Start<T>(capacity), evs)) {
        NeverStuck(capacity, evs);
      }
    } else {
      ZeroCapacityStuck(x);
      assert Stuck(Run(Start<T>(capacity), [Put(x, 0), Take(multiset{x})]));
    }
  }

  // ------------------------------------------------------------------
  // The object.

  predicate Sound<T>(m: Monitor<T>) {
    Signalled(m) && Fifo(m)
  }

  lemma StepSound<T>(m: Monitor<T>, ev: Event<T>)
    requires Sound(m) && Enabled(m, ev)
    ensures Sound(Step(m, ev))
  {
    StepSignalled(m, ev);
    StepFifo(m, ev);
  }

  class BoundedBlockingQueue<T> {
    const capacity: nat
    var queue: seq<T>
    // The threads at the condition variables, and the history.
    ghost var waitingTakers: nat
    ghost var awakeTakers: nat
    ghost var waitingPuts: multiset<T>
    ghost var awakePuts: multiset<T>
    ghost var putCalls: multiset<T>
    ghost var takeCalls: nat
    ghost var puts: seq<T>
    ghost var takes: seq<T>

    ghost function Snapshot(): Monitor<T>
      reads this
    {
      Monitor(capacity, queue, waitingTakers, awakeTakers, waitingPuts, awakePuts, putCalls, takeCalls, puts, takes)
    }

    ghost predicate Valid()
      reads this
    {
      Sound(Snapshot())
    }

    constructor (maxSize: nat)
      ensures Snapshot() == Start(maxSize) && Valid()
    {
      capacity, queue := maxSize, [];
      waitingTakers, awakeTakers, waitingPuts, awakePuts := 0, 0, multiset{}, multiset{};
      putCalls, takeCalls, puts, takes := multiset{}, 0, [], [];
    }

    /** `put` with the mutex held: returns (done) or waits. */
    method PutLocked(x: T, ghost woken: nat) returns (done: bool)
      requires SomeOf(woken, waitingTakers)
      modifies this
      ensures Snapshot() == TryPut(old(Snapshot()), x, woken)
      ensures done <==> |old(queue)| < capacity
    {
      if |queue| >= capacity {
        waitingPuts := waitingPuts + multiset{x};
        return false;
      }
      assert |queue| < capacity;
      queue := queue + [x];
      puts := puts + [x];
      waitingTakers, awakeTakers := waitingTakers - woken, awakeTakers + woken;
      done := true;
    }

    /** A new call of `put`. */
    method Put(x: T, ghost woken: nat) returns (done: bool)
      requires Valid() && SomeOf(woken, waitingTakers)
      modifies this
      ensures Valid() && Snapshot() == Step(old(Snapshot()), Event.Put(x, woken))
      ensures done <==> |old(queue)| < capacity
      ensures queue == if done then old(queue) + [x] else old(queue)
    {
      StepSound(Snapshot(), Event.Put(x, woken));
      hide Sound;
      putCalls := putCalls + multiset{x};
      done := PutLocked(x, woken);
    }

    /** `put` again after a wait. */
    method RePut(x: T, ghost woken: nat) returns (done: bool)
      requires Valid() && SomeOf(woken, waitingTakers) && x in awakePuts
      modifies this
      ensures Valid() && Snapshot() == Step(old(Snapshot()), Event.RePut(x, woken))
      ensures done <==> |old(queue)| < capacity
      ensures queue == if done then old(queue) + [x] else old(queue)
    {
      StepSound(Snapshot(), Event.RePut(x, woken));
      hide Sound;
      awakePuts := awakePuts - multiset{x};
      done := PutLocked(x, woken);
    }

    /** `take` with the mutex held: returns the oldest element or waits. */
    method TakeLocked(ghost woken: multiset<T>) returns (front: Option<T>)
      requires woken <= waitingPuts
      modifies this
      ensures Snapshot() == TryTake(old(Snapshot()), woken)
      ensures front == if old(queue) == [] then None else Some(old(queue)[0])
    {
      if queue == [] {
        waitingTakers := waitingTakers + 1;
        return None;
      }
      ghost var m := Snapshot();
      front := Some(queue[0]);
      takes := takes + [queue[0]];
      queue := queue[1..];
      waitingPuts, awakePuts := waitingPuts - woken, awakePuts + woken;
      assert queue == m.queue[1..] && takes == m.takes + [m.queue[0]];
      assert waitingPuts == m.waitingPuts - woken && awakePuts == m.awakePuts + woken;
    }

    /** A new call of `take`. */
    method Take(ghost woken: multiset<T>) returns (front: Option<T>)
      requires Valid() && Enabled(Snapshot(), Event.Take(woken))
      modifies this
      ensures Valid() && Snapshot() == Step(old(Snapshot()), Event.Take(woken))
      ensures front == if old(queue) == [] then None else Some(old(queue)[0])
      ensures queue == if old(queue) == [] then [] else old(queue)[1..]
    {
      hide Sound, Enabled;
      StepSound(Snapshot(), Event.Take(woken));
      TakeAllowed(Snapshot(), woken);
      takeCalls := takeCalls + 1;
      front := TakeLocked(woken);
    }

    /** `take` again after a wait. */
    method ReTake(ghost woken: multiset<T>) returns (front: Option<T>)
      requires Valid() && Enabled(Snapshot(), Event.ReTake(woken))
      modifies this
      ensures Valid() && Snapshot() == Step(old(Snapshot()), Event.ReTake(woken))
      ensures front == if old(queue) == [] then None else Some(old(queue)[0])
      ensures queue == if old(queue) == [] then [] else old(queue)[1..]
    {
      hide Sound, Enabled;
      StepSound(Snapshot(), Event.ReTake(woken));
      TakeAllowed(Snapshot(), woken);
      awakeTakers := awakeTakers - 1;
      front := TakeLocked(woken);
    }
  }

  lemma TakeAllowed<T>(m: Monitor<T>, woken: multiset<T>)
    requires Enabled(m, Event.Take(woken)) || Enabled(m, Event.ReTake(woken))
    ensures woken <= m.waitingPuts && (Enabled(m, Event.ReTake(woken)) ==> m.awakeTakers > 0)
  {
  }
}
