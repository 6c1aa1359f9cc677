/** What every run of the timer queue keeps. */
module TimerQueueProofs {
  import opened Options
  import opened TimerEntries
  import opened TimerQueueSpec

  // ------------------------------------------------------------------
  // Creating a timer.

  lemma CreateAccounted(q: Queue, addr: Address, when: int, interval: real)
    requires Accounted(q) && addr !in q.heap && addr < UINTPTR_MAX
    ensures Accounted(Create(q, addr, when, interval))
  {
    var r := Create(q, addr, when, interval);
    forall n | n in r.created && n !in r.deleted ensures Live(r, n) {
      if n == q.numCreated + 1 {
        assert addr in r.heap && r.heap[addr].sequence == n;
      } else {
        var a :| a in q.heap && q.heap[a].sequence == n;
        assert a in r.heap && r.heap[a].sequence == n;
      }
    }
  }

  lemma CreateOnePlace(q: Queue, addr: Address, when: int, interval: real)
    requires OnePlace(q) && addr !in q.heap && SameTimers(q)
    ensures OnePlace(Create(q, addr, when, interval))
  {
  }

  lemma CreateSameTimers(q: Queue, addr: Address, when: int, interval: real)
    requires SameTimers(q) && addr !in q.heap
    ensures SameTimers(Create(q, addr, when, interval))
  {
  }

  lemma CreateTimely(q: Queue, addr: Address, when: int, interval: real)
    requires Timely(q) && addr !in q.heap
    ensures Timely(Create(q, addr, when, interval))
  {
  }

  lemma CreateKeeps(q: Queue, addr: Address, when: int, interval: real)
    requires Inv(q) && addr !in q.heap && addr < UINTPTR_MAX
    ensures Inv(Create(q, addr, when, interval))
  {
    hide Accounted, OnePlace, SameTimers;
    CreateAccounted(q, addr, when, interval);
    CreateSameTimers(q, addr, when, interval);
    CreateOnePlace(q, addr, when, interval);
    CreateTimely(q, addr, when, interval);
    hide Timely;
  }

  // ------------------------------------------------------------------
  // Inserting a timer.

  /** Inserting a live timer that is in neither set keeps the two sets alike. */
  lemma InsertKeeps(q: Queue, addr: Address)
    requires SameTimers(q) && addr in q.heap && TimerIdOf(q, addr) !in q.active
    ensures SameTimers(InsertTimer(q, addr))
    ensures forall e :: e in InsertTimer(q, addr).timers <==> e in q.timers || e == Entry(q.heap[addr].expiration, addr)
    ensures |InsertTimer(q, addr).timers| == |q.timers| + 1
  {
    var e := Entry(q.heap[addr].expiration, addr);
    assert e !in q.timers;
    InsertElements(q.timers, e);
  }

  /** The first entry after an insertion is the new one or the old first, whichever is earlier. */
  lemma {:induction false} InsertFirst(s: seq<Entry>, e: Entry)
    requires Ordered(s)
    ensures Insert(s, e) != []
    ensures Insert(s, e)[0].when == if s == [] || e.when < s[0].when then e.when else s[0].when
  {
  }

  lemma AddTimely(q: Queue, addr: Address)
    requires SameTimers(q) && addr in q.heap && Timely(q)
    ensures Timely(AddTimerInLoop(q, addr))
  {
    InsertFirst(q.timers, Entry(q.heap[addr].expiration, addr));
  }

  lemma AddOnePlace(q: Queue, addr: Address)
    requires OnePlace(q) && addr in q.pending && addr in q.heap
    ensures OnePlace(AddTimerInLoop(q, addr))
  {
    hide Insert;
  }

  /** `Accounted` depends only on the heap and the sequence numbers. */
  lemma SameAccount(q: Queue, r: Queue)
    requires Accounted(q)
    requires r.heap == q.heap && r.created == q.created && r.deleted == q.deleted && r.numCreated >= q.numCreated
    ensures Accounted(r)
  {
    assert forall n :: Live(q, n) ==> Live(r, n);
  }

  lemma AddKeeps(q: Queue, addr: Address)
    requires Inv(q) && addr in q.pending && addr in q.heap
    ensures Inv(AddTimerInLoop(q, addr))
  {
    hide Timely, Insert, OnePlace, SameTimers, Accounted;
    AddSameTimers(q, addr);
    AddTimely(q, addr);
    AddOnePlace(q, addr);
    SameAccount(q, AddTimerInLoop(q, addr));
  }

  lemma AddSameTimers(q: Queue, addr: Address)
    requires SameTimers(q) && OnePlace(q) && addr in q.pending && addr in q.heap
    ensures SameTimers(AddTimerInLoop(q, addr))
  {
    InsertKeeps(q, addr);
    SameTimersFields(InsertTimer(q, addr), AddTimerInLoop(q, addr));
  }

  lemma SameTimersFields(q: Queue, r: Queue)
    requires SameTimers(q) && r.timers == q.timers && r.active == q.active && r.heap == q.heap
    ensures SameTimers(r)
  {
  }

  // ------------------------------------------------------------------
  // Deleting a timer.

  lemma AppendFresh(s: seq<int>, n: int)
    requires NoDuplicates(s) && n !in s
    ensures NoDuplicates(s + [n])
  {
  }

  lemma DeleteAccounted(q: Queue, addr: Address)
    requires Accounted(q) && addr in q.heap
    ensures Accounted(Delete(q, addr))
  {
    var r := Delete(q, addr);
    var s := q.heap[addr].sequence;
    AppendFresh(q.deleted, s);
    forall n | n in r.created && n !in r.deleted ensures Live(r, n) {
      assert n !in q.deleted && n != s;
      var a :| a in q.heap && q.heap[a].sequence == n;
      assert a in r.heap && r.heap[a].sequence == n;
    }
  }

  lemma CancelSameTimers(q: Queue, id: TimerId)
    requires SameTimers(q) && id in q.active
    ensures SameTimers(CancelInLoop(q, id))
    ensures CancelInLoop(q, id).timers != [] ==>
              q.timers != [] && q.timers[0].when <= CancelInLoop(q, id).timers[0].when
  {
    var e := Entry(q.heap[id.timer].expiration, id.timer);
    EraseElements(q.timers, e);
    if Erase(q.timers, e) != [] {
      EraseFirst(q.timers, e);
    }
    var r := CancelInLoop(q, id);
    forall x | x in r.timers
      ensures x.timer in r.heap && r.heap[x.timer].expiration == x.when && TimerIdOf(r, x.timer) in r.active
    {
      assert x in q.timers;
    }
  }

  lemma CancelOnePlace(q: Queue, id: TimerId)
    requires OnePlace(q) && id in q.active && id.timer in q.heap && TimerIdOf(q, id.timer) == id
    ensures OnePlace(CancelInLoop(q, id))
  {
    hide Erase;
  }

  lemma CancelKeeps(q: Queue, id: TimerId)
    requires Inv(q) && (id in q.active ==> id.timer in q.heap)
    ensures Inv(CancelInLoop(q, id))
  {
    hide Accounted, Erase, OnePlace, SameTimers;
    var r := CancelInLoop(q, id);
    if id in q.active {
      CancelSameTimers(q, id);
      ActiveIsLive(q, id);
      CancelOnePlace(q, id);
      var mid := q.(timers := r.timers, active := r.active);
      SameAccount(q, mid);
      DeleteAccounted(mid, id.timer);
    } else {
      SameAccount(q, r);
      SameTimersFields(q, r);
      SamePlaces(q, r);
    }
  }

  lemma ActiveIsLive(q: Queue, id: TimerId)
    requires SameTimers(q) && id in q.active
    ensures id.timer in q.heap && TimerIdOf(q, id.timer) == id
  {
  }

  lemma SamePlaces(q: Queue, r: Queue)
    requires OnePlace(q)
    requires r.heap == q.heap && r.pending == q.pending && r.active == q.active && r.expired == q.expired
    ensures OnePlace(r)
  {
  }

  // ------------------------------------------------------------------
  // Taking the expired batch.

  /** `getExpired` takes exactly the timers due at `now`, in order, and leaves exactly the later ones. */
  lemma ExpiredExact(q: Queue)
    requires SameTimers(q) && Accounted(q)
    ensures var r := GetExpired(q);
            && r.expired + r.timers == q.timers
            && (forall e :: e in r.expired ==> e.when <= q.now)
            && (forall e :: e in r.timers ==> q.now < e.when)
            && Ordered(r.expired)
  {
    var sentry := Entry(q.now, UINTPTR_MAX);
    LowerBoundSplits(q.timers, sentry);
    var n := LowerBound(q.timers, sentry);
    assert q.timers == q.timers[..n] + q.timers[n..];
    forall e | e in q.timers ensures Less(e, sentry) <==> e.when <= q.now {
      assert e.timer < UINTPTR_MAX;
    }
    forall i | 0 <= i < |q.timers| ensures i < n <==> q.timers[i].when <= q.now {
      assert q.timers[i] in q.timers;
    }
  }

  /** Different entries of `timers_` are different timers. */
  lemma EntriesDistinct(q: Queue, i: int, j: int)
    requires SameTimers(q) && 0 <= i < j < |q.timers|
    ensures q.timers[i].timer != q.timers[j].timer
  {
    assert q.timers[i] in q.timers && q.timers[j] in q.timers;
    assert Less(q.timers[i], q.timers[j]);
  }

  lemma ExpiredSameTimers(q: Queue, n: nat)
    requires SameTimers(q) && n <= |q.timers|
    ensures SameTimers(q.(timers := q.timers[n..], active := q.active - IdsOf(q.heap, q.timers[..n])))
  {
    var es := q.timers[..n];
    var r := q.(timers := q.timers[n..], active := q.active - IdsOf(q.heap, es));
    forall e | e in r.timers
      ensures e.timer in r.heap && r.heap[e.timer].expiration == e.when && TimerIdOf(r, e.timer) in r.active
    {
      var j :| n <= j < |q.timers| && e == q.timers[j];
      assert e in q.timers;
      forall x | x in es ensures x.timer != e.timer {
        var i :| 0 <= i < n && x == q.timers[i];
        EntriesDistinct(q, i, j);
      }
    }
    assert forall x :: x in es && x.timer in q.heap ==> TimerId(x.timer, q.heap[x.timer].sequence) in IdsOf(q.heap, es);
    forall id | id in r.active ensures Entry(r.heap[id.timer].expiration, id.timer) in r.timers {
      var e := Entry(q.heap[id.timer].expiration, id.timer);
      assert e in q.timers;
    }
  }

  lemma ExpiredOnePlace(q: Queue, n: nat)
    requires SameTimers(q) && OnePlace(q) && q.expired == [] && n <= |q.timers|
    ensures OnePlace(q.(expired := q.timers[..n], timers := q.timers[n..],
                        active := q.active - IdsOf(q.heap, q.timers[..n])))
  {
    var es := q.timers[..n];
    var r := q.(expired := es, timers := q.timers[n..], active := q.active - IdsOf(q.heap, es));
    assert Resettable(r) by {
      forall i | 0 <= i < n ensures es[i].timer in r.heap {
        assert es[i] in q.timers;
      }
      forall i, j | 0 <= i < j < n ensures es[i].timer != es[j].timer {
        EntriesDistinct(q, i, j);
      }
    }
    forall e | e in es
      ensures e.timer !in r.pending && e.timer in r.heap && TimerIdOf(r, e.timer) !in r.active
    {
      assert e in q.timers;
      assert TimerId(e.timer, q.heap[e.timer].sequence) in IdsOf(q.heap, es);
    }
    forall a | a in r.heap
      ensures a in r.pending || TimerIdOf(r, a) in r.active || a in Addresses(es)
    {
      if TimerIdOf(q, a) in IdsOf(q.heap, es) {
        var e :| e in es && e.timer == a;
      }
    }
  }

  lemma BeginReadKeeps(q: Queue)
    requires Inv(q) && !q.calling
    ensures Inv(BeginRead(q))
    ensures BeginRead(q).timers != [] ==> BeginRead(q).timers[0].when > q.clock
  {
    hide OnePlace, SameTimers, Accounted, LowerBound;
    var p := AfterRead(q);
    var r := BeginRead(q);
    SameTimersFields(q, p);
    SamePlaces(q, p);
    SameAccount(q, p);
    ExpiredExact(p);
    var n := LowerBound(p.timers, Entry(p.now, UINTPTR_MAX));
    ExpiredSameTimers(p, n);
    ExpiredOnePlace(p, n);
    SameTimersFields(p.(timers := p.timers[n..], active := p.active - IdsOf(p.heap, p.timers[..n])), r);
    SamePlaces(GetExpired(p), r);
    SameAccount(p, r);
    if r.timers != [] {
      assert r.timers[0] in r.timers;
    }
  }

  // ------------------------------------------------------------------
  // Resetting the batch.

  lemma RestartSameTimers(q: Queue, addr: Address, when: int)
    requires SameTimers(q) && addr in q.heap && TimerIdOf(q, addr) !in q.active
    ensures SameTimers(q.(heap := q.heap[addr := q.heap[addr].(expiration := when)]))
  {
    var r := q.(heap := q.heap[addr := q.heap[addr].(expiration := when)]);
    forall e | e in r.timers
      ensures e.timer in r.heap && r.heap[e.timer].expiration == e.when && TimerIdOf(r, e.timer) in r.active
    {
      assert e.timer != addr;
    }
  }

  lemma RestartAccounted(q: Queue, addr: Address, when: int)
    requires Accounted(q) && addr in q.heap
    ensures Accounted(q.(heap := q.heap[addr := q.heap[addr].(expiration := when)]))
  {
    var r := q.(heap := q.heap[addr := q.heap[addr].(expiration := when)]);
    forall n | Live(q, n) ensures Live(r, n) {
      var a :| a in q.heap && q.heap[a].sequence == n;
      assert a in r.heap && r.heap[a].sequence == n;
    }
  }

  /** The timers of the batch other than the first, which goes into the active set or away. */
  lemma BatchTail(q: Queue, a: Address)
    requires OnePlace(q) && q.expired != []
    ensures a in Addresses(q.expired) && a != q.expired[0].timer ==> a in Addresses(q.expired[1..])
    ensures forall e :: e in q.expired[1..] ==> e in q.expired && e.timer != q.expired[0].timer
  {
    if a in Addresses(q.expired) && a != q.expired[0].timer {
      var e :| e in q.expired && e.timer == a;
      assert e in q.expired[1..];
    }
    forall e | e in q.expired[1..] ensures e in q.expired && e.timer != q.expired[0].timer {
      var i :| 0 <= i < |q.expired| - 1 && q.expired[1..][i] == e;
      assert q.expired[i + 1] == e;
    }
  }

  lemma RearmOnePlace(q: Queue, r: Queue)
    requires OnePlace(q) && q.expired != [] && Resettable(r)
    requires r.expired == q.expired[1..] && r.pending == q.pending && r.heap.Keys == q.heap.Keys
    requires forall a :: a in q.heap ==> r.heap[a].sequence == q.heap[a].sequence
    requires r.active == q.active + {TimerIdOf(q, q.expired[0].timer)}
    ensures OnePlace(r)
  {
    BatchTail(q, 0);
    forall a | a in r.heap
      ensures a in r.pending || TimerIdOf(r, a) in r.active || a in Addresses(r.expired)
    {
      BatchTail(q, a);
    }
    assert q.expired[0] in q.expired;
  }

  lemma DeleteOnePlace(q: Queue, r: Queue)
    requires OnePlace(q) && q.expired != [] && Resettable(r)
    requires r.expired == q.expired[1..] && r.pending == q.pending && r.active == q.active
    requires r.heap == q.heap - {q.expired[0].timer}
    ensures OnePlace(r)
  {
    BatchTail(q, 0);
    forall a | a in r.heap
      ensures a in r.pending || TimerIdOf(r, a) in r.active || a in Addresses(r.expired)
    {
      BatchTail(q, a);
    }
    assert q.expired[0] in q.expired;
  }

  lemma ResetOneOnePlace(q: Queue)
    requires OnePlace(q) && q.expired != []
    ensures OnePlace(ResetOne(q))
  {
    hide Insert, OnePlace;
    BatchFacts(q);
    var addr := q.expired[0].timer;
    if q.heap[addr].repeat && TimerIdOf(q, addr) !in q.canceling {
      RearmOnePlace(q, ResetOne(q));
    } else {
      DeleteOnePlace(q, ResetOne(q));
    }
  }

  /** What a batch entry is: live, inactive, and not waiting to be added. */
  lemma BatchFacts(q: Queue)
    requires OnePlace(q) && q.expired != []
    ensures Resettable(q)
    ensures q.expired[0].timer in q.heap && TimerIdOf(q, q.expired[0].timer) !in q.active
            && q.expired[0].timer !in q.pending
  {
    assert q.expired[0] in q.expired;
  }

  lemma DeleteSameTimers(q: Queue, addr: Address)
    requires SameTimers(q) && addr in q.heap && TimerIdOf(q, addr) !in q.active
    ensures SameTimers(Delete(q, addr))
  {
  }

  lemma ResetOneKeeps(q: Queue)
    requires Structure(q) && q.expired != []
    ensures Structure(ResetOne(q))
    ensures forall e :: e in q.timers ==> e in ResetOne(q).timers
    ensures forall e :: e in ResetOne(q).timers ==>
              e in q.timers || (q.heap[q.expired[0].timer].repeat && e.when == q.now + q.heap[q.expired[0].timer].delta)
  {
    hide OnePlace, SameTimers, Accounted, Insert;
    BatchFacts(q);
    ResetOneOnePlace(q);
    var r := ResetOne(q);
    var addr := q.expired[0].timer;
    var t := q.heap[addr];
    var rest := q.(expired := q.expired[1..]);
    SameTimersFields(q, rest);
    SameAccount(q, rest);
    if t.repeat && TimerIdOf(q, addr) !in q.canceling {
      RestartSameTimers(rest, addr, q.now + t.delta);
      RestartAccounted(rest, addr, q.now + t.delta);
      var mid := rest.(heap := q.heap[addr := t.(expiration := q.now + t.delta)]);
      InsertKeeps(mid, addr);
      SameAccount(mid, r);
    } else {
      DeleteSameTimers(rest, addr);
      DeleteAccounted(rest, addr);
    }
  }

  /** The environment-facing part of the state, which `reset` leaves alone. */
  predicate SameClock(q: Queue, r: Queue) {
    r.clock == q.clock && r.deadline == q.deadline && r.armedAt == q.armedAt && r.calling == q.calling
    && r.now == q.now && r.numCreated == q.numCreated && r.created == q.created && r.canceling == q.canceling
    && r.pending == q.pending
  }

  predicate DeltasNonNegative(q: Queue) {
    forall a :: a in q.heap && q.heap[a].repeat ==> q.heap[a].delta >= 0
  }

  lemma {:induction false} ResetAllKeeps(q: Queue)
    requires Structure(q) && DeltasNonNegative(q)
    ensures Resettable(q) && Structure(ResetAll(q)) && DeltasNonNegative(ResetAll(q)) && SameClock(q, ResetAll(q))
    ensures ResetAll(q).expired == []
    ensures forall e :: e in q.timers ==> e in ResetAll(q).timers
    ensures forall e :: e in ResetAll(q).timers ==> e in q.timers || e.when >= q.now
    decreases |q.expired|
  {
    hide SameTimers, Accounted, Insert;
    if q.expired != [] {
      ResetOneKeeps(q);
      ResetAllKeeps(ResetOne(q));
    }
  }

  lemma FirstIsEarliest(s: seq<Entry>, e: Entry)
    requires Ordered(s) && e in s
    ensures s[0].when <= e.when
  {
  }

  lemma EndReadArmed(q: Queue, r: Queue)
    requires Ordered(q.timers) && Ordered(r.timers)
    requires q.now > 0 && (q.timers != [] && q.timers[0].when <= 0 ==> Armed(q))
    requires r.deadline == q.deadline && r.armedAt == q.armedAt
    requires forall e :: e in q.timers ==> e in r.timers
    requires forall e :: e in r.timers ==> e in q.timers || e.when >= q.now
    ensures Armed(if r.timers != [] && r.timers[0].when > 0 then Arm(r, r.timers[0].when) else r)
  {
    if r.timers != [] && r.timers[0].when <= 0 {
      assert r.timers[0] in r.timers;
      assert q.timers != [];
      FirstIsEarliest(q.timers, r.timers[0]);
      assert q.timers[0] in r.timers;
      FirstIsEarliest(r.timers, q.timers[0]);
    }
  }

  lemma CallbacksDone(q: Queue)
    requires Structure(q)
    ensures Structure(q.(calling := false)) && Resettable(q)
  {
    var p := q.(calling := false);
    SameTimersFields(q, p);
    SamePlaces(q, p);
    SameAccount(q, p);
  }

  /** Setting the timerfd changes nothing else. */
  lemma EndReadFields(q: Queue)
    requires Resettable(q)
    ensures var r := ResetAll(q.(calling := false)); var s := EndRead(q);
            && s.heap == r.heap && s.active == r.active && s.timers == r.timers && s.pending == r.pending
            && s.created == r.created && s.deleted == r.deleted && s.numCreated == r.numCreated
            && s.expired == r.expired
            && s.calling == r.calling
  {
    hide ResetAll;
  }

  lemma EndReadTimely(q: Queue)
    requires Inv(q) && q.calling
    ensures Timely(EndRead(q))
  {
    hide SameTimers, Accounted, Insert, ResetAll;
    var p := q.(calling := false);
    CallbacksDone(q);
    ResetAllKeeps(p);
    SameTimersOrdered(q);
    SameTimersOrdered(ResetAll(p));
    EndReadArmed(q, ResetAll(p));
  }

  lemma EndReadKeeps(q: Queue)
    requires Inv(q) && q.calling
    ensures Inv(EndRead(q))
  {
    hide SameTimers, Accounted, OnePlace, ResetAll, EndRead, Timely;
    EndReadTimely(q);
    CallbacksDone(q);
    EndReadDeltas(q);
    EndReadFields(q);
    var p := q.(calling := false);
    ResetAllKeeps(p);
    var r, s := ResetAll(p), EndRead(q);
    SameTimersFields(r, s);
    SamePlaces(r, s);
    SameAccount(r, s);
  }

  lemma EndReadDeltas(q: Queue)
    requires Timely(q)
    ensures DeltasNonNegative(q.(calling := false))
  {
  }

  lemma SameTimersOrdered(q: Queue)
    requires SameTimers(q)
    ensures Ordered(q.timers)
  {
  }

  // ------------------------------------------------------------------
  // Every run.

  lemma StepKeeps(q: Queue, ev: Event)
    requires Inv(q) && Enabled(q, ev)
    ensures Inv(Step(q, ev))
  {
    hide Inv, Create, AddTimerInLoop, CancelInLoop, BeginRead, EndRead, Resettable;
    match ev
    case CreateTimer(addr, when, interval) => CreateKeeps(q, addr, when, interval);
    case AddTimer(addr) => AddKeeps(q, addr);
    case Cancel(id) => CancelKeeps(q, id);
    case ReadStart => BeginReadKeeps(q);
    case ReadEnd => EndReadKeeps(q);
    case _ => TimePasses(q, ev);
  }

  lemma TimePasses(q: Queue, ev: Event)
    requires Inv(q) && Enabled(q, ev) && (ev.Tick? || ev.ForeignCreate?)
    ensures Inv(Step(q, ev))
  {
    hide OnePlace, SameTimers, Accounted, Insert, ResetAll, Erase, LowerBound;
    var r := Step(q, ev);
    SameTimersFields(q, r);
    SamePlaces(q, r);
    SameAccount(q, r);
  }

  /** The invariant holds after every run from an empty queue. */
  lemma {:induction false} RunKeeps(q: Queue, evs: seq<Event>)
    requires Inv(q)
    ensures Inv(Run(q, evs))
    decreases |evs|
  {
    hide Inv;
    if evs != [] {
      if Enabled(q, evs[0]) {
        StepKeeps(q, evs[0]);
        RunKeeps(Step(q, evs[0]), evs[1..]);
      } else {
        RunKeeps(q, evs[1..]);
      }
    }
  }

  // ------------------------------------------------------------------
  // Main results.

  /** An empty queue at any positive time satisfies the invariant. */
  lemma EmptyQueueInv(clock: int, armedAt: int, numCreated: nat)
    requires clock > 0 && armedAt <= clock
    ensures Inv(Queue(clock, None, armedAt, map[], numCreated, {}, {}, [], [], {}, false, {}, [], 0))
  {
  }

  /** The environment's guarantees aside, no step is ever refused: a cancellation can always be processed, and a
      batch can always be reset. */
  lemma NothingRefused(q: Queue, id: TimerId)
    requires Inv(q)
    ensures Enabled(q, Cancel(id))
    ensures q.calling ==> Enabled(q, ReadEnd)
    ensures forall a :: a in q.pending ==> Enabled(q, AddTimer(a))
  {
    if id in q.active {
      ActiveIsLive(q, id);
    }
  }

  /** The size asserts: both sets have the same number of elements. */
  lemma SizesAgree(q: Queue)
    requires SameTimers(q)
    ensures |q.timers| == |q.active|
  {
    assert q.active == IdsOf(q.heap, q.timers) by {
      assert forall id :: id in q.active ==> Entry(q.heap[id.timer].expiration, id.timer) in q.timers;
    }
    forall i | 0 <= i < |q.timers| ensures q.timers[i].timer in q.heap {
      assert q.timers[i] in q.timers;
    }
    forall i, j | 0 <= i < j < |q.timers| ensures q.timers[i].timer != q.timers[j].timer {
      EntriesDistinct(q, i, j);
    }
    IdsCount(q.heap, q.timers);
  }

  lemma {:induction false} IdsCount(heap: map<Address, Timer>, es: seq<Entry>)
    requires forall i :: 0 <= i < |es| ==> es[i].timer in heap
    requires forall i, j :: 0 <= i < j < |es| ==> es[i].timer != es[j].timer
    ensures |IdsOf(heap, es)| == |es|
  {
    if es == [] {
      assert IdsOf(heap, es) == {};
    } else {
      var n := |es| - 1;
      IdsCount(heap, es[..n]);
      var id := TimerId(es[n].timer, heap[es[n].timer].sequence);
      assert IdsOf(heap, es) == IdsOf(heap, es[..n]) + {id} by {
        assert es == es[..n] + [es[n]];
      }
      assert id !in IdsOf(heap, es[..n]);
    }
  }

  /** The id was handed out, and its timer is gone; the address may be in use again. */
  predicate Stale(q: Queue, id: TimerId) {
    id.sequence <= q.numCreated && !Live(q, id.sequence)
  }

  lemma {:induction false} ResetAllStale(q: Queue, id: TimerId)
    requires Resettable(q) && Stale(q, id)
    ensures Stale(ResetAll(q), id)
    decreases |q.expired|
  {
    hide Insert;
    if q.expired != [] {
      var r := ResetOne(q);
      forall a | a in r.heap ensures r.heap[a].sequence != id.sequence {
        assert a in q.heap && r.heap[a].sequence == q.heap[a].sequence;
      }
      ResetAllStale(r, id);
    }
  }

  lemma StaleForever(q: Queue, ev: Event, id: TimerId)
    requires Stale(q, id) && Enabled(q, ev)
    ensures Stale(Step(q, ev), id)
  {
    hide Insert, Erase, ResetAll, LowerBound;
    var r := Step(q, ev);
    if ev == ReadEnd {
      var p := q.(calling := false);
      assert Stale(p, id) by { assert forall n :: Live(p, n) ==> Live(q, n); }
      ResetAllStale(p, id);
      assert forall n :: Live(r, n) ==> Live(ResetAll(p), n);
    } else {
      assert forall a :: a in r.heap && a in q.heap ==> r.heap[a] == q.heap[a];
      assert forall a :: a in r.heap && a !in q.heap ==> r.heap[a].sequence == q.numCreated + 1;
    }
  }

  /** Equal up to the presence of one id among the cancellations of the current batch. */
  predicate Alike(q: Queue, r: Queue, id: TimerId) {
    r == q.(canceling := r.canceling) && r.canceling - {id} == q.canceling - {id}
  }

  lemma {:induction false} ResetAllAlike(q: Queue, r: Queue, id: TimerId)
    requires Resettable(q) && Stale(q, id) && Alike(q, r, id)
    ensures Alike(ResetAll(q), ResetAll(r), id)
    decreases |q.expired|
  {
    hide Insert;
    if q.expired != [] {
      var own := TimerIdOf(q, q.expired[0].timer);
      assert own != id;
      assert own in q.canceling <==> own in q.canceling - {id};
      assert own in r.canceling <==> own in r.canceling - {id};
      assert Stale(ResetOne(q), id) by {
        assert forall n :: Live(ResetOne(q), n) ==> Live(q, n);
      }
      ResetAllAlike(ResetOne(q), ResetOne(r), id);
    }
  }

  lemma StepAlike(q: Queue, r: Queue, id: TimerId, ev: Event)
    requires Stale(q, id) && Alike(q, r, id)
    ensures Enabled(q, ev) <==> Enabled(r, ev)
    ensures Enabled(q, ev) ==> Alike(Step(q, ev), Step(r, ev), id)
  {
    hide Insert, Erase, ResetAll, LowerBound;
    if Enabled(q, ev) {
      match ev
      case Cancel(x) =>
        assert (r.canceling + {x}) - {id} == (r.canceling - {id}) + ({x} - {id});
        assert (q.canceling + {x}) - {id} == (q.canceling - {id}) + ({x} - {id});
      case ReadEnd => ResetAllAlike(q.(calling := false), r.(calling := false), id);
      case _ =>
    }
  }

  lemma {:induction false} RunAlike(q: Queue, r: Queue, id: TimerId, evs: seq<Event>)
    requires Stale(q, id) && Alike(q, r, id)
    ensures Alike(Run(q, evs), Run(r, evs), id)
    decreases |evs|
  {
    hide Stale, Alike, Step, Enabled;
    if evs != [] {
      StepAlike(q, r, id, evs[0]);
      if Enabled(q, evs[0]) {
        StaleForever(q, evs[0], id);
        RunAlike(Step(q, evs[0]), Step(r, evs[0]), id, evs[1..]);
      } else {
        RunAlike(q, r, id, evs[1..]);
      }
    }
  }

  /** Cancelling a timer that is gone is invisible, now and in every continuation: whatever lives at the reused
      address, no timer, no set and no deadline is ever affected. */
  lemma {:induction false} StaleCancelIsInvisible(q: Queue, id: TimerId, evs: seq<Event>)
    requires Inv(q) && Stale(q, id)
    ensures id !in q.active
    ensures Run(CancelInLoop(q, id), evs) == Run(q, evs).(canceling := Run(CancelInLoop(q, id), evs).canceling)
  {
    StaleInactive(q, id);
    assert Alike(q, CancelInLoop(q, id), id);
    hide Stale, Inv, Run;
    RunAlike(q, CancelInLoop(q, id), id, evs);
  }

  lemma StaleInactive(q: Queue, id: TimerId)
    requires SameTimers(q) && Stale(q, id)
    ensures id !in q.active
  {
  }

  predicate InBatch(q: Queue, id: TimerId) {
    q.calling && id in IdsOf(q.heap, q.expired)
  }

  /** The timer is gone, or will go when the current batch ends. */
  predicate Doomed(q: Queue, id: TimerId) {
    id.sequence in q.created && (Stale(q, id) || (InBatch(q, id) && id in q.canceling))
  }

  lemma DoomedInactive(q: Queue, id: TimerId)
    requires Inv(q) && Doomed(q, id)
    ensures id !in q.active
    ensures !q.calling ==> Stale(q, id) && id.sequence in q.deleted
  {
    if !Stale(q, id) {
      var e :| e in q.expired && e.timer in q.heap && TimerId(e.timer, q.heap[e.timer].sequence) == id;
    }
  }

  /** `reset` deletes a cancelled member of the batch, repeating or not. */
  lemma {:induction false} ResetAllDooms(q: Queue, id: TimerId)
    requires Structure(q) && id in q.canceling && id in IdsOf(q.heap, q.expired)
    ensures Resettable(q) && Stale(ResetAll(q), id)
    decreases |q.expired|
  {
    var k :| 0 <= k < |q.expired| && q.expired[k].timer in q.heap && TimerIdOf(q, q.expired[k].timer) == id;
    ResetOneKeeps(q);
    ResetOneDooms(q, id, k);
    hide SameTimers, Accounted, OnePlace;
    if k == 0 {
      ResetAllStale(ResetOne(q), id);
    } else {
      ResetAllDooms(ResetOne(q), id);
    }
  }

  lemma ResetOneDooms(q: Queue, id: TimerId, k: nat)
    requires Resettable(q) && Accounted(q) && id in q.canceling
    requires k < |q.expired| && TimerIdOf(q, q.expired[k].timer) == id
    ensures k == 0 ==> Stale(ResetOne(q), id)
    ensures k > 0 ==> id in IdsOf(ResetOne(q).heap, ResetOne(q).expired) && ResetOne(q).canceling == q.canceling
  {
    hide Insert;
    var r := ResetOne(q);
    if k > 0 {
      assert r.expired[k - 1] == q.expired[k];
      assert r.expired[k - 1].timer in r.heap;
    }
  }

  lemma DoomedAtEnd(q: Queue, id: TimerId)
    requires Inv(q) && Doomed(q, id) && !Stale(q, id) && Enabled(q, ReadEnd)
    requires id.sequence in EndRead(q).created
    ensures Doomed(EndRead(q), id)
  {
    hide Insert, Erase, ResetAll, LowerBound, OnePlace, SameTimers, Accounted, Timely, EndRead, Stale;
    CallbacksDone(q);
    ResetAllDooms(q.(calling := false), id);
    EndReadFields(q);
    ArmStale(ResetAll(q.(calling := false)), EndRead(q), id);
  }

  lemma DoomedInCallback(q: Queue, ev: Event, id: TimerId)
    requires Inv(q) && Doomed(q, id) && !Stale(q, id) && Enabled(q, ev) && ev != ReadEnd
    ensures Doomed(Step(q, ev), id)
  {
    hide Insert, Erase, ResetAll, LowerBound, Step, Stale, OnePlace, SameTimers, Timely;
    CreatedGrows(q, ev);
    var e :| e in q.expired && e.timer in q.heap && TimerId(e.timer, q.heap[e.timer].sequence) == id;
    BatchUntouched(q, ev, e);
  }

  lemma DoomedStep(q: Queue, ev: Event, id: TimerId)
    requires Inv(q) && Doomed(q, id) && Enabled(q, ev)
    ensures Doomed(Step(q, ev), id)
  {
    hide Inv, Step, Stale, Enabled;
    CreatedGrows(q, ev);
    if Stale(q, id) {
      StaleForever(q, ev, id);
    } else if ev == ReadEnd {
      EndIsStep(q);
      DoomedAtEnd(q, id);
    } else {
      DoomedInCallback(q, ev, id);
    }
  }

  lemma EndIsStep(q: Queue)
    requires Enabled(q, ReadEnd)
    ensures Resettable(q) && Step(q, ReadEnd) == EndRead(q)
  {
  }

  lemma CreatedGrows(q: Queue, ev: Event)
    requires Inv(q) && Enabled(q, ev)
    ensures q.created <= Step(q, ev).created
  {
    hide Insert, Erase, ResetAll, LowerBound;
    if ev == ReadEnd {
      var p := q.(calling := false);
      CallbacksDone(q);
      ResetAllKeeps(p);
    }
  }

  /** Until the batch ends, no step touches its timers. */
  lemma BatchUntouched(q: Queue, ev: Event, e: Entry)
    requires Inv(q) && q.calling && e in q.expired && Enabled(q, ev) && ev != ReadEnd
    ensures var r := Step(q, ev);
            && r.calling && r.expired == q.expired && q.canceling <= r.canceling
            && e.timer in q.heap && e.timer in r.heap && r.heap[e.timer] == q.heap[e.timer]
  {
    hide Insert, Erase;
  }

  lemma {:induction false} DoomedForever(q: Queue, id: TimerId, evs: seq<Event>)
    requires Inv(q) && Doomed(q, id)
    ensures Inv(Run(q, evs)) && Doomed(Run(q, evs), id)
    decreases |evs|
  {
    hide Inv, Doomed, Step, Enabled;
    if evs != [] {
      if Enabled(q, evs[0]) {
        StepKeeps(q, evs[0]);
        DoomedStep(q, evs[0], id);
        DoomedForever(Step(q, evs[0]), id, evs[1..]);
      } else {
        DoomedForever(q, id, evs[1..]);
      }
    }
  }

  predicate LiveId(q: Queue, id: TimerId) {
    id.timer in q.heap && TimerIdOf(q, id.timer) == id
  }

  lemma CancelActiveStale(q: Queue, id: TimerId)
    requires SameTimers(q) && Accounted(q) && id in q.active
    ensures Doomed(CancelInLoop(q, id), id)
  {
    hide Erase;
    var c := CancelInLoop(q, id);
    forall a | a in c.heap ensures c.heap[a].sequence != id.sequence {
      assert a in q.heap && a != id.timer;
    }
    assert id.sequence in q.created;
  }

  lemma CancelInBatchDooms(q: Queue, id: TimerId)
    requires Accounted(q) && InBatch(q, id) && id !in q.active
    ensures Doomed(CancelInLoop(q, id), id)
  {
    var e :| e in q.expired && e.timer in q.heap && TimerId(e.timer, q.heap[e.timer].sequence) == id;
  }

  lemma CancelDooms(q: Queue, id: TimerId)
    requires Inv(q) && (id in q.active || InBatch(q, id))
    ensures id in q.active ==> id.timer in q.heap
    ensures Inv(CancelInLoop(q, id)) && Doomed(CancelInLoop(q, id), id)
  {
    if id in q.active {
      ActiveIsLive(q, id);
      CancelActiveStale(q, id);
    } else {
      CancelInBatchDooms(q, id);
    }
    hide Doomed, Accounted, SameTimers, OnePlace, Timely;
    CancelKeeps(q, id);
  }

  /** A cancelled timer that was active or in the running batch is never active again, in any continuation, and once
      no batch is running it has been deleted. */
  lemma {:induction false} CancelIsFinal(q: Queue, id: TimerId, evs: seq<Event>)
    requires Inv(q) && (id in q.active || InBatch(q, id))
    ensures id in q.active ==> id.timer in q.heap
    ensures var r := Run(CancelInLoop(q, id), evs);
            id !in r.active && (!r.calling ==> id.sequence in r.deleted)
  {
    hide Run, Inv, Doomed, InBatch;
    CancelDooms(q, id);
    DoomedForever(CancelInLoop(q, id), id, evs);
    DoomedInactive(Run(CancelInLoop(q, id), evs), id);
  }

  /** A timer whose `addTimerInLoop` has not run yet escapes its cancellation. */
  lemma CancelBeforeAddIsLost(q: Queue, id: TimerId)
    requires Inv(q) && LiveId(q, id) && id.timer in q.pending
    ensures id !in q.active && id in Run(CancelInLoop(q, id), [AddTimer(id.timer)]).active
  {
    hide Insert;
    var c := CancelInLoop(q, id);
    assert Run(c, [AddTimer(id.timer)]) == Run(Step(c, AddTimer(id.timer)), []);
  }

  /** Exactly when a cancellation of a live timer takes effect. */
  lemma CancelExact(q: Queue, id: TimerId)
    requires Inv(q) && LiveId(q, id)
    ensures (id in q.active || InBatch(q, id)) <==> (forall evs :: id !in Run(CancelInLoop(q, id), evs).active)
  {
    if id in q.active || InBatch(q, id) {
      forall evs ensures id !in Run(CancelInLoop(q, id), evs).active {
        CancelIsFinal(q, id, evs);
      }
    } else {
      LiveSomewhere(q, id);
      CancelBeforeAddIsLost(q, id);
    }
  }

  lemma LiveSomewhere(q: Queue, id: TimerId)
    requires Inv(q) && LiveId(q, id)
    ensures id.timer in q.pending || id in q.active || InBatch(q, id)
  {
    if id.timer in Addresses(q.expired) {
      var e :| e in q.expired && e.timer == id.timer;
      assert TimerId(e.timer, q.heap[e.timer].sequence) in IdsOf(q.heap, q.expired);
    }
  }

  // ------------------------------------------------------------------
  // The outcome of a batch.

  lemma {:induction false} ResetAllLeaves(q: Queue, id: TimerId)
    requires Structure(q) && id in q.active
    ensures Resettable(q) && id.timer in q.heap && id.timer in ResetAll(q).heap
    ensures id in ResetAll(q).active && ResetAll(q).heap[id.timer] == q.heap[id.timer]
    decreases |q.expired|
  {
    hide SameTimers, Accounted, Insert;
    ActiveIsLive(q, id);
    if q.expired != [] {
      ResetOneKeeps(q);
      ResetOneLeaves(q, id);
      ResetAllLeaves(ResetOne(q), id);
    }
  }

  lemma ResetOneLeaves(q: Queue, id: TimerId)
    requires Structure(q) && id in q.active && q.expired != []
    ensures Resettable(q) && id.timer in q.heap && id.timer in ResetOne(q).heap
    ensures id in ResetOne(q).active && ResetOne(q).heap[id.timer] == q.heap[id.timer]
  {
    hide Accounted, Insert;
    ActiveIsLive(q, id);
    BatchFacts(q);
  }

  lemma {:induction false} ResetAllOutcome(q: Queue, id: TimerId, k: nat)
    requires Structure(q) && k < |q.expired| && q.expired[k].timer in q.heap && TimerIdOf(q, q.expired[k].timer) == id
    ensures Resettable(q)
    ensures var r := ResetAll(q); var t := q.heap[id.timer];
            if t.repeat && id !in q.canceling then
              id in r.active && id.timer in r.heap && r.heap[id.timer] == t.(expiration := q.now + t.delta)
            else
              Stale(r, id)
    decreases |q.expired|
  {
    hide SameTimers, Accounted, OnePlace, Insert, Stale;
    ResetOneKeeps(q);
    ResetOneOutcome(q, id, k);
    var r := ResetOne(q);
    if k > 0 {
      ResetAllOutcome(r, id, k - 1);
    } else if id in r.active {
      ResetAllLeaves(r, id);
    } else {
      ResetAllStale(r, id);
    }
  }

  lemma ResetOneOutcome(q: Queue, id: TimerId, k: nat)
    requires Structure(q) && k < |q.expired| && q.expired[k].timer in q.heap && TimerIdOf(q, q.expired[k].timer) == id
    ensures Resettable(q)
    ensures var r := ResetOne(q); var t := q.heap[id.timer];
            && r.canceling == q.canceling && r.now == q.now
            && (k > 0 ==> r.expired[k - 1] == q.expired[k] && id.timer in r.heap && r.heap[id.timer] == t)
            && (k == 0 && t.repeat && id !in q.canceling ==>
                  id in r.active && id.timer in r.heap && r.heap[id.timer] == t.(expiration := q.now + t.delta))
            && (k == 0 && !(t.repeat && id !in q.canceling) ==> id !in r.active && Stale(r, id))
  {
    hide Insert;
    BatchFacts(q);
    var r := ResetOne(q);
    var t := q.heap[id.timer];
    if k == 0 && !(t.repeat && id !in q.canceling) {
      assert t.sequence in q.created;
      forall a | a in r.heap ensures r.heap[a].sequence != id.sequence {
        assert a in q.heap && a != id.timer;
      }
    }
  }

  /** When a batch ends, each of its timers is armed again one interval after the batch's time if it repeats and was
      not cancelled, and is deleted otherwise; every other active timer is as it was. */
  lemma BatchOutcome(q: Queue, id: TimerId)
    requires Inv(q) && q.calling
    requires id in q.active || InBatch(q, id)
    ensures id.timer in q.heap
    ensures var r := EndRead(q); var t := q.heap[id.timer];
            if id in q.active then id in r.active && id.timer in r.heap && r.heap[id.timer] == t
            else if t.repeat && id !in q.canceling then
              id in r.active && id.timer in r.heap && r.heap[id.timer] == t.(expiration := q.now + t.delta)
            else id !in r.active && Stale(r, id)
  {
    var p := q.(calling := false);
    CallbacksDone(q);
    hide SameTimers, Accounted, OnePlace, ResetAll, EndRead, Timely, InBatch;
    EndReadKeeps(q);
    EndReadFields(q);
    if id in q.active {
      ResetAllLeaves(p, id);
    } else {
      var k := BatchIndex(q, id);
      ResetAllOutcome(p, id, k);
      if Stale(ResetAll(p), id) {
        ArmStale(ResetAll(p), EndRead(q), id);
        StaleInactive(EndRead(q), id);
      }
    }
  }

  lemma BatchIndex(q: Queue, id: TimerId) returns (k: nat)
    requires InBatch(q, id)
    ensures k < |q.expired| && q.expired[k].timer in q.heap && TimerIdOf(q, q.expired[k].timer) == id
  {
    k :| k < |q.expired| && q.expired[k].timer in q.heap && TimerIdOf(q, q.expired[k].timer) == id;
  }

  lemma ArmStale(q: Queue, r: Queue, id: TimerId)
    requires Stale(q, id) && r.heap == q.heap && r.numCreated == q.numCreated
    ensures Stale(r, id)
  {
    assert forall n :: Live(r, n) ==> Live(q, n);
  }

  /** What a timer is to a running batch: one of it, or active. */
  predicate Stands(q: Queue, id: TimerId) {
    q.calling && LiveId(q, id) && (id in q.active || InBatch(q, id))
  }

  /** One event during the callbacks, for a timer it does not cancel. */
  lemma CallbackEvent(q: Queue, ev: Event, id: TimerId)
    requires Inv(q) && Stands(q, id) && Enabled(q, ev) && ev != ReadEnd && ev != Cancel(id)
    ensures var r := Step(q, ev);
            && Stands(r, id) && r.heap[id.timer] == q.heap[id.timer]
            && (id in r.active <==> id in q.active) && (id in r.canceling <==> id in q.canceling)
  {
    hide Insert, Erase, LowerBound, Accounted, Timely;
    var r := Step(q, ev);
    if id !in q.active {
      var e :| e in q.expired && e.timer in q.heap && TimerId(e.timer, q.heap[e.timer].sequence) == id;
      assert e in r.expired;
    }
  }

  /** No event during the callbacks ends the batch or moves its time. */
  lemma {:induction false} CallbacksRun(q: Queue, evs: seq<Event>)
    requires q.calling && ReadEnd !in evs
    ensures Run(q, evs).calling && Run(q, evs).now == q.now
    decreases |evs|
  {
    hide Insert, Erase, LowerBound;
    if evs != [] {
      CallbacksRun(if Enabled(q, evs[0]) then Step(q, evs[0]) else q, evs[1..]);
    }
  }

  /** All the events of the callbacks: a timer that none of them cancels is as it was, and any other is doomed. */
  lemma {:induction false} CallbacksLeave(q: Queue, evs: seq<Event>, id: TimerId)
    requires Inv(q) && Stands(q, id) && ReadEnd !in evs
    ensures var r := Run(q, evs);
            && Inv(r)
            && (Cancel(id) in evs ==> Doomed(r, id))
            && (Cancel(id) !in evs ==>
                  && Stands(r, id) && r.heap[id.timer] == q.heap[id.timer]
                  && (id in r.active <==> id in q.active) && (id in r.canceling <==> id in q.canceling))
    decreases |evs|
  {
    hide Inv, Stands, Step, Enabled, Doomed, InBatch;
    RunKeeps(q, evs);
    if evs == [] {
      return;
    }
    assert evs == [evs[0]] + evs[1..];
    if evs[0] == Cancel(id) {
      StandsCancelled(q, evs, id);
    } else if Enabled(q, evs[0]) {
      StepKeeps(q, evs[0]);
      CallbackEvent(q, evs[0], id);
      CallbacksLeave(Step(q, evs[0]), evs[1..], id);
    } else {
      CallbacksLeave(q, evs[1..], id);
    }
  }

  lemma {:induction false} StandsCancelled(q: Queue, evs: seq<Event>, id: TimerId)
    requires Inv(q) && Stands(q, id) && evs != [] && evs[0] == Cancel(id)
    ensures Doomed(Run(q, evs), id)
  {
    hide Inv, Doomed, InBatch, Run, Enabled;
    NothingRefused(q, id);
    CancelDooms(q, id);
    DoomedForever(CancelInLoop(q, id), id, evs[1..]);
    FirstIsCancel(q, evs, id);
  }

  lemma {:induction false} FirstIsCancel(q: Queue, evs: seq<Event>, id: TimerId)
    requires evs != [] && evs[0] == Cancel(id) && Enabled(q, Cancel(id))
    ensures Run(q, evs) == Run(CancelInLoop(q, id), evs[1..])
  {
    hide CancelInLoop;
  }

  /** What a batch makes of an active timer: due, it is in the batch; and no cancellation is left from earlier. */
  lemma BatchTakes(q: Queue, id: TimerId)
    requires Inv(q) && !q.calling && id in q.active
    ensures id.timer in q.heap
    ensures var r := BeginRead(q);
            && Inv(r) && Stands(r, id) && r.now == q.clock && r.heap == q.heap && id !in r.canceling
            && (id in r.active <==> q.heap[id.timer].expiration > q.clock)
  {
    hide GetExpired, SameTimers, OnePlace, Accounted, Timely;
    ActiveIsLive(q, id);
    BeginReadKeeps(q);
    var p := AfterRead(q);
    SameTimersFields(q, p);
    SameAccount(q, p);
    ExpiredTakes(p, id);
    BeginReadFields(q);
    assert LiveId(BeginRead(q), id);
  }

  lemma BeginReadFields(q: Queue)
    ensures var g := GetExpired(AfterRead(q)); var r := BeginRead(q);
            && r.calling && r.canceling == {} && r.now == q.clock && r.heap == q.heap
            && r.active == g.active && r.expired == g.expired
  {
    hide LowerBound;
  }

  lemma ExpiredTakes(q: Queue, id: TimerId)
    requires SameTimers(q) && Accounted(q) && id in q.active
    ensures id.timer in q.heap
    ensures var r := GetExpired(q); var later := q.heap[id.timer].expiration > q.now;
            (id in r.active <==> later) && (id in IdsOf(q.heap, r.expired) <==> !later)
  {
    ActiveIsLive(q, id);
    ExpiredExact(q);
    hide LowerBound, Accounted, Ordered;
    var r := GetExpired(q);
    var e := Entry(q.heap[id.timer].expiration, id.timer);
    assert e in r.expired + r.timers;
    if e in r.expired {
      assert TimerId(e.timer, q.heap[e.timer].sequence) in IdsOf(q.heap, r.expired);
    } else {
      forall x | x in r.expired && x.timer in q.heap ensures TimerId(x.timer, q.heap[x.timer].sequence) != id {
        assert x in r.expired + r.timers;
      }
    }
  }

  /** A whole call of `handleRead`, from the state before it and the events of its callbacks alone: an active timer
      is active afterwards if and only if no callback cancels it and it was not due or repeats; due, it is then armed
      one interval after the time of the call, and otherwise as it was.  A timer that is not active afterwards has
      been deleted. */
  lemma {:induction false} WholeBatch(q: Queue, id: TimerId, evs: seq<Event>)
    requires Inv(q) && !q.calling && id in q.active && ReadEnd !in evs
    ensures id.timer in q.heap
    ensures var t := q.heap[id.timer];
            var due := t.expiration <= q.clock;
            var r := Run(q, [ReadStart] + evs + [ReadEnd]);
            && Inv(r) && !r.calling
            && (id in r.active <==> Cancel(id) !in evs && (due ==> t.repeat))
            && (id in r.active ==>
                  && id.timer in r.heap
                  && r.heap[id.timer] == if due then t.(expiration := q.clock + t.delta) else t)
            && (id !in r.active ==> id.sequence in r.deleted && !Live(r, id.sequence))
  {
    hide Inv, Run, Stands, Doomed, InBatch, BeginRead, EndRead, Live;
    BatchTakes(q, id);
    var s := BeginRead(q);
    var m := Run(s, evs);
    CallbacksLeave(s, evs, id);
    BeginsCalling(q);
    CallbacksRun(s, evs);
    NothingRefused(m, id);
    EndIsStep(m);
    BatchRun(q, evs);
    StepKeeps(m, ReadEnd);
    EndsBatch(m);
    if Cancel(id) in evs {
      DoomedStep(m, ReadEnd, id);
      DoomedInactive(EndRead(m), id);
    } else {
      StandsSplits(m, id);
      BatchOutcome(m, id);
      GoneIsDeleted(q, [ReadStart] + evs + [ReadEnd], id);
    }
    StaleIsNotLive(EndRead(m), id);
  }

  /** Every active timer fires: let time pass until it is due, and the next `handleRead` takes it, arming it again one
      interval later if it repeats and deleting it otherwise. */
  lemma {:induction false} TimerFires(q: Queue, id: TimerId)
    requires Inv(q) && !q.calling && id in q.active
    ensures id.timer in q.heap
    ensures var t := q.heap[id.timer];
            var d := if t.expiration > q.clock then t.expiration - q.clock else 0;
            var r := Run(q, [Tick(d), ReadStart, ReadEnd]);
            && r.clock == q.clock + d && (id in r.active <==> t.repeat)
            && (t.repeat ==> id.timer in r.heap && r.heap[id.timer].expiration == q.clock + d + t.delta)
            && (!t.repeat ==> id.sequence in r.deleted)
  {
    hide SameTimers, OnePlace, Accounted, Timely, Run, Live;
    ActiveIsLive(q, id);
    var t := q.heap[id.timer];
    var d := if t.expiration > q.clock then t.expiration - q.clock else 0;
    TimePasses(q, Tick(d));
    var p := Step(q, Tick(d));
    WholeBatch(p, id, []);
    AfterTick(q, d);
    assert [ReadStart] + [] + [ReadEnd] == [ReadStart, ReadEnd];
    BatchKeepsClock(p);
  }

  lemma {:induction false} AfterTick(q: Queue, d: nat)
    ensures Run(q, [Tick(d), ReadStart, ReadEnd]) == Run(Step(q, Tick(d)), [ReadStart, ReadEnd])
  {
    hide BeginRead, EndRead;
    assert [Tick(d), ReadStart, ReadEnd][1..] == [ReadStart, ReadEnd];
  }

  lemma {:induction false} BatchKeepsClock(q: Queue)
    requires Inv(q) && !q.calling
    ensures Run(q, [ReadStart, ReadEnd]).clock == q.clock
  {
    hide SameTimers, OnePlace, Accounted, ResetAll, LowerBound;
    BeginReadKeeps(q);
    var b := BeginRead(q);
    CallbacksDone(b);
    EndReadDeltas(b);
    ResetAllKeeps(b.(calling := false));
    assert [ReadStart, ReadEnd][1..] == [ReadEnd] && [ReadEnd][1..] == [];
    assert Run(EndRead(b), []) == EndRead(b);
  }

  /** Starting a batch takes the deadline exactly if it has been reached, so one set meanwhile still holds. */
  lemma ReadKeepsDeadline(q: Queue)
    ensures BeginRead(q).deadline
            == if q.deadline.Some? && q.deadline.value <= q.clock then None else q.deadline
  {
    hide LowerBound;
  }

  lemma BeginsCalling(q: Queue)
    ensures BeginRead(q).calling
  {
  }

  lemma EndsBatch(q: Queue)
    requires Inv(q) && q.calling
    ensures Resettable(q) && !EndRead(q).calling
  {
    hide SameTimers, OnePlace, Accounted, ResetAll;
    CallbacksDone(q);
    EndReadFields(q);
    EndReadDeltas(q);
    ResetAllKeeps(q.(calling := false));
  }

  lemma StandsSplits(q: Queue, id: TimerId)
    requires Inv(q) && Stands(q, id)
    ensures q.calling && (id in q.active || InBatch(q, id)) && id.timer in q.heap
  {
  }

  lemma StaleIsNotLive(q: Queue, id: TimerId)
    ensures Stale(q, id) ==> !Live(q, id.sequence)
  {
  }

  /** A timer that was active and is no longer live has been deleted. */
  lemma {:induction false} GoneIsDeleted(q: Queue, evs: seq<Event>, id: TimerId)
    requires Inv(q) && id in q.active
    ensures Stale(Run(q, evs), id) ==> id.sequence in Run(q, evs).deleted
  {
    hide Run, SameTimers, OnePlace, Timely;
    ActiveIsLive(q, id);
    RunKeeps(q, evs);
    RunCreated(q, evs);
  }

  lemma {:induction false} RunCreated(q: Queue, evs: seq<Event>)
    requires Inv(q)
    ensures q.created <= Run(q, evs).created
    decreases |evs|
  {
    hide Inv, Step, Enabled;
    if evs != [] {
      if Enabled(q, evs[0]) {
        StepKeeps(q, evs[0]);
        CreatedGrows(q, evs[0]);
        RunCreated(Step(q, evs[0]), evs[1..]);
      } else {
        RunCreated(q, evs[1..]);
      }
    }
  }

  lemma {:induction false} BatchRun(q: Queue, evs: seq<Event>)
    requires !q.calling
    ensures var m := Run(BeginRead(q), evs);
            Run(q, [ReadStart] + evs + [ReadEnd]) == if Enabled(m, ReadEnd) then Step(m, ReadEnd) else m
  {
    hide BeginRead, EndRead;
    var all := [ReadStart] + evs + [ReadEnd];
    assert all[0] == ReadStart && all[1..] == evs + [ReadEnd];
    RunSnoc(BeginRead(q), evs, ReadEnd);
  }

  lemma {:induction false} RunConcat(q: Queue, a: seq<Event>, b: seq<Event>)
    ensures Run(q, a + b) == Run(Run(q, a), b)
    decreases |a|
  {
    hide Step, Enabled;
    if a == [] {
      assert a + b == b;
    } else {
      assert (a + b)[0] == a[0] && (a + b)[1..] == a[1..] + b;
      RunConcat(if Enabled(q, a[0]) then Step(q, a[0]) else q, a[1..], b);
    }
  }

  lemma {:induction false} RunSnoc(q: Queue, a: seq<Event>, ev: Event)
    ensures var r := Run(q, a); Run(q, a + [ev]) == if Enabled(r, ev) then Step(r, ev) else r
  {
    hide Step, Enabled;
    RunConcat(q, a, [ev]);
    var r := Run(q, a);
    assert [ev][1..] == [];
  }

  // ------------------------------------------------------------------
  // What is scheduled.

  /** The interval of a timer, in seconds, counted in microseconds: rounded toward zero. */
  lemma IntervalExact(seconds: real)
    ensures var us := Microseconds(seconds);
            && (seconds >= 0.0 ==> us as real / 1000000.0 <= seconds < (us + 1) as real / 1000000.0)
            && (seconds < 0.0 ==> (us - 1) as real / 1000000.0 < seconds <= us as real / 1000000.0)
  {
  }

  /** `addTimer` and then `addTimerInLoop`: the new timer is active under the next sequence number, at exactly the time
      asked for, and repeats if and only if its interval is positive. */
  lemma {:induction false} AddedTimer(q: Queue, addr: Address, when: int, interval: real)
    requires Inv(q) && addr !in q.heap && addr < UINTPTR_MAX
    ensures var r := Run(q, [CreateTimer(addr, when, interval), AddTimer(addr)]);
            && TimerId(addr, q.numCreated + 1) in r.active && Entry(when, addr) in r.timers
            && addr in r.heap && r.heap[addr].expiration == when
            && r.heap[addr].delta == Microseconds(interval) && (r.heap[addr].repeat <==> interval > 0.0)
  {
    hide Inv, Run, Insert, Microseconds;
    var e := [CreateTimer(addr, when, interval), AddTimer(addr)];
    CreateKeeps(q, addr, when, interval);
    var c := Create(q, addr, when, interval);
    AddKeeps(c, addr);
    RunPair(q, e[0], e[1]);
    ActiveIsListed(AddTimerInLoop(c, addr), TimerId(addr, q.numCreated + 1));
  }

  lemma {:induction false} RunPair(q: Queue, a: Event, b: Event)
    requires Enabled(q, a) && Enabled(Step(q, a), b)
    ensures Run(q, [a, b]) == Step(Step(q, a), b)
  {
    hide Step, Enabled;
    assert [a, b][1..] == [b] && [b][1..] == [];
    assert Run(Step(Step(q, a), b), []) == Step(Step(q, a), b);
  }

  lemma ActiveIsListed(q: Queue, id: TimerId)
    requires Inv(q) && id in q.active
    ensures id.timer in q.heap && Entry(q.heap[id.timer].expiration, id.timer) in q.timers
  {
  }

  /** Outside `handleRead`, once the clock has passed the first expiration and the 100 microsecond minimum since the
      timerfd was set, the timerfd is readable, so `poll` will call `handleRead`: no timer is ever forgotten. */
  lemma {:induction false} DueTimerIsServed(start: Queue, evs: seq<Event>)
    requires Inv(start)
    ensures var q := Run(start, evs);
            !q.calling && q.timers != [] && q.clock >= q.timers[0].when && q.clock >= q.armedAt + 100 ==>
              Readable(q) && Enabled(q, ReadStart)
  {
    RunKeeps(start, evs);
  }
}
