/** `muduo::net::TimerQueue`: the methods that update the two sets in place. */
module TimerQueues {
  import opened Sequences
  import opened Options
  import opened TimerEntries
  import opened TimerQueueSpec
  import opened TimerQueueProofs

  class TimerQueue {
    // The kernel and the allocator.
    var clock: int
    var deadline: Option<int>
    var armedAt: int
    var heap: map<Address, Timer>
    var numCreated: int
    var pending: set<Address>  // timers whose `addTimerInLoop` is still queued
    // The members.
    var timers: seq<Entry>
    var active: set<TimerId>
    var calling: bool
    var canceling: set<TimerId>
    // History, and a view of the locals of `handleRead`.
    ghost var created: set<int>
    ghost var deleted: seq<int>
    ghost var batch: seq<Entry>
    ghost var batchTime: int

    ghost function Snapshot(): Queue
      reads this
    {
      Queue(clock, deadline, armedAt, heap, numCreated, pending, created, deleted,
            timers, active, calling, canceling, batch, batchTime)
    }

    constructor (clock: int, numCreated: nat)
      requires clock > 0
      ensures Inv(Snapshot()) && timers == [] && !calling
    {
      this.clock, deadline, armedAt := clock, None, 0;
      heap, this.numCreated, pending := map[], numCreated, {};
      timers, active, calling, canceling := [], {}, false, {};
      created, deleted, batch, batchTime := {}, [], [], 0;
      new;
      EmptyQueueInv(clock, 0, numCreated);
    }

    /** `addTimer`: `new` may return any free address, one used before included. */
    method AddTimer(addr: Address, when: int, interval: real) returns (id: TimerId)
      requires addr !in heap
      modifies this
      ensures Snapshot() == Create(old(Snapshot()), addr, when, interval)
      ensures id == TimerId(addr, old(numCreated) + 1)
    {
      numCreated := numCreated + 1;
      heap := heap[addr := Timer(when, Microseconds(interval), interval > 0.0, numCreated)];
      pending := pending + {addr};
      created := created + {numCreated};
      id := TimerId(addr, numCreated);
    }

    method ResetTimerfd(expiration: int)
      modifies this`deadline, this`armedAt
      ensures Snapshot() == Arm(old(Snapshot()), expiration) && armedAt == clock
      ensures deadline.Some? && clock + 100 <= deadline.value
              && (deadline.value == expiration || deadline.value == clock + 100)
      ensures expiration <= deadline.value
    {
      var microseconds := expiration - clock;
      if microseconds < 100 {
        microseconds := 100;
      }
      deadline := Some(clock + microseconds);
      armedAt := clock;
    }

    method InsertTimer(addr: Address) returns (earliestChanged: bool)
      requires SameTimers(Snapshot()) && addr in heap && TimerIdOf(Snapshot(), addr) !in active
      modifies this`timers, this`active
      ensures Snapshot() == TimerQueueSpec.InsertTimer(old(Snapshot()), addr)
      ensures SameTimers(Snapshot())
      ensures earliestChanged == EarliestChanges(old(Snapshot()), heap[addr].expiration)
    {
      SizesAgree(Snapshot());
      assert |timers| == |active|;
      InsertKeeps(Snapshot(), addr);
      earliestChanged := false;
      var when := heap[addr].expiration;
      if timers == [] || when < timers[0].when {
        earliestChanged := true;
      }
      assert Entry(when, addr) !in timers;
      timers := Insert(timers, Entry(when, addr));
      active := active + {TimerId(addr, heap[addr].sequence)};
      SizesAgree(Snapshot());
      assert |timers| == |active|;
    }

    method AddTimerInLoop(addr: Address)
      requires Inv(Snapshot()) && addr in pending
      modifies this
      ensures addr in old(heap) && Snapshot() == TimerQueueSpec.AddTimerInLoop(old(Snapshot()), addr)
      ensures Inv(Snapshot())
    {
      hide SameTimers, OnePlace, Accounted, Timely, Insert;
      PendingIsInactive(Snapshot(), addr);
      AddKeeps(Snapshot(), addr);
      var earliestChanged := InsertTimer(addr);
      pending := pending - {addr};
      if earliestChanged {
        ResetTimerfd(heap[addr].expiration);
      }
    }

    static lemma PendingIsInactive(q: Queue, addr: Address)
      requires OnePlace(q) && addr in q.pending
      ensures addr in q.heap && TimerIdOf(q, addr) !in q.active
    {
    }

    method CancelInLoop(id: TimerId)
      requires Inv(Snapshot())
      modifies this
      ensures Enabled(old(Snapshot()), Cancel(id))
      ensures Snapshot() == TimerQueueSpec.CancelInLoop(old(Snapshot()), id)
      ensures Inv(Snapshot())
    {
      hide SameTimers, OnePlace, Accounted, Timely, Erase;
      NothingRefused(Snapshot(), id);
      CancelKeeps(Snapshot(), id);
      SizesAgree(Snapshot());
      assert |timers| == |active|;
      if id in active {
        ActiveEntry(Snapshot(), id);
        var e := Entry(heap[id.timer].expiration, id.timer);
        assert e in timers;
        timers := Erase(timers, e);
        deleted := deleted + [heap[id.timer].sequence];
        heap := heap - {id.timer};
        active := active - {id};
      } else if calling {
        canceling := canceling + {id};
      }
      SizesAgree(Snapshot());
      assert |timers| == |active|;
    }

    static lemma ActiveEntry(q: Queue, id: TimerId)
      requires SameTimers(q) && id in q.active
      ensures id.timer in q.heap && Entry(q.heap[id.timer].expiration, id.timer) in q.timers
    {
    }

    method GetExpired(now: int) returns (expired: seq<Entry>)
      requires Structure(Snapshot()) && batchTime == now && batch == []
      modifies this`timers, this`active, this`batch
      ensures Snapshot() == TimerQueueSpec.GetExpired(old(Snapshot()))
      ensures expired == batch
    {
      hide SameTimers, OnePlace, Accounted, IdsOf, LowerBound, Ordered;
      ghost var q := Snapshot();
      SizesAgree(q);
      assert |timers| == |active|;
      ExpiredExact(q);
      var end := LowerBound(timers, Entry(now, UINTPTR_MAX));
      assert end == |timers| || now < timers[end].when by {
        assert end < |timers| ==> timers[end] in timers[end..];
      }
      expired := timers[..end];
      timers := timers[end..];
      var i := 0;
      NoIds(heap);
      assert expired[..0] == [];
      while i < |expired|
        invariant 0 <= i <= |expired|
        invariant active == q.active - IdsOf(heap, expired[..i])
        invariant batch == [] && timers == q.timers[end..]
      {
        EraseOne(q, end, i);
        assert TimerId(expired[i].timer, heap[expired[i].timer].sequence) in active;
        active := active - {TimerId(expired[i].timer, heap[expired[i].timer].sequence)};
        i := i + 1;
      }
      assert expired[..i] == expired;
      batch := expired;
      ExpiredSameTimers(q, end);
      SizesAgree(q.(timers := timers, active := active));
      assert |timers| == |active|;
    }

    static lemma NoIds(heap: map<Address, Timer>)
      ensures IdsOf(heap, []) == {}
    {
    }

    /** Each erase from `activeTimers_` finds its element. */
    static lemma EraseOne(q: Queue, end: nat, i: nat)
      requires SameTimers(q) && end <= |q.timers| && i < end
      ensures q.timers[i].timer in q.heap
      ensures TimerIdOf(q, q.timers[i].timer) in q.active - IdsOf(q.heap, q.timers[..end][..i])
      ensures IdsOf(q.heap, q.timers[..end][..i + 1])
              == IdsOf(q.heap, q.timers[..end][..i]) + {TimerIdOf(q, q.timers[i].timer)}
    {
      var es := q.timers[..end];
      assert q.timers[i] in q.timers;
      assert es[..i + 1] == es[..i] + [q.timers[i]];
      forall x | x in es[..i] ensures x.timer != q.timers[i].timer {
        var j :| 0 <= j < i && x == q.timers[j];
        EntriesDistinct(q, j, i);
      }
    }

    static lemma FirstEntry(q: Queue)
      requires SameTimers(q) && q.timers != []
      ensures q.timers[0].timer in q.heap && q.heap[q.timers[0].timer].expiration == q.timers[0].when
    {
      assert q.timers[0] in q.timers;
    }

    static lemma StructureResettable(q: Queue)
      requires Structure(q)
      ensures Resettable(q)
    {
    }

    /** The body of the loop in `reset`. */
    method ResetTimer(addr: Address, now: int)
      requires Structure(Snapshot()) && batch != [] && batch[0].timer == addr && batchTime == now
      modifies this
      ensures Resettable(old(Snapshot())) && Snapshot() == ResetOne(old(Snapshot()))
      ensures Structure(Snapshot())
    {
      hide SameTimers, OnePlace, Accounted, Insert;
      ghost var s := Snapshot();
      BatchFacts(s);
      ResetOneKeeps(s);
      var id := TimerId(addr, heap[addr].sequence);
      batch := batch[1..];
      if heap[addr].repeat && id !in canceling {
        heap := heap[addr := heap[addr].(expiration := now + heap[addr].delta)];
        SameTimersFields(s, s.(expired := batch));
        RestartSameTimers(s.(expired := batch), addr, now + s.heap[addr].delta);
        var earliestChanged := InsertTimer(addr);
      } else {
        deleted := deleted + [heap[addr].sequence];
        heap := heap - {addr};
      }
    }

    method Reset(expired: seq<Entry>, now: int)
      requires Structure(Snapshot()) && DeltasNonNegative(Snapshot())
      requires batch == expired && batchTime == now
      modifies this
      ensures Resettable(old(Snapshot()))
      ensures var r := ResetAll(old(Snapshot()));
              Snapshot() == if r.timers != [] && r.timers[0].when > 0 then Arm(r, r.timers[0].when) else r
    {
      hide SameTimers, OnePlace, Accounted;
      StructureResettable(Snapshot());
      ghost var q := Snapshot();
      var i := 0;
      while i < |expired|
        invariant 0 <= i <= |expired| && batch == expired[i..]
        invariant Structure(Snapshot()) && batchTime == now && Resettable(Snapshot())
        invariant ResetAll(Snapshot()) == ResetAll(q)
      {
        ResetTimer(expired[i].timer, now);
        i := i + 1;
      }
      var nextExpire := 0;
      if timers != [] {
        FirstEntry(Snapshot());
        nextExpire := heap[timers[0].timer].expiration;
      }
      if nextExpire > 0 {
        ResetTimerfd(nextExpire);
      }
    }

    /** What a callback, or another thread meanwhile, may do. */
    method Perform(ev: Event)
      requires Inv(Snapshot()) && !ev.ReadStart? && !ev.ReadEnd?
      modifies this
      ensures Snapshot() == if Enabled(old(Snapshot()), ev) then Step(old(Snapshot()), ev) else old(Snapshot())
      ensures Inv(Snapshot())
    {
      if Enabled(Snapshot(), ev) {
        StepKeeps(Snapshot(), ev);
      }
      match ev {
        case Tick(d) => clock := clock + d;
        case ForeignCreate => numCreated := numCreated + 1;
        case CreateTimer(addr, when, interval) =>
          if addr !in heap && addr < UINTPTR_MAX {
            var _ := AddTimer(addr, when, interval);
          }
        case AddTimer(addr) =>
          if addr in pending && addr in heap {
            AddTimerInLoop(addr);
          }
        case Cancel(id) => CancelInLoop(id);
        case _ =>
      }
    }

    /** `Timer::run` of one timer of the batch. */
    method RunCallback(evs: seq<Event>)
      requires Inv(Snapshot()) && calling
      requires forall k :: 0 <= k < |evs| ==> !evs[k].ReadStart? && !evs[k].ReadEnd?
      modifies this
      ensures Inv(Snapshot()) && calling && batch == old(batch) && batchTime == old(batchTime)
      ensures Snapshot() == Run(old(Snapshot()), evs)
    {
      hide Inv, Step, Enabled;
      ghost var s := Snapshot();
      var k := 0;
      assert evs[..0] == [];
      while k < |evs|
        invariant 0 <= k <= |evs|
        invariant Inv(Snapshot()) && calling && batch == old(batch) && batchTime == old(batchTime)
        invariant Snapshot() == Run(s, evs[..k])
      {
        RunSnoc(s, evs[..k], evs[k]);
        assert evs[..k + 1] == evs[..k] + [evs[k]];
        if Enabled(Snapshot(), evs[k]) {
          CallbackLeavesBatch(Snapshot(), evs[k]);
        }
        Perform(evs[k]);
        k := k + 1;
      }
      assert evs[..k] == evs;
    }

    static lemma CallbackLeavesBatch(q: Queue, ev: Event)
      requires Inv(q) && q.calling && Enabled(q, ev) && !ev.ReadStart? && !ev.ReadEnd?
      ensures var r := Step(q, ev); r.calling && r.expired == q.expired && r.now == q.now
    {
      hide Insert, Erase;
    }

    static lemma ClockIrrelevant(q: Queue, now: int)
      requires Structure(q)
      ensures Structure(q.(now := now, deadline := if Readable(q) then None else q.deadline))
    {
      var p := q.(now := now, deadline := if Readable(q) then None else q.deadline);
      SameTimersFields(q, p);
      SamePlaces(q, p);
      SameAccount(q, p);
    }

    static lemma BatchIsOver(q: Queue)
      requires Inv(q) && q.calling
      ensures Resettable(q) && !EndRead(q).calling
    {
      hide SameTimers, OnePlace, Accounted;
      CallbacksDone(q);
      ResetAllKeeps(q.(calling := false));
      EndReadFields(q);
    }

    /** `handleRead` up to the callbacks. */
    method BeginBatch() returns (expired: seq<Entry>)
      requires Inv(Snapshot()) && Enabled(Snapshot(), ReadStart)
      modifies this
      ensures Snapshot() == BeginRead(old(Snapshot())) && Inv(Snapshot()) && calling
      ensures expired == batch && batchTime == clock
    {
      hide SameTimers, OnePlace, Accounted, Timely, IdsOf, LowerBound;
      BeginReadKeeps(Snapshot());
      var now := clock;
      if deadline.Some? && deadline.value <= now {
        deadline := None;
      }
      batchTime := now;
      ClockIrrelevant(old(Snapshot()), now);
      expired := GetExpired(now);
      calling := true;
      canceling := {};
    }

    /** `handleRead`, for any behaviour of the callbacks: `callbacks[i]` is what happens while the i-th one runs. */
    method HandleRead(callbacks: seq<seq<Event>>)
      requires Inv(Snapshot()) && Enabled(Snapshot(), ReadStart)
      requires |callbacks| == |BeginRead(Snapshot()).expired|
      requires forall i, k :: 0 <= i < |callbacks| && 0 <= k < |callbacks[i]| ==>
                 !callbacks[i][k].ReadStart? && !callbacks[i][k].ReadEnd?
      modifies this
      ensures Resettable(Run(BeginRead(old(Snapshot())), Concat(callbacks)))
      ensures Snapshot() == EndRead(Run(BeginRead(old(Snapshot())), Concat(callbacks)))
      ensures Inv(Snapshot()) && !calling
    {
      hide SameTimers, OnePlace, Accounted, Timely, IdsOf, LowerBound, Run, ResetAll;
      ghost var start := BeginRead(Snapshot());
      var now := clock;
      var expired := BeginBatch();
      var i := 0;
      RunNothing(start);
      assert callbacks[..0] == [];
      while i < |expired|
        invariant 0 <= i <= |expired|
        invariant Inv(Snapshot()) && calling && batch == expired && batchTime == now
        invariant Snapshot() == Run(start, Concat(callbacks[..i]))
      {
        RunCallback(callbacks[i]);
        ConcatSnoc(callbacks[..i], callbacks[i]);
        assert callbacks[..i + 1] == callbacks[..i] + [callbacks[i]];
        RunConcat(start, Concat(callbacks[..i]), callbacks[i]);
        i := i + 1;
      }
      assert callbacks[..i] == callbacks;
      ghost var done := Snapshot();
      EndReadKeeps(done);
      CallbacksDone(done);
      EndReadDeltas(done);
      BatchIsOver(done);
      calling := false;
      assert Snapshot() == done.(calling := false);
      Reset(expired, now);
    }
  }

  lemma {:induction false} RunNothing(q: Queue)
    ensures Run(q, Concat([])) == q
  {
  }
}
