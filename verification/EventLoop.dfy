/** The reactor: one loop thread and any number of other threads that queue functors for it. */
module EventLoops {
  import opened Sequences

  type Functor = nat

  /** Where the loop thread is. */
  datatype Phase =
    | Idle                                                     // before the first `loop`
    | Polling
    | Handling(wakeActive: bool)                               // the wakeup channel is still to be handled
    | Swapping                                                 // in `doPendingFunctors`, before the swap
    | Running(functors: seq<Functor>, next: nat, owes: bool)   // owes: between a functor's own push and its wakeup
    | Exited                                                   // `loop` has returned, and may be called again

  datatype Loop = Loop(
    phase: Phase,
    quit: bool,
    calling: bool,            // `callingPendingFunctors_`
    pending: seq<Functor>,
    eventfd: nat,
    wakers: nat,              // other threads between their push (or quit) and their `wakeup`
    // History: what was queued and run, and how many batches had been taken by then.
    queued: seq<Functor>, queuedIn: seq<nat>,
    ran: seq<Functor>, ranIn: seq<nat>,
    batches: nat,
    exits: nat)               // how often `loop` has returned

  const START := Loop(Idle, false, false, [], 0, 0, [], [], [], [], 0, 0)

  /** A counter at its maximum refuses the write, and stays readable. */
  const EVENTFD_MAX: nat := 0xFFFF_FFFF_FFFF_FFFE

  function Wakeup(s: Loop): Loop {
    s.(eventfd := if s.eventfd < EVENTFD_MAX then s.eventfd + 1 else s.eventfd)
  }

  function Push(s: Loop, f: Functor): Loop {
    s.(pending := s.pending + [f], queued := s.queued + [f], queuedIn := s.queuedIn + [s.batches])
  }

  datatype Event =
    | OtherPush(f: Functor)         // `queueInLoop` on another thread, under the mutex
    | OtherQuit                     // `quit` on another thread
    | OtherWakeup                   // the `wakeup` either of them ends with
    | LoopPush(f: Functor)          // `queueInLoop` in a callback or functor of the loop thread
    | LoopWakeup
    | LoopQuit
    | Start                         // entering `loop`
    | PollReturn(wakeActive: bool)  // by timeout, by any event, or by the eventfd
    | ReadWakeup                    // `handleRead`
    | BeginPending                  // `callingPendingFunctors_ = true`
    | Swap
    | RunNext
    | EndPending

  /** The loop's thread is not inside `loop`. */
  predicate Outside(s: Loop) {
    s.phase.Idle? || s.phase.Exited?
  }

  predicate Enabled(s: Loop, ev: Event) {
    match ev
    case OtherPush(_) => true
    case OtherQuit => true
    case OtherWakeup => s.wakers > 0
    case LoopPush(_) => Outside(s) || s.phase.Handling? || (s.phase.Running? && !s.phase.owes)
    case LoopWakeup => s.phase.Running? && s.phase.owes
    case LoopQuit => Outside(s) || s.phase.Handling? || (s.phase.Running? && !s.phase.owes)
    case Start => Outside(s)
    case PollReturn(wakeActive) => s.phase.Polling? && (wakeActive ==> s.eventfd > 0)
    case ReadWakeup => s.phase == Handling(true)
    case BeginPending => s.phase == Handling(false)
    case Swap => s.phase.Swapping?
    case RunNext => s.phase.Running? && !s.phase.owes && s.phase.next < |s.phase.functors|
    case EndPending => s.phase.Running? && !s.phase.owes && s.phase.next == |s.phase.functors|
  }

  function Step(s: Loop, ev: Event): Loop
    requires Enabled(s, ev)
  {
    match ev
    case OtherPush(f) => Push(s, f).(wakers := s.wakers + 1)
    case OtherQuit => s.(quit := true, wakers := s.wakers + 1)
    case OtherWakeup => Wakeup(s).(wakers := s.wakers - 1)
    case LoopPush(f) =>
      if s.calling && s.phase.Running? then Push(s, f).(phase := s.phase.(owes := true)) else Push(s, f)
    case LoopWakeup => Wakeup(s).(phase := s.phase.(owes := false))
    case LoopQuit => s.(quit := true)
    case Start => s.(quit := false, phase := Polling)
    case PollReturn(wakeActive) => s.(phase := Handling(wakeActive))
    case ReadWakeup => s.(eventfd := 0, phase := Handling(false))
    case BeginPending => s.(calling := true, phase := Swapping)
    case Swap => s.(phase := Running(s.pending, 0, false), pending := [], batches := s.batches + 1)
    case RunNext => s.(ran := s.ran + [s.phase.functors[s.phase.next]], ranIn := s.ranIn + [s.batches],
                       phase := s.phase.(next := s.phase.next + 1))
    case EndPending =>
      if s.quit then s.(calling := false, phase := Exited, exits := s.exits + 1)
      else s.(calling := false, phase := Polling)
  }

  /** A run; events that cannot happen are skipped. */
  function Run(s: Loop, evs: seq<Event>): Loop
    decreases |evs|
  {
    if evs == [] then s
    else Run(if Enabled(s, evs[0]) then Step(s, evs[0]) else s, evs[1..])
  }

  // ------------------------------------------------------------------
  // Invariants.

  /** Someone will make `poll` return: the eventfd is readable, or a thread is about to write it. */
  predicate Signalled(s: Loop) {
    s.eventfd > 0 || s.wakers > 0
  }

  predicate NoLostWakeup(s: Loop) {
    && (Outside(s) || s.phase.Polling? ==> s.pending == [] || Signalled(s))
    && (s.phase.Running? ==> s.pending == [] || Signalled(s) || s.phase.owes)
    && (s.phase.Polling? && s.quit ==> Signalled(s))
    && (s.calling <==> s.phase.Swapping? || s.phase.Running?)
  }

  /** The functors taken by the current batch and not yet run. */
  function Taken(s: Loop): seq<Functor> {
    if s.phase.Running? && s.phase.next <= |s.phase.functors| then s.phase.functors[s.phase.next..] else []
  }

  /** Run, taken and pending functors are the queued ones, in order; a functor runs in the first batch taken after
      it was queued. */
  predicate InOrder(s: Loop) {
    && (s.phase.Running? ==> s.phase.next <= |s.phase.functors|)
    && s.queued == s.ran + Taken(s) + s.pending
    && |s.queuedIn| == |s.queued| && |s.ranIn| == |s.ran|
    && (forall k :: 0 <= k < |s.ran| ==> s.ranIn[k] == s.queuedIn[k] + 1)
    && (forall k :: |s.ran| <= k < |s.ran| + |Taken(s)| ==> s.queuedIn[k] + 1 == s.batches)
    && (forall k :: |s.ran| + |Taken(s)| <= k < |s.queued| ==> s.queuedIn[k] == s.batches)
  }

  /** The loop's own thread queues something outside `loop`, and no other thread's wakeup covers it. */
  predicate UnsignalledEarlyPush(s: Loop, ev: Event) {
    Outside(s) && ev.LoopPush? && !Signalled(s)
  }

  /** The one step that can lose a wakeup. */
  lemma StepKeepsWakeup(s: Loop, ev: Event)
    requires NoLostWakeup(s) && Enabled(s, ev)
    ensures NoLostWakeup(Step(s, ev)) <==> !UnsignalledEarlyPush(s, ev)
  {
  }

  lemma PushKeepsOrder(s: Loop, f: Functor, r: Loop)
    requires InOrder(s)
    requires r.ran == s.ran && r.ranIn == s.ranIn && r.batches == s.batches
    requires r.pending == s.pending + [f] && r.queued == s.queued + [f] && r.queuedIn == s.queuedIn + [s.batches]
    requires r.phase == s.phase || (s.phase.Running? && r.phase == s.phase.(owes := true))
    ensures InOrder(r)
  {
    assert Taken(r) == Taken(s);
    assert r.queued == r.ran + Taken(r) + r.pending;
  }

  lemma RunNextKeepsOrder(s: Loop)
    requires InOrder(s) && Enabled(s, RunNext)
    ensures InOrder(Step(s, RunNext))
  {
    var r := Step(s, RunNext);
    assert Taken(s) == [s.phase.functors[s.phase.next]] + Taken(r);
    assert r.ran + Taken(r) == s.ran + Taken(s);
  }

  lemma StepKeepsOrder(s: Loop, ev: Event)
    requires InOrder(s) && Enabled(s, ev)
    ensures InOrder(Step(s, ev))
  {
    var r := Step(s, ev);
    match ev
    case OtherPush(f) => PushKeepsOrder(s, f, r);
    case LoopPush(f) => PushKeepsOrder(s, f, r);
    case RunNext => RunNextKeepsOrder(s);
    case Swap => assert Taken(r) == s.pending;
    case _ => assert Taken(r) == Taken(s);
  }

  /** No step of the run is an early push that nothing covers. */
  predicate NoUnsignalledPush(s: Loop, evs: seq<Event>)
    decreases |evs|
  {
    evs == [] ||
    (!UnsignalledEarlyPush(s, evs[0]) && NoUnsignalledPush(if Enabled(s, evs[0]) then Step(s, evs[0]) else s, evs[1..]))
  }

  lemma {:induction false} RunFirst(s: Loop, evs: seq<Event>, k: nat)
    requires 0 < k <= |evs|
    ensures var r := if Enabled(s, evs[0]) then Step(s, evs[0]) else s;
            Run(s, evs[..k]) == Run(r, evs[1..][..k - 1])
  {
    assert evs[..k][1..] == evs[1..][..k - 1];
  }

  lemma {:induction false} RunKeepsWakeup(s: Loop, evs: seq<Event>, k: nat)
    requires NoLostWakeup(s) && NoUnsignalledPush(s, evs) && k <= |evs|
    ensures NoLostWakeup(Run(s, evs[..k]))
    decreases |evs|
  {
    hide NoLostWakeup, Step, Enabled, UnsignalledEarlyPush;
    if k == 0 {
      assert evs[..k] == [];
    } else {
      RunFirst(s, evs, k);
      if Enabled(s, evs[0]) {
        StepKeepsWakeup(s, evs[0]);
        RunKeepsWakeup(Step(s, evs[0]), evs[1..], k - 1);
      } else {
        RunKeepsWakeup(s, evs[1..], k - 1);
      }
    }
  }

  /** A run with an uncovered early push has a prefix whose wakeup is lost. */
  lemma {:induction false} LostSomewhere(s: Loop, evs: seq<Event>) returns (k: nat)
    requires NoLostWakeup(s) && !NoUnsignalledPush(s, evs)
    ensures k <= |evs| && !NoLostWakeup(Run(s, evs[..k]))
    decreases |evs|
  {
    var r := if Enabled(s, evs[0]) then Step(s, evs[0]) else s;
    if UnsignalledEarlyPush(s, evs[0]) {
      EarlyPushEnabled(s, evs[0]);
      StepKeepsWakeup(s, evs[0]);
      k := 1;
      hide NoLostWakeup, Step, Enabled;
      RunFirst(s, evs, 1);
      assert evs[1..][..0] == [];
    } else {
      hide NoLostWakeup, Step;
      if Enabled(s, evs[0]) {
        StepKeepsWakeup(s, evs[0]);
      }
      var j := LostSomewhere(r, evs[1..]);
      k := j + 1;
      RunFirst(s, evs, k);
    }
  }

  lemma EarlyPushEnabled(s: Loop, ev: Event)
    requires UnsignalledEarlyPush(s, ev)
    ensures Enabled(s, ev)
  {
  }

  lemma {:induction false} RunKeepsOrder(s: Loop, evs: seq<Event>)
    requires InOrder(s)
    ensures InOrder(Run(s, evs))
    decreases |evs|
  {
    hide InOrder, Step, Enabled;
    if evs != [] {
      if Enabled(s, evs[0]) {
        StepKeepsOrder(s, evs[0]);
        RunKeepsOrder(Step(s, evs[0]), evs[1..]);
      } else {
        RunKeepsOrder(s, evs[1..]);
      }
    }
  }

  // ------------------------------------------------------------------
  // Main results.

  /** No wakeup is lost at any point of a run if and only if every functor that the loop's own thread queues before
      `loop` is covered by another thread's wakeup. */
  lemma {:induction false} WakeupKeptExactly(evs: seq<Event>)
    ensures (forall k :: 0 <= k <= |evs| ==> NoLostWakeup(Run(START, evs[..k]))) <==> NoUnsignalledPush(START, evs)
  {
    hide NoLostWakeup, Run;
    StartIsAwake();
    if NoUnsignalledPush(START, evs) {
      forall k | 0 <= k <= |evs| ensures NoLostWakeup(Run(START, evs[..k])) {
        RunKeepsWakeup(START, evs, k);
      }
    } else {
      var k := LostSomewhere(START, evs);
    }
  }

  lemma StartIsAwake()
    ensures NoLostWakeup(START)
  {
  }

  /** In `poll` with something to do, and nothing that makes it return. */
  predicate Asleep(s: Loop) {
    s.phase.Polling? && (s.pending != [] || s.quit) && !Signalled(s)
  }

  /** All other parts of the invariant; it says nothing of what was queued before `loop`. */
  predicate Attentive(s: Loop) {
    && !Asleep(s)
    && (s.phase.Running? ==> s.pending == [] || Signalled(s) || s.phase.owes)
    && (s.calling <==> s.phase.Swapping? || s.phase.Running?)
  }

  /** `loop` is entered with a functor queued that no wakeup covers. */
  predicate SleepyStart(s: Loop, ev: Event) {
    Outside(s) && ev.Start? && s.pending != [] && !Signalled(s)
  }

  lemma StepAttentive(s: Loop, ev: Event)
    requires Attentive(s) && Enabled(s, ev)
    ensures Attentive(Step(s, ev)) <==> !SleepyStart(s, ev)
    ensures SleepyStart(s, ev) ==> Asleep(Step(s, ev))
  {
  }

  predicate NoSleepyStart(s: Loop, evs: seq<Event>)
    decreases |evs|
  {
    evs == [] ||
    (!SleepyStart(s, evs[0]) && NoSleepyStart(if Enabled(s, evs[0]) then Step(s, evs[0]) else s, evs[1..]))
  }

  lemma {:induction false} RunAttentive(s: Loop, evs: seq<Event>, k: nat)
    requires Attentive(s) && NoSleepyStart(s, evs) && k <= |evs|
    ensures Attentive(Run(s, evs[..k]))
    decreases |evs|
  {
    hide Attentive, Step, Enabled, SleepyStart;
    if k == 0 {
      assert evs[..k] == [];
    } else {
      RunFirst(s, evs, k);
      if Enabled(s, evs[0]) {
        StepAttentive(s, evs[0]);
        RunAttentive(Step(s, evs[0]), evs[1..], k - 1);
      } else {
        RunAttentive(s, evs[1..], k - 1);
      }
    }
  }

  lemma {:induction false} AsleepSomewhere(s: Loop, evs: seq<Event>) returns (k: nat)
    requires Attentive(s) && !NoSleepyStart(s, evs)
    ensures k <= |evs| && Asleep(Run(s, evs[..k]))
    decreases |evs|
  {
    var r := if Enabled(s, evs[0]) then Step(s, evs[0]) else s;
    if SleepyStart(s, evs[0]) {
      assert Enabled(s, evs[0]);
      StepAttentive(s, evs[0]);
      k := 1;
      hide Asleep, Step, Enabled;
      RunFirst(s, evs, 1);
      assert evs[1..][..0] == [];
    } else {
      hide Attentive, Step;
      if Enabled(s, evs[0]) {
        StepAttentive(s, evs[0]);
      }
      var j := AsleepSomewhere(r, evs[1..]);
      k := j + 1;
      RunFirst(s, evs, k);
    }
  }

  /** At no point of a run does the loop sleep over a functor or a quit, if and only if it is not entered with a
      functor queued that no wakeup covers. */
  lemma {:induction false} NeverAsleepExactly(evs: seq<Event>)
    ensures (forall k :: 0 <= k <= |evs| ==> !Asleep(Run(START, evs[..k]))) <==> NoSleepyStart(START, evs)
  {
    assert Attentive(START);
    hide Attentive, Run, Asleep;
    if NoSleepyStart(START, evs) {
      forall k | 0 <= k <= |evs| ensures !Asleep(Run(START, evs[..k])) {
        RunAttentive(START, evs, k);
        AttentiveAwake(Run(START, evs[..k]));
      }
    } else {
      var k := AsleepSomewhere(START, evs);
    }
  }

  lemma AttentiveAwake(s: Loop)
    requires Attentive(s)
    ensures !Asleep(s)
  {
  }

  /** In such runs, whenever the loop is in `poll` with a functor queued or a quit requested, a wakeup is there or
      on its way; and once no thread is about to write, the eventfd itself is readable. */
  lemma {:induction false} WakeupIsNeverLost(evs: seq<Event>)
    requires NoSleepyStart(START, evs)
    ensures var s := Run(START, evs);
            s.phase.Polling? && (s.pending != [] || s.quit) ==>
              Signalled(s) && (s.wakers == 0 ==> Enabled(s, PollReturn(true)))
  {
    RunAttentive(START, evs, |evs|);
    assert evs[..|evs|] == evs;
  }

  /** The smallest such run: one functor queued by the loop's thread, then `loop`. */
  lemma EarlyPushSleeps(f: Functor)
    ensures var s := Run(START, [LoopPush(f), Start]); Asleep(s) && s.pending == [f]
  {
    var e := [LoopPush(f), Start];
    var a := Step(START, e[0]);
    var b := Step(a, e[1]);
    assert e[1..][0] == e[1];
    assert Run(b, e[1..][1..]) == b;
    assert Run(a, e[1..]) == b;
  }

  /** Inside `loop`, a quit stays until the loop has returned, and no iteration begins before. */
  lemma QuitStep(s: Loop, ev: Event)
    requires s.quit && !Outside(s) && Enabled(s, ev)
    ensures var r := Step(s, ev);
            && r.exits >= s.exits && (r.exits == s.exits <==> !Outside(r))
            && (r.exits == s.exits ==> r.quit && (s.phase.Polling? || !r.phase.Polling?))
            && (ev.EndPending? ==> r.phase.Exited?)
  {
  }

  lemma {:induction false} ExitsGrow(s: Loop, evs: seq<Event>)
    ensures Run(s, evs).exits >= s.exits
    decreases |evs|
  {
    if evs != [] {
      ExitsGrow(if Enabled(s, evs[0]) then Step(s, evs[0]) else s, evs[1..]);
    }
  }

  lemma {:induction false} QuitRun(s: Loop, evs: seq<Event>)
    requires s.quit && !Outside(s) && Run(s, evs).exits == s.exits
    ensures Run(s, evs).quit && !Outside(Run(s, evs))
    ensures !s.phase.Polling? ==> !Run(s, evs).phase.Polling?
    decreases |evs|
  {
    hide Step, Outside;
    if evs != [] {
      if Enabled(s, evs[0]) {
        var r := Step(s, evs[0]);
        QuitStep(s, evs[0]);
        ExitsGrow(r, evs[1..]);
        QuitRun(r, evs[1..]);
      } else {
        QuitRun(s, evs[1..]);
      }
    }
  }

  lemma StartForgets(s: Loop) returns (evs: seq<Event>)
    requires Outside(s)
    ensures var r := Run(s, evs); !r.quit && r.phase.Polling? && r.exits == s.exits
  {
    evs := [Start];
    var r := Step(s, evs[0]);
    assert Run(r, evs[1..]) == r;
  }

  /** `quit`, on the loop's thread or on another one. */
  predicate IsQuit(ev: Event) {
    ev.LoopQuit? || ev.OtherQuit?
  }

  lemma QuitRequests(s: Loop, ev: Event)
    requires IsQuit(ev) && Enabled(s, ev)
    ensures var r := Step(s, ev); r.quit && r.phase == s.phase && r.exits == s.exits && (Outside(r) <==> Outside(s))
  {
  }

  /** A call of `quit` is remembered, in every continuation, until the loop has returned once more, if and only if the
      loop's thread is inside `loop` when it is made: calling `loop`, for the first time or again, forgets it. */
  lemma {:induction false} QuitExact(s: Loop, ev: Event)
    requires IsQuit(ev) && Enabled(s, ev)
    ensures var q := Step(s, ev);
            (forall evs :: Run(q, evs).exits == s.exits ==> Run(q, evs).quit) <==> !Outside(s)
  {
    QuitRequests(s, ev);
    var q := Step(s, ev);
    if Outside(s) {
      var evs := StartForgets(q);
      assert Run(q, evs).exits == s.exits && !Run(q, evs).quit;
    } else {
      forall evs | Run(q, evs).exits == s.exits ensures Run(q, evs).quit {
        QuitRun(q, evs);
      }
    }
  }

  /** The forgotten quit is reachable, before the first `loop` and after it has returned. */
  lemma EarlyQuitIsForgotten()
    ensures var s := Run(START, [OtherQuit, Start]); s.phase.Polling? && !s.quit
  {
    var e := [OtherQuit, Start];
    var a := Step(START, e[0]);
    var b := Step(a, e[1]);
    assert e[1..][0] == e[1];
    assert Run(b, e[1..][1..]) == b;
    assert Run(a, e[1..]) == b;
  }

  /** After any return of `loop`, a quit before it is called again is forgotten too; and `loop` can return. */
  lemma {:induction false} LateQuitIsForgotten(s: Loop)
    requires s.phase.Exited?
    ensures var r := Run(s, [OtherQuit, Start]); r.phase.Polling? && !r.quit && r.exits == s.exits
  {
    var e := [OtherQuit, Start];
    var a := Step(s, e[0]);
    var b := Step(a, e[1]);
    assert e[1..][0] == e[1];
    assert Run(b, e[1..][1..]) == b;
    assert Run(a, e[1..]) == b;
  }

  lemma LoopReturns()
    ensures var s := Run(START, [Start, OtherQuit, PollReturn(false), BeginPending, Swap, EndPending]);
            s.phase.Exited? && s.exits == 1
  {
    var e := [Start, OtherQuit, PollReturn(false), BeginPending, Swap, EndPending];
    var s3 := Step(Step(Step(START, Start), OtherQuit), PollReturn(false));
    var s6 := Step(Step(Step(s3, BeginPending), Swap), EndPending);
    RunThree(START, Start, OtherQuit, PollReturn(false), [BeginPending, Swap, EndPending]);
    RunThree(s3, BeginPending, Swap, EndPending, []);
    assert e == [Start, OtherQuit, PollReturn(false)] + [BeginPending, Swap, EndPending];
    assert [BeginPending, Swap, EndPending] + [] == [BeginPending, Swap, EndPending];
    assert Run(s6, []) == s6;
    assert Run(START, e) == s6;
  }

  lemma {:induction false} RunThree(s: Loop, a: Event, b: Event, c: Event, rest: seq<Event>)
    requires Enabled(s, a) && Enabled(Step(s, a), b) && Enabled(Step(Step(s, a), b), c)
    ensures Run(s, [a, b, c] + rest) == Run(Step(Step(Step(s, a), b), c), rest)
  {
    hide Step, Enabled, Run;
    RunOne(s, a, [b, c] + rest);
    RunOne(Step(s, a), b, [c] + rest);
    RunOne(Step(Step(s, a), b), c, rest);
    assert [a, b, c] + rest == [a] + ([b, c] + rest) && [b, c] + rest == [b] + ([c] + rest);
  }

  lemma {:induction false} RunOne(s: Loop, ev: Event, rest: seq<Event>)
    requires Enabled(s, ev)
    ensures Run(s, [ev] + rest) == Run(Step(s, ev), rest)
  {
    hide Step, Enabled;
    assert ([ev] + rest)[1..] == rest;
  }

  /** A call of `quit` inside `loop` ends the iteration in progress: whatever happens, the end of the batch is the
      return of `loop`, and until then `poll` is not called again. */
  lemma {:induction false} QuitEndsIteration(s: Loop, ev: Event, evs: seq<Event>)
    requires IsQuit(ev) && Enabled(s, ev) && !Outside(s)
    ensures var r := Run(Step(s, ev), evs);
            r.exits == s.exits ==>
              && (Enabled(r, EndPending) ==> Step(r, EndPending).phase.Exited?)
              && (!s.phase.Polling? ==> !r.phase.Polling?)
  {
    QuitRequests(s, ev);
    if Run(Step(s, ev), evs).exits == s.exits {
      QuitRun(Step(s, ev), evs);
    }
  }

  /** The loop returns only at the end of a batch, and only if some call of `quit` has asked for it since `loop` was
      called. */
  lemma ExitExact(s: Loop, ev: Event)
    requires Enabled(s, ev)
    ensures Step(s, ev).exits > s.exits <==> ev.EndPending? && s.quit
    ensures Step(s, ev).quit <==> IsQuit(ev) || (s.quit && !ev.Start?)
  {
  }

  /** Other threads may always queue and quit; the loop's own thread may whenever its code is outside `loop`, in a
      callback or in a functor. */
  lemma AlwaysPossible(s: Loop, f: Functor)
    ensures Enabled(s, OtherPush(f)) && Enabled(s, OtherQuit) && (s.wakers > 0 ==> Enabled(s, OtherWakeup))
    ensures Outside(s) || s.phase.Handling? || (s.phase.Running? && !s.phase.owes) ==>
              Enabled(s, LoopPush(f)) && Enabled(s, LoopQuit)
  {
  }

  // ------------------------------------------------------------------
  // One whole iteration.

  function Repeat(n: nat): seq<Event> {
    if n == 0 then [] else [RunNext] + Repeat(n - 1)
  }

  /** What the loop's thread does from one `poll` to the next, when `n` functors are pending. */
  function Iteration(wakeActive: bool, n: nat): seq<Event> {
    [PollReturn(wakeActive)] + (if wakeActive then [ReadWakeup] else []) + [BeginPending, Swap] + Repeat(n)
    + [EndPending]
  }

  lemma {:induction false} RunParts(s: Loop, a: seq<Event>, b: seq<Event>)
    ensures Run(s, a + b) == Run(Run(s, a), b)
    decreases |a|
  {
    hide Step, Enabled;
    if a == [] {
      assert a + b == b;
    } else {
      assert (a + b)[1..] == a[1..] + b;
      RunParts(if Enabled(s, a[0]) then Step(s, a[0]) else s, a[1..], b);
    }
  }

  lemma {:induction false} RunAll(s: Loop, n: nat)
    requires s.phase.Running? && !s.phase.owes && s.phase.next + n == |s.phase.functors|
    ensures var r := Run(s, Repeat(n));
            && r.phase == Running(s.phase.functors, s.phase.next + n, false)
            && r.ran == s.ran + s.phase.functors[s.phase.next..]
            && r == s.(phase := r.phase, ran := r.ran, ranIn := r.ranIn)
    decreases n
  {
    if n > 0 {
      var r := Step(s, RunNext);
      assert Repeat(n)[0] == RunNext && Repeat(n)[1..] == Repeat(n - 1);
      RunAll(r, n - 1);
      assert s.phase.functors[s.phase.next..] == [s.phase.functors[s.phase.next]] + r.phase.functors[r.phase.next..];
    } else {
      assert s.phase.functors[s.phase.next..] == [];
    }
  }

  lemma {:induction false} UpToBatch(s: Loop, wakeActive: bool)
    requires s.phase.Polling? && (wakeActive ==> s.eventfd > 0)
    ensures Run(s, [PollReturn(wakeActive)] + (if wakeActive then [ReadWakeup] else []) + [BeginPending, Swap])
            == s.(phase := Running(s.pending, 0, false), pending := [], calling := true, batches := s.batches + 1,
                  eventfd := if wakeActive then 0 else s.eventfd)
  {
    var a := Step(s, PollReturn(wakeActive));
    RunOne(s, PollReturn(wakeActive), (if wakeActive then [ReadWakeup] else []) + [BeginPending, Swap]);
    assert [PollReturn(wakeActive)] + (if wakeActive then [ReadWakeup] else []) + [BeginPending, Swap]
        == [PollReturn(wakeActive)] + ((if wakeActive then [ReadWakeup] else []) + [BeginPending, Swap]);
    var b := if wakeActive then Step(a, ReadWakeup) else a;
    if wakeActive {
      RunOne(a, ReadWakeup, [BeginPending, Swap]);
    } else {
      assert [] + [BeginPending, Swap] == [BeginPending, Swap];
    }
    RunOne(b, BeginPending, [Swap]);
    RunOne(Step(b, BeginPending), Swap, []);
    assert [BeginPending] + [Swap] == [BeginPending, Swap] && [Swap] + [] == [Swap];
  }

  /** From one `poll` to the next, when nothing else happens: every pending functor runs, in order, a wakeup is
      consumed, and the loop polls again unless a quit was requested. */
  lemma {:induction false} WholeIteration(s: Loop, wakeActive: bool)
    requires s.phase.Polling? && (wakeActive ==> s.eventfd > 0)
    ensures var r := Run(s, Iteration(wakeActive, |s.pending|));
            && r.ran == s.ran + s.pending && r.pending == [] && r.eventfd == (if wakeActive then 0 else s.eventfd)
            && r.phase == (if s.quit then Exited else Polling) && !r.calling
            && r.quit == s.quit && r.wakers == s.wakers && r.queued == s.queued
  {
    var prefix := [PollReturn(wakeActive)] + (if wakeActive then [ReadWakeup] else []) + [BeginPending, Swap];
    var n := |s.pending|;
    RunParts(s, prefix + Repeat(n), [EndPending]);
    RunParts(s, prefix, Repeat(n));
    UpToBatch(s, wakeActive);
    var b := Run(s, prefix);
    RunAll(b, n);
    RunOne(Run(b, Repeat(n)), EndPending, []);
    assert [EndPending] + [] == [EndPending];
  }

  /** The functors a run queues, on any thread. */
  function PushedIn(s: Loop, evs: seq<Event>): seq<Functor>
    decreases |evs|
  {
    if evs == [] then []
    else if !Enabled(s, evs[0]) then PushedIn(s, evs[1..])
    else (if evs[0].OtherPush? || evs[0].LoopPush? then [evs[0].f] else []) + PushedIn(Step(s, evs[0]), evs[1..])
  }

  lemma {:induction false} QueuedIsPushed(s: Loop, evs: seq<Event>)
    ensures Run(s, evs).queued == s.queued + PushedIn(s, evs)
    decreases |evs|
  {
    hide Enabled;
    if evs != [] {
      QueuedIsPushed(if Enabled(s, evs[0]) then Step(s, evs[0]) else s, evs[1..]);
    }
  }

  lemma StartInOrder()
    ensures InOrder(START) && START.queued == []
  {
  }

  /** Functors run once each and in the order they were queued: what has run is a prefix of what was queued, and the
      k-th functor runs in exactly the first batch taken after it was queued.  So one queued while a batch runs
      waits for the next batch. */
  lemma {:induction false} FunctorsRunInOrder(evs: seq<Event>)
    ensures var s := Run(START, evs);
            && s.ran <= s.queued && |s.ranIn| == |s.ran| && |s.queuedIn| == |s.queued|
            && (forall k :: 0 <= k < |s.ran| ==> s.ranIn[k] == s.queuedIn[k] + 1)
            && (s.phase.Polling? ==> s.ran + s.pending == s.queued)
            && s.queued == PushedIn(START, evs)
  {
    hide Run, PushedIn;
    StartInOrder();
    RunKeepsOrder(START, evs);
    QueuedIsPushed(START, evs);
    assert START.queued + PushedIn(START, evs) == PushedIn(START, evs);
  }

  // ------------------------------------------------------------------
  // The loop thread's own code.

  /** What is queued while a functor runs: by the functor itself, or by another thread. */
  datatype Queued = Own(f: Functor) | Other(f: Functor)

  function Functors(queue: seq<Queued>): seq<Functor> {
    seq(|queue|, i requires 0 <= i < |queue| => queue[i].f)
  }

  function AllFunctors(queues: seq<seq<Queued>>): seq<seq<Functor>> {
    seq(|queues|, i requires 0 <= i < |queues| => Functors(queues[i]))
  }

  lemma MoreQueued(queues: seq<seq<Queued>>, i: nat)
    requires i < |queues|
    ensures Concat(AllFunctors(queues[..i + 1])) == Concat(AllFunctors(queues[..i])) + Functors(queues[i])
  {
    hide Concat;
    assert AllFunctors(queues[..i + 1]) == AllFunctors(queues[..i]) + [Functors(queues[i])];
    ConcatSnoc(AllFunctors(queues[..i]), Functors(queues[i]));
  }

  lemma NoFunctors()
    ensures Functors([]) == []
  {
  }

  lemma OneMoreFunctor(fs: seq<Queued>, k: nat)
    requires k < |fs|
    ensures Functors(fs[..k + 1]) == Functors(fs[..k]) + [fs[k].f]
  {
  }

  lemma NothingQueued()
    ensures Concat(AllFunctors([])) == []
  {
  }

  class EventLoop {
    var pendingFunctors: seq<Functor>
    var callingPendingFunctors: bool
    var quit: bool
    var eventfd: nat
    // What the step system records besides the members.
    ghost var phase: Phase
    ghost var wakers: nat
    ghost var queued: seq<Functor>
    ghost var queuedIn: seq<nat>
    ghost var ran: seq<Functor>
    ghost var ranIn: seq<nat>
    ghost var batches: nat
    ghost var exits: nat

    ghost function Snapshot(): Loop
      reads this
    {
      Loop(phase, quit, callingPendingFunctors, pendingFunctors, eventfd, wakers, queued, queuedIn, ran, ranIn, batches,
           exits)
    }

    constructor ()
      ensures Snapshot() == START
    {
      pendingFunctors, callingPendingFunctors, quit, eventfd := [], false, false, 0;
      phase, wakers, queued, queuedIn, ran, ranIn, batches, exits := Idle, 0, [], [], [], [], 0, 0;
    }

    method WriteEventfd()
      modifies this`eventfd
      ensures Snapshot() == Wakeup(old(Snapshot()))
    {
      if eventfd < EVENTFD_MAX {
        eventfd := eventfd + 1;
      }
    }

    /** The eventfd is drained before the functors are taken, so what was queued by then is in the coming batch, and
        what is queued later finds it written again. */
    method HandleRead()
      requires Enabled(Snapshot(), ReadWakeup) && NoLostWakeup(Snapshot()) && InOrder(Snapshot())
      modifies this`eventfd, this`phase
      ensures Snapshot() == Step(old(Snapshot()), ReadWakeup)
      ensures eventfd == 0 && Enabled(Snapshot(), BeginPending) && NoLostWakeup(Snapshot()) && InOrder(Snapshot())
    {
      StepKeepsOrder(Snapshot(), ReadWakeup);
      hide InOrder;
      eventfd := 0;
      phase := Handling(false);
    }

    /** `queueInLoop` on the loop thread: the push, and the wakeup if a batch is running. */
    method QueueInLoop(cb: Functor)
      requires Enabled(Snapshot(), LoopPush(cb)) && NoLostWakeup(Snapshot())
      modifies this
      ensures Snapshot() == Run(old(Snapshot()), [LoopPush(cb), LoopWakeup])
    {
      ghost var s := Snapshot();
      assert [LoopPush(cb), LoopWakeup][1..] == [LoopWakeup] && [LoopWakeup][1..] == [];
      pendingFunctors := pendingFunctors + [cb];
      queued, queuedIn := queued + [cb], queuedIn + [batches];
      if callingPendingFunctors {
        phase := phase.(owes := true);
        assert Snapshot() == Step(s, LoopPush(cb));
        WriteEventfd();
        phase := phase.(owes := false);
        assert Snapshot() == Step(Step(s, LoopPush(cb)), LoopWakeup);
      }
    }

    /** `queueInLoop` on another thread, with its wakeup. */
    method QueueFromOther(cb: Functor)
      requires phase.Running? && !phase.owes
      modifies this
      ensures Snapshot() == Wakeup(Push(old(Snapshot()), cb))
    {
      pendingFunctors := pendingFunctors + [cb];
      queued, queuedIn := queued + [cb], queuedIn + [batches];
      wakers := wakers + 1;
      WriteEventfd();
      wakers := wakers - 1;
    }

    /** `doPendingFunctors`, where `queues[i]` is queued, by it or by other threads, while the i-th functor runs:
        the functors run in order, and exactly what was queued is left, with the eventfd readable if that is
        anything. */
    method DoPendingFunctors(queues: seq<seq<Queued>>)
      requires Enabled(Snapshot(), BeginPending) && NoLostWakeup(Snapshot()) && InOrder(Snapshot())
      requires |queues| == |pendingFunctors|
      modifies this
      ensures ran == old(ran) + old(pendingFunctors)
      ensures pendingFunctors == Concat(AllFunctors(queues))
      ensures pendingFunctors != [] ==> eventfd > 0
      ensures !callingPendingFunctors && phase == if quit then Exited else Polling
      ensures quit == old(quit) && NoLostWakeup(Snapshot()) && InOrder(Snapshot())
    {
      hide InOrder, Run, NoLostWakeup, AllFunctors, Concat;
      NothingQueued();
      var functors := SwapOut();
      var i := 0;
      assert queues[..0] == [] && functors[..0] == [];
      while i < |functors|
        invariant 0 <= i <= |functors| && phase == Running(functors, i, false) && quit == old(quit)
        invariant ran == old(ran) + functors[..i]
        invariant pendingFunctors == Concat(AllFunctors(queues[..i]))
        invariant pendingFunctors != [] ==> eventfd > 0
        invariant NoLostWakeup(Snapshot()) && InOrder(Snapshot())
      {
        RunFunctor(functors[i], queues[i]);
        assert functors[..i + 1] == functors[..i] + [functors[i]];
        MoreQueued(queues, i);
        i := i + 1;
      }
      assert queues[..i] == queues && functors[..i] == functors;
      Finish();
    }

    /** The end of `doPendingFunctors`, and the test of `quit_` after it. */
    method Finish()
      requires Enabled(Snapshot(), EndPending) && NoLostWakeup(Snapshot()) && InOrder(Snapshot())
      modifies this`callingPendingFunctors, this`phase, this`exits
      ensures !callingPendingFunctors && phase == if quit then Exited else Polling
      ensures NoLostWakeup(Snapshot()) && InOrder(Snapshot())
    {
      StepKeepsOrder(Snapshot(), EndPending);
      StepKeepsWakeup(Snapshot(), EndPending);
      hide InOrder;
      callingPendingFunctors := false;
      phase := if quit then Exited else Polling;
      exits := if quit then exits + 1 else exits;
    }

    /** The first half of `doPendingFunctors`: the batch is taken under the mutex. */
    method SwapOut() returns (functors: seq<Functor>)
      requires Enabled(Snapshot(), BeginPending) && NoLostWakeup(Snapshot()) && InOrder(Snapshot())
      modifies this
      ensures functors == old(pendingFunctors) && pendingFunctors == [] && quit == old(quit) && ran == old(ran)
      ensures phase == Running(functors, 0, false)
      ensures NoLostWakeup(Snapshot()) && InOrder(Snapshot())
    {
      hide InOrder;
      StepKeepsOrder(Snapshot(), BeginPending);
      callingPendingFunctors := true;
      phase := Swapping;
      StepKeepsOrder(Snapshot(), Swap);
      functors := pendingFunctors;
      pendingFunctors := [];
      phase, batches := Running(functors, 0, false), batches + 1;
    }

    /** One functor call. */
    method RunFunctor(f: Functor, queue: seq<Queued>)
      requires Enabled(Snapshot(), RunNext) && phase.functors[phase.next] == f
      requires NoLostWakeup(Snapshot()) && InOrder(Snapshot())
      modifies this
      ensures phase == old(phase.(next := phase.next + 1)) && quit == old(quit) && ran == old(ran) + [f]
      ensures pendingFunctors == old(pendingFunctors) + Functors(queue)
      ensures eventfd >= old(eventfd) && (queue != [] ==> eventfd > 0)
      ensures NoLostWakeup(Snapshot()) && InOrder(Snapshot())
    {
      hide InOrder;
      StepKeepsOrder(Snapshot(), RunNext);
      ran, ranIn := ran + [f], ranIn + [batches];
      phase := phase.(next := phase.next + 1);
      QueueAll(queue);
    }

    /** What is queued while one functor runs. */
    method QueueAll(fs: seq<Queued>)
      requires phase.Running? && !phase.owes && NoLostWakeup(Snapshot()) && InOrder(Snapshot())
      modifies this
      ensures phase == old(phase) && quit == old(quit) && ran == old(ran)
      ensures pendingFunctors == old(pendingFunctors) + Functors(fs)
      ensures eventfd >= old(eventfd) && (fs != [] ==> eventfd > 0)
      ensures NoLostWakeup(Snapshot()) && InOrder(Snapshot())
    {
      hide InOrder, Run, NoLostWakeup, Functors;
      NoFunctors();
      var k := 0;
      while k < |fs|
        invariant 0 <= k <= |fs| && phase == old(phase) && quit == old(quit) && ran == old(ran)
        invariant pendingFunctors == old(pendingFunctors) + Functors(fs[..k])
        invariant eventfd >= old(eventfd) && (k > 0 ==> eventfd > 0)
        invariant NoLostWakeup(Snapshot()) && InOrder(Snapshot())
      {
        ghost var s := Snapshot();
        QueuedKeeps(s, fs[k].f);
        TwoSteps(s, fs[k].f);
        if fs[k].Own? {
          QueueInLoop(fs[k].f);
        } else {
          QueueFromOther(fs[k].f);
        }
        OneMoreFunctor(fs, k);
        k := k + 1;
      }
      assert fs[..k] == fs;
    }

    static lemma QueuedKeeps(s: Loop, f: Functor)
      requires s.phase.Running? && !s.phase.owes && NoLostWakeup(s) && InOrder(s)
      ensures NoLostWakeup(Wakeup(Push(s, f))) && InOrder(Wakeup(Push(s, f)))
    {
      PushKeepsOrder(s, f, Wakeup(Push(s, f)));
      hide InOrder;
    }

    static lemma {:induction false} TwoSteps(s: Loop, f: Functor)
      requires s.phase.Running? && !s.phase.owes && NoLostWakeup(s)
      ensures Run(s, [LoopPush(f), LoopWakeup]) == Wakeup(Push(s, f))
    {
      var p := Step(s, LoopPush(f));
      var w := Step(p, LoopWakeup);
      assert [LoopPush(f), LoopWakeup][1..] == [LoopWakeup] && [LoopWakeup][1..] == [];
      assert Run(w, []) == w;
    }
  }
}
