/** `muduo::net::TcpConnection`: the output stream of a connection under partial writes, errors, shutdown and close.
    */
module TcpConnections {
  import opened Bytes

  datatype StateE = Disconnected | Connecting | Connected | Disconnecting

  datatype Errno = EWouldBlock | EPipe | EConnReset | OtherErrno

  /** What write(2) may do: accept a prefix, or fail. */
  datatype WriteResult = Wrote(n: nat) | Failed(errno: Errno)

  datatype Sent = Sent(message: seq<Byte>, faulted: bool)

  datatype Notice =
    | WriteComplete
    | HighWater(backlog: nat)
    | ShutdownWrite(state: StateE, drained: bool)   // and whether the output buffer was empty then

  datatype Conn = Conn(
    state: StateE,
    writing: bool,              // `channel_->isWriting()`
    output: seq<Byte>,          // `outputBuffer_`
    highWaterMark: nat,
    // threads in `shutdown` or `forceClose` that saw kConnected and have yet to set the state
    setters: nat,
    // History.
    accepted: seq<Byte>,        // bytes the kernel took
    log: seq<Sent>,             // messages that reached `sendInLoop` while not disconnected
    notices: seq<Notice>)

  function Fresh(highWaterMark: nat): Conn {
    Conn(Connecting, false, [], highWaterMark, 0, [], [], [])
  }

  function Notify(c: Conn, n: Notice): Conn {
    c.(notices := c.notices + [n])
  }

  predicate IsFault(result: WriteResult) {
    result.Failed? && (result.errno == EPipe || result.errno == EConnReset)
  }

  predicate PossibleResult(result: WriteResult, len: nat) {
    result.Wrote? ==> result.n <= len
  }

  /** The second half of `sendInLoop`: what was not written goes to the output buffer. */
  function Enqueue(c: Conn, rest: seq<Byte>): Conn {
    var oldLen := |c.output|;
    var noted := if oldLen + |rest| >= c.highWaterMark && oldLen < c.highWaterMark
                 then Notify(c, HighWater(oldLen + |rest|)) else c;
    noted.(output := c.output + rest, writing := true)
  }

  function AfterSend(c: Conn, data: seq<Byte>, result: WriteResult): Conn
    requires PossibleResult(result, |data|)
  {
    if c.state == Disconnected then c
    else if !c.writing && c.output == [] then
      var logged := c.(log := c.log + [Sent(data, IsFault(result))]);
      match result
      case Wrote(n) =>
        var wrote := logged.(accepted := c.accepted + data[..n]);
        if n == |data| then Notify(wrote, WriteComplete) else Enqueue(wrote, data[n..])
      case Failed(_) =>
        if !IsFault(result) && data != [] then Enqueue(logged, data) else logged
    else
      var logged := c.(log := c.log + [Sent(data, false)]);
      if data != [] then Enqueue(logged, data) else logged
  }

  function AfterShutdown(c: Conn): Conn {
    if !c.writing then Notify(c, ShutdownWrite(c.state, c.output == [])) else c
  }

  function AfterWritable(c: Conn, result: WriteResult): Conn
    requires PossibleResult(result, |c.output|)
  {
    if c.writing && result.Wrote? && result.n > 0 then
      var r := c.(accepted := c.accepted + c.output[..result.n], output := c.output[result.n..]);
      if r.output == [] then
        var done := Notify(r.(writing := false), WriteComplete);
        if c.state == Disconnecting then AfterShutdown(done) else done
      else r
    else c
  }

  function AfterClose(c: Conn): Conn {
    c.(state := Disconnected, writing := false)
  }

  datatype Event =
    | ConnectEstablished
    | Send(data: seq<Byte>, result: WriteResult)   // a message reaches `sendInLoop`
    | Writable(result: WriteResult)                // `handleWrite`
    | CheckConnected                               // the test in `shutdown` or `forceClose`, on any thread
    | SetDisconnecting                             // and the assignment after it
    | RunShutdown                                  // the queued `shutdownInLoop`
    | RunForceClose                                // the queued `forceCloseInLoop`
    | PeerClosed                                   // `handleRead` got 0 bytes
    | ConnectDestroyed

  predicate Enabled(c: Conn, ev: Event) {
    match ev
    case ConnectEstablished => c.state == Connecting
    case Send(data, result) => PossibleResult(result, |data|)
    case Writable(result) => PossibleResult(result, |c.output|)
    case SetDisconnecting => c.setters > 0
    case PeerClosed => c.state == Connected || c.state == Disconnecting
    case _ => true
  }

  function Step(c: Conn, ev: Event): Conn
    requires Enabled(c, ev)
  {
    match ev
    case ConnectEstablished => c.(state := Connected)
    case Send(data, result) => AfterSend(c, data, result)
    case Writable(result) => AfterWritable(c, result)
    case CheckConnected => if c.state == Connected || c.state == Disconnecting then c.(setters := c.setters + 1) else c
    case SetDisconnecting => c.(state := Disconnecting, setters := c.setters - 1)
    case RunShutdown => AfterShutdown(c)
    case RunForceClose => if c.state == Connected || c.state == Disconnecting then AfterClose(c) else c
    case PeerClosed => AfterClose(c)
    case ConnectDestroyed => if c.state == Connected then AfterClose(c) else c
  }

  function Run(c: Conn, evs: seq<Event>): Conn
    decreases |evs|
  {
    if evs == [] then c
    else Run(if Enabled(c, evs[0]) then Step(c, evs[0]) else c, evs[1..])
  }

  // ------------------------------------------------------------------
  // Invariants.

  /** The bytes of the messages whose direct write did not hit a fault, in order. */
  function Delivered(log: seq<Sent>): seq<Byte> {
    if log == [] then []
    else Delivered(log[..|log| - 1]) + (if log[|log| - 1].faulted then [] else log[|log| - 1].message)
  }

  /** Nothing is lost, duplicated or reordered on the way to the kernel. */
  predicate Conserves(c: Conn) {
    c.accepted + c.output == Delivered(c.log)
  }

  /** The channel waits for writability exactly while there is something to write. */
  predicate WritesWhileNeeded(c: Conn) {
    && (c.state != Disconnected ==> (c.writing <==> c.output != []))
    && (c.state == Disconnected ==> !c.writing)
  }

  /** `shutdownWrite` cuts nothing off while the connection is up. */
  predicate ShutdownsDrained(c: Conn) {
    forall i :: 0 <= i < |c.notices| && c.notices[i].ShutdownWrite? ==>
              c.notices[i].drained || c.notices[i].state == Disconnected
  }

  lemma {:induction false} DeliveredSnoc(log: seq<Sent>, s: Sent)
    ensures Delivered(log + [s]) == Delivered(log) + (if s.faulted then [] else s.message)
  {
    assert (log + [s])[..|log|] == log;
  }

  lemma SendConserves(c: Conn, data: seq<Byte>, result: WriteResult)
    requires Conserves(c) && PossibleResult(result, |data|)
    ensures Conserves(AfterSend(c, data, result))
  {
    hide Delivered;
    if c.state != Disconnected {
      var r := AfterSend(c, data, result);
      if !c.writing && c.output == [] {
        DirectConserves(c, data, result);
      } else {
        DeliveredSnoc(c.log, Sent(data, false));
        assert r.accepted + r.output == (c.accepted + c.output) + data;
      }
    }
  }

  lemma DirectConserves(c: Conn, data: seq<Byte>, result: WriteResult)
    requires Conserves(c) && PossibleResult(result, |data|)
    requires c.state != Disconnected && !c.writing && c.output == []
    ensures Conserves(AfterSend(c, data, result))
  {
    hide Delivered;
    var r := AfterSend(c, data, result);
    DeliveredSnoc(c.log, Sent(data, IsFault(result)));
    if result.Wrote? {
      assert data == data[..result.n] + data[result.n..];
      assert r.accepted + r.output == c.accepted + data;
    } else if IsFault(result) {
      assert r.accepted + r.output == c.accepted + c.output;
    } else {
      assert r.accepted + r.output == c.accepted + data;
    }
  }

  lemma StepConserves(c: Conn, ev: Event)
    requires Conserves(c) && Enabled(c, ev)
    ensures Conserves(Step(c, ev))
  {
    match ev
    case Send(data, result) => SendConserves(c, data, result);
    case Writable(result) =>
      if c.writing && result.Wrote? {
        assert c.accepted + c.output == (c.accepted + c.output[..result.n]) + c.output[result.n..];
      }
    case _ =>
  }

  /** The one step that can break the pairing: setting the state after the connection went down with output left,
      between the test and the assignment. */
  predicate RevivesUnsent(c: Conn, ev: Event) {
    ev.SetDisconnecting? && c.state == Disconnected && c.output != []
  }

  lemma StepWrites(c: Conn, ev: Event)
    requires WritesWhileNeeded(c) && Enabled(c, ev)
    ensures WritesWhileNeeded(Step(c, ev)) <==> !RevivesUnsent(c, ev)
  {
  }

  lemma StepDrains(c: Conn, ev: Event)
    requires WritesWhileNeeded(c) && ShutdownsDrained(c) && Enabled(c, ev)
    ensures ShutdownsDrained(Step(c, ev))
  {
    var r := Step(c, ev);
    forall i | 0 <= i < |r.notices| && r.notices[i].ShutdownWrite?
      ensures r.notices[i].drained || r.notices[i].state == Disconnected
    {
      assert i < |c.notices| ==> r.notices[i] == c.notices[i];
    }
  }

  /** No thread loses the race between its test of the state and its assignment. */
  predicate NoRevival(c: Conn, evs: seq<Event>)
    decreases |evs|
  {
    evs == [] ||
    (!(Enabled(c, evs[0]) && RevivesUnsent(c, evs[0]))
            && NoRevival(if Enabled(c, evs[0]) then Step(c, evs[0]) else c, evs[1..]))
  }

  lemma {:induction false} RunConserves(c: Conn, evs: seq<Event>)
    requires Conserves(c)
    ensures Conserves(Run(c, evs))
    decreases |evs|
  {
    hide Conserves, Step, Enabled;
    if evs != [] {
      if Enabled(c, evs[0]) {
        StepConserves(c, evs[0]);
        RunConserves(Step(c, evs[0]), evs[1..]);
      } else {
        RunConserves(c, evs[1..]);
      }
    }
  }

  lemma {:induction false} RunFirst(c: Conn, evs: seq<Event>, k: nat)
    requires 0 < k <= |evs|
    ensures var r := if Enabled(c, evs[0]) then Step(c, evs[0]) else c;
            Run(c, evs[..k]) == Run(r, evs[1..][..k - 1])
  {
    assert evs[..k][1..] == evs[1..][..k - 1];
  }

  lemma {:induction false} RunWrites(c: Conn, evs: seq<Event>, k: nat)
    requires WritesWhileNeeded(c) && ShutdownsDrained(c) && NoRevival(c, evs) && k <= |evs|
    ensures WritesWhileNeeded(Run(c, evs[..k])) && ShutdownsDrained(Run(c, evs[..k]))
    decreases |evs|
  {
    hide WritesWhileNeeded, ShutdownsDrained, Step, Enabled, RevivesUnsent;
    if k == 0 {
      assert evs[..k] == [];
    } else {
      RunFirst(c, evs, k);
      if Enabled(c, evs[0]) {
        StepWrites(c, evs[0]);
        StepDrains(c, evs[0]);
        RunWrites(Step(c, evs[0]), evs[1..], k - 1);
      } else {
        RunWrites(c, evs[1..], k - 1);
      }
    }
  }

  /** A run in which the race is lost has a prefix that ends with unsent output and no writing. */
  lemma {:induction false} RevivedSomewhere(c: Conn, evs: seq<Event>) returns (k: nat)
    requires WritesWhileNeeded(c) && !NoRevival(c, evs)
    ensures k <= |evs| && !WritesWhileNeeded(Run(c, evs[..k]))
    decreases |evs|
  {
    hide WritesWhileNeeded, Step, Enabled, RevivesUnsent;
    if Enabled(c, evs[0]) && RevivesUnsent(c, evs[0]) {
      StepWrites(c, evs[0]);
      k := 1;
      RunFirst(c, evs, 1);
      assert evs[1..][..0] == [];
    } else {
      if Enabled(c, evs[0]) {
        StepWrites(c, evs[0]);
      }
      var j := RevivedSomewhere(if Enabled(c, evs[0]) then Step(c, evs[0]) else c, evs[1..]);
      k := j + 1;
      RunFirst(c, evs, k);
    }
  }

  // ------------------------------------------------------------------
  // Main results.

  predicate FaultFree(log: seq<Sent>) {
    forall i :: 0 <= i < |log| ==> !log[i].faulted
  }

  function Messages(log: seq<Sent>): seq<Byte> {
    if log == [] then [] else Messages(log[..|log| - 1]) + log[|log| - 1].message
  }

  lemma {:induction false} FaultFreeDelivers(log: seq<Sent>)
    requires FaultFree(log)
    ensures Delivered(log) == Messages(log)
  {
    if log != [] {
      FaultFreeDelivers(log[..|log| - 1]);
    }
  }

  /** For every pattern of partial writes, errors, shutdowns and closes: the bytes the kernel took followed by the
      output buffer are the messages sent, in order, less exactly those whose direct write hit a fault; all of them
      until the first fault. */
  lemma {:induction false} StreamIsConserved(mark: nat, evs: seq<Event>)
    ensures var c := Run(Fresh(mark), evs);
            && c.accepted + c.output == Delivered(c.log)
            && (FaultFree(c.log) ==> c.accepted + c.output == Messages(c.log))
  {
    RunConserves(Fresh(mark), evs);
    var c := Run(Fresh(mark), evs);
    if FaultFree(c.log) {
      FaultFreeDelivers(c.log);
    }
  }

  /** While not disconnected the channel is writing iff the output buffer is non-empty, and `shutdownWrite` never
      cuts off output, unless a state assignment loses its race. */
  lemma {:induction false} WritingIffOutput(mark: nat, evs: seq<Event>)
    requires NoRevival(Fresh(mark), evs)
    ensures var c := Run(Fresh(mark), evs);
            && (c.state != Disconnected ==> (c.writing <==> c.output != []))
            && ShutdownsDrained(c)
  {
    RunWrites(Fresh(mark), evs, |evs|);
    assert evs[..|evs|] == evs;
  }

  /** Over runs, exactly: at every point a connection with unsent output is writing, if and only if no assignment of
      the state loses its race. */
  lemma {:induction false} WritesExactly(mark: nat, evs: seq<Event>)
    ensures (forall k :: 0 <= k <= |evs| ==> WritesWhileNeeded(Run(Fresh(mark), evs[..k]))) <==>
              NoRevival(Fresh(mark), evs)
  {
    FreshWrites(mark);
    hide WritesWhileNeeded, ShutdownsDrained, Run;
    if NoRevival(Fresh(mark), evs) {
      forall k | 0 <= k <= |evs| ensures WritesWhileNeeded(Run(Fresh(mark), evs[..k])) {
        RunWrites(Fresh(mark), evs, k);
      }
    } else {
      var k := RevivedSomewhere(Fresh(mark), evs);
    }
  }

  lemma FreshWrites(mark: nat)
    ensures WritesWhileNeeded(Fresh(mark)) && ShutdownsDrained(Fresh(mark))
  {
  }

  /** The race can be reached: a message that the kernel does not take, and a thread in `shutdown` between its test
      and its assignment. */
  lemma RaceIsReachable(mark: nat, data: seq<Byte>)
    requires data != []
    ensures var c := Run(Fresh(mark), [ConnectEstablished, Send(data, Failed(EWouldBlock)), CheckConnected]);
            c.state == Connected && c.output == data && c.setters > 0
  {
    var e := [ConnectEstablished, Send(data, Failed(EWouldBlock)), CheckConnected];
    var a := Step(Fresh(mark), e[0]);
    var b := Step(a, e[1]);
    var c := Step(b, e[2]);
    assert e[1..][0] == e[1] && e[1..][1..][0] == e[2];
    assert Run(c, e[1..][1..][1..]) == c;
    assert Run(b, e[1..][1..]) == c;
    assert Run(a, e[1..]) == c;
    assert [] + data == data;
  }

  /** The unsynchronised test and assignment in `shutdown` can do that, from any connection with unsent output and a
      thread between the two: the peer closes, the state comes back to kDisconnecting, and the write side is shut
      down with output that nobody will write. */
  lemma {:induction false} ShutdownRace(c: Conn)
    requires c.state == Connected && c.output != [] && c.setters > 0
    ensures var r := Run(c, [PeerClosed, SetDisconnecting, RunShutdown]);
            && r.state == Disconnecting && !r.writing && r.output == c.output
            && r.notices == c.notices + [ShutdownWrite(Disconnecting, false)]
  {
    var d := Step(c, PeerClosed);
    var e := Step(d, SetDisconnecting);
    RunOne(c, PeerClosed, [SetDisconnecting, RunShutdown]);
    RunOne(d, SetDisconnecting, [RunShutdown]);
    RunOne(e, RunShutdown, []);
    assert [PeerClosed] + [SetDisconnecting, RunShutdown] == [PeerClosed, SetDisconnecting, RunShutdown];
    assert [SetDisconnecting] + [RunShutdown] == [SetDisconnecting, RunShutdown];
    assert [RunShutdown] + [] == [RunShutdown];
  }

  lemma {:induction false} RunOne(c: Conn, ev: Event, rest: seq<Event>)
    requires Enabled(c, ev)
    ensures Run(c, [ev] + rest) == Run(Step(c, ev), rest)
  {
    assert ([ev] + rest)[1..] == rest;
  }

  /** The notices a step adds. */
  function Added(c: Conn, ev: Event): seq<Notice>
    requires Enabled(c, ev)
  {
    var r := Step(c, ev);
    if |c.notices| <= |r.notices| then r.notices[|c.notices|..] else []
  }

  lemma OneNotice(c: Conn, n: Notice, r: Conn)
    requires r.notices == c.notices + [n]
    ensures r.notices[|c.notices|..] == [n]
  {
  }

  lemma TwoNotices(c: Conn, n: Notice, m: Notice, r: Conn)
    requires r.notices == c.notices + [n] + [m]
    ensures r.notices[|c.notices|..] == [n, m]
  {
  }

  lemma SendHighWater(c: Conn, data: seq<Byte>, result: WriteResult, n: nat)
    requires PossibleResult(result, |data|)
    ensures var r := AfterSend(c, data, result);
            HighWater(n) in Added(c, Send(data, result)) <==>
                      |c.output| < c.highWaterMark <= |r.output| && n == |r.output|
  {
    var r := AfterSend(c, data, result);
    if r.notices == c.notices {
      assert Added(c, Send(data, result)) == [];
    } else {
      OneNotice(c, r.notices[|c.notices|], r);
    }
  }

  lemma OthersNoHighWater(c: Conn, ev: Event, n: nat)
    requires Enabled(c, ev) && !ev.Send?
    ensures HighWater(n) !in Added(c, ev) && |Step(c, ev).output| <= |c.output|
  {
    var r := Step(c, ev);
    if r.notices == c.notices {
      assert Added(c, ev) == [];
    } else if |r.notices| == |c.notices| + 1 {
      OneNotice(c, r.notices[|c.notices|], r);
    } else {
      TwoNotices(c, WriteComplete, ShutdownWrite(c.state, true), r);
    }
  }

  /** A high-water notice comes exactly when the backlog crosses the mark upward, with the new backlog. */
  lemma HighWaterExact(c: Conn, ev: Event, n: nat)
    requires Enabled(c, ev)
    ensures HighWater(n) in Added(c, ev) <==>
              |c.output| < c.highWaterMark <= |Step(c, ev).output| && n == |Step(c, ev).output|
  {
    hide AfterSend, Added;
    if ev.Send? {
      SendHighWater(c, ev.data, ev.result, n);
    } else {
      OthersNoHighWater(c, ev, n);
    }
  }

  lemma SendCompletes(c: Conn, data: seq<Byte>, result: WriteResult)
    requires WritesWhileNeeded(c) && PossibleResult(result, |data|)
    ensures WriteComplete in Added(c, Send(data, result)) <==>
              && AfterSend(c, data, result).output == []
              && (c.output != [] || (c.state != Disconnected && result.Wrote?))
  {
    var r := AfterSend(c, data, result);
    if r.notices == c.notices {
      assert Added(c, Send(data, result)) == [];
    } else {
      OneNotice(c, r.notices[|c.notices|], r);
    }
  }

  lemma WritableCompletes(c: Conn, result: WriteResult)
    requires WritesWhileNeeded(c) && PossibleResult(result, |c.output|)
    ensures WriteComplete in Added(c, Writable(result)) <==> AfterWritable(c, result).output == [] && c.output != []
  {
    var r := AfterWritable(c, result);
    if r.notices == c.notices {
      assert Added(c, Writable(result)) == [];
    } else if c.state == Disconnecting {
      TwoNotices(c, WriteComplete, ShutdownWrite(c.state, true), r);
    } else {
      OneNotice(c, WriteComplete, r);
    }
  }

  /** A write-complete notice comes exactly when a successful write leaves nothing to send. */
  lemma WriteCompleteExact(c: Conn, ev: Event)
    requires WritesWhileNeeded(c) && Enabled(c, ev)
    ensures WriteComplete in Added(c, ev) <==>
              && Step(c, ev).output == []
              && (c.output != [] || (ev.Send? && c.state != Disconnected && ev.result.Wrote?))
  {
    hide AfterSend, AfterWritable;
    match ev
    case Send(data, result) => SendCompletes(c, data, result);
    case Writable(result) => WritableCompletes(c, result);
    case RunShutdown =>
      if !c.writing {
        OneNotice(c, ShutdownWrite(c.state, c.output == []), Step(c, ev));
      }
    case _ =>
  }

  /** The write side is shut exactly by the queued `shutdownInLoop` when the channel is not writing, and by the write
      that takes the last of the output while a shutdown is waiting for it. */
  lemma ShutdownExact(c: Conn, ev: Event, st: StateE, drained: bool)
    requires Enabled(c, ev)
    ensures ShutdownWrite(st, drained) in Added(c, ev) <==>
              || (ev.RunShutdown? && !c.writing && st == c.state && (drained <==> c.output == []))
              || (ev.Writable? && c.state == Disconnecting && c.output != [] && Step(c, ev).output == []
                  && st == Disconnecting && drained)
  {
    var r := Step(c, ev);
    if r.notices == c.notices {
      assert Added(c, ev) == [];
    } else if |r.notices| == |c.notices| + 1 {
      OneNotice(c, r.notices[|c.notices|], r);
    } else {
      TwoNotices(c, WriteComplete, ShutdownWrite(c.state, true), r);
    }
  }

  /** The event calls write(2). */
  predicate Writes(c: Conn, ev: Event) {
    match ev
    case Send(_, _) => c.state != Disconnected && !c.writing && c.output == []
    case Writable(_) => c.writing
    case _ => false
  }

  function ResultOf(ev: Event): WriteResult
    requires ev.Send? || ev.Writable?
  {
    ev.result
  }

  /** The kernel is given bytes exactly when write(2) is called, and as many as it says it took. */
  lemma AcceptedExact(c: Conn, ev: Event)
    requires Enabled(c, ev)
    ensures |Step(c, ev).accepted|
            == |c.accepted| + (if Writes(c, ev) && ResultOf(ev).Wrote? then ResultOf(ev).n else 0)
  {
  }

  /** A message is on record exactly if it reached `sendInLoop` while not disconnected, and is lost exactly if it was
      written directly and that hit EPIPE or ECONNRESET. */
  lemma LoggedExact(c: Conn, ev: Event)
    requires Enabled(c, ev)
    ensures Step(c, ev).log
            == if ev.Send? && c.state != Disconnected
               then c.log + [Sent(ev.data, Writes(c, ev) && ev.result in {Failed(EPipe), Failed(EConnReset)})]
               else c.log
  {
    if ev.Send? {
      SendLogged(c, ev.data, ev.result);
    }
  }

  lemma SendLogged(c: Conn, data: seq<Byte>, result: WriteResult)
    requires PossibleResult(result, |data|)
    ensures AfterSend(c, data, result).log
            == if c.state == Disconnected then c.log
               else c.log + [Sent(data, !c.writing && c.output == [] && result in {Failed(EPipe), Failed(EConnReset)})]
  {
  }

  /** The event takes the connection down. */
  predicate GoesDown(c: Conn, ev: Event) {
    match ev
    case PeerClosed => true
    case RunForceClose => c.state == Connected || c.state == Disconnecting
    case ConnectDestroyed => c.state == Connected
    case _ => false
  }

  /** Which events change the state. */
  lemma StateExact(c: Conn, ev: Event)
    requires Enabled(c, ev)
    ensures var st := Step(c, ev).state;
            && (st == Disconnected <==> GoesDown(c, ev) || (c.state == Disconnected && !ev.SetDisconnecting?))
            && (st == Disconnecting <==> ev.SetDisconnecting? || (c.state == Disconnecting && !GoesDown(c, ev)))
            && (st == Connected <==>
                  ev.ConnectEstablished? || (c.state == Connected && !ev.SetDisconnecting? && !GoesDown(c, ev)))
    ensures GoesDown(c, ev) ==> !Step(c, ev).writing
    ensures Step(c, ev).setters > c.setters <==> ev.CheckConnected? && c.state in {Connected, Disconnecting}
    ensures Step(c, ev).setters < c.setters <==> ev.SetDisconnecting?
  {
  }

  /** The run has only writes by the loop and messages. */
  predicate StaysUp(evs: seq<Event>) {
    forall i :: 0 <= i < |evs| ==> evs[i].Writable? || evs[i].Send?
  }

  /** A shutdown requested while output is waiting is never lost and never early: as long as the connection stays up,
      the write side has been shut if and only if the output has been emptied at some point since. */
  lemma {:induction false} PendingShutdown(c: Conn, evs: seq<Event>)
    requires WritesWhileNeeded(c) && c.state == Disconnecting && c.output != [] && StaysUp(evs)
    ensures |Run(c, evs).notices| >= |c.notices|
    ensures ShutdownWrite(Disconnecting, true) in Run(c, evs).notices[|c.notices|..]
            <==> exists k :: 0 <= k <= |evs| && Run(c, evs[..k]).output == []
    decreases |evs|
  {
    hide WritesWhileNeeded, Step, Enabled, Added;
    NoticesGrow(c, evs);
    if evs == [] {
      assert evs[..0] == [];
      return;
    }
    var ev := evs[0];
    var r := if Enabled(c, ev) then Step(c, ev) else c;
    assert evs[..0] == [];
    forall k | 0 < k <= |evs| ensures Run(c, evs[..k]) == Run(r, evs[1..][..k - 1]) {
      RunFirst(c, evs, k);
    }
    NoticesGrow(r, evs[1..]);
    StepUp(c, ev);
    NoticesSplit(c, r, Run(c, evs));
    assert forall k :: 0 <= k <= |evs[1..]| ==> evs[..k + 1][1..] == evs[1..][..k];
    if r.output == [] {
      assert evs[1..][..0] == [];
      assert Run(c, evs[..1]).output == [];
    } else {
      PendingShutdown(r, evs[1..]);
      if k :| 0 <= k <= |evs[1..]| && Run(r, evs[1..][..k]).output == [] {
        assert Run(c, evs[..k + 1]).output == [];
      }
    }
  }

  /** Such a point can be reached: a write that takes the rest of the output. */
  lemma {:induction false} ShutdownCompletes(c: Conn)
    requires WritesWhileNeeded(c) && c.state == Disconnecting && c.output != []
    ensures var r := Run(c, [Writable(Wrote(|c.output|))]);
            r.output == [] && !r.writing
            && r.notices == c.notices + [WriteComplete, ShutdownWrite(Disconnecting, true)]
  {
    var ev := Writable(Wrote(|c.output|));
    assert [ev][1..] == [] && Run(Step(c, ev), []) == Step(c, ev);
    assert c.output[|c.output|..] == [];
  }

  /** What can always happen to a connection. */
  lemma AlwaysPossible(c: Conn, ev: Event)
    requires match ev
             case ConnectEstablished => c.state == Connecting
             case Send(data, result) => PossibleResult(result, |data|)
             case Writable(result) => PossibleResult(result, |c.output|)
             case SetDisconnecting => c.setters > 0
             case PeerClosed => c.state in {Connected, Disconnecting}
             case _ => true
    ensures Enabled(c, ev)
  {
  }

  lemma StepUp(c: Conn, ev: Event)
    requires WritesWhileNeeded(c) && c.state == Disconnecting && c.output != [] && (ev.Writable? || ev.Send?)
    ensures var r := if Enabled(c, ev) then Step(c, ev) else c;
            && WritesWhileNeeded(r) && r.state == Disconnecting && |c.notices| <= |r.notices|
            && (ShutdownWrite(Disconnecting, true) in r.notices[|c.notices|..] <==> r.output == [])
  {
    if Enabled(c, ev) {
      ShutdownExact(c, ev, Disconnecting, true);
      StepWrites(c, ev);
      StateExact(c, ev);
      StepGrows(c, ev);
      if ev.Send? {
        SendKeepsOutput(c, ev.data, ev.result);
      }
    }
  }

  lemma SendKeepsOutput(c: Conn, data: seq<Byte>, result: WriteResult)
    requires c.output != [] && PossibleResult(result, |data|)
    ensures AfterSend(c, data, result).output != []
  {
  }

  lemma StepGrows(c: Conn, ev: Event)
    requires Enabled(c, ev)
    ensures c.notices <= Step(c, ev).notices
  {
  }

  lemma {:induction false} NoticesGrow(c: Conn, evs: seq<Event>)
    ensures c.notices <= Run(c, evs).notices
    decreases |evs|
  {
    hide Step, Enabled;
    if evs != [] {
      if Enabled(c, evs[0]) {
        StepGrows(c, evs[0]);
        NoticesGrow(Step(c, evs[0]), evs[1..]);
      } else {
        NoticesGrow(c, evs[1..]);
      }
    }
  }

  lemma NoticesSplit(c: Conn, r: Conn, e: Conn)
    requires c.notices <= r.notices <= e.notices
    ensures e.notices[|c.notices|..] == r.notices[|c.notices|..] + e.notices[|r.notices|..]
  {
  }

  // ------------------------------------------------------------------
  // The object.

  predicate Consistent(c: Conn) {
    Conserves(c) && WritesWhileNeeded(c) && ShutdownsDrained(c)
  }

  lemma KeepsValid(c: Conn, ev: Event)
    requires Consistent(c) && Enabled(c, ev) && !RevivesUnsent(c, ev)
    ensures Consistent(Step(c, ev))
  {
    StepConserves(c, ev);
    StepWrites(c, ev);
    StepDrains(c, ev);
  }

  class TcpConnection {
    var state: StateE
    var writing: bool
    var outputBuffer: seq<Byte>
    const highWaterMark: nat
    ghost var setters: nat
    ghost var accepted: seq<Byte>
    ghost var log: seq<Sent>
    var notices: seq<Notice>

    ghost function Snapshot(): Conn
      reads this
    {
      Conn(state, writing, outputBuffer, highWaterMark, setters, accepted, log, notices)
    }

    ghost predicate Valid()
      reads this
    {
      Consistent(Snapshot())
    }

    constructor (mark: nat)
      ensures Snapshot() == Fresh(mark) && Valid()
    {
      state, writing, outputBuffer, highWaterMark := Connecting, false, [], mark;
      setters, accepted, log, notices := 0, [], [], [];
    }

    /** `sendInLoop`, with the result write(2) will give if it is called. */
    method SendInLoop(data: seq<Byte>, result: WriteResult)
      requires PossibleResult(result, |data|) && Valid()
      modifies this
      ensures Snapshot() == AfterSend(old(Snapshot()), data, result) && Valid()
    {
      hide Consistent;
      KeepsValid(Snapshot(), Send(data, result));
      var nwrote := 0;
      var remaining := |data|;
      var faultError := false;
      if state == Disconnected {
        return;
      }
      if !writing && |outputBuffer| == 0 {
        match result {
          case Wrote(n) =>
            nwrote := n;
            accepted := accepted + data[..n];
            remaining := |data| - nwrote;
            if remaining == 0 {
              notices := notices + [WriteComplete];
            }
          case Failed(errno) =>
            if errno == EPipe || errno == EConnReset {
              faultError := true;
            }
        }
      }
      log := log + [Sent(data, faultError)];
      assert remaining <= |data|;
      if !faultError && remaining > 0 {
        assert data[0..] == data;
        AppendOutput(data[nwrote..]);
      }
    }

    /** The end of `sendInLoop`: buffer what was not written. */
    method AppendOutput(rest: seq<Byte>)
      modifies this`notices, this`outputBuffer, this`writing
      ensures Snapshot() == Enqueue(old(Snapshot()), rest)
    {
      var oldLen := |outputBuffer|;
      if oldLen + |rest| >= highWaterMark && oldLen < highWaterMark {
        notices := notices + [HighWater(oldLen + |rest|)];
      }
      outputBuffer := outputBuffer + rest;
      if !writing {
        writing := true;
      }
    }

    method ShutdownInLoop()
      requires Valid()
      modifies this`notices
      ensures Snapshot() == AfterShutdown(old(Snapshot())) && Valid()
    {
      KeepsValid(Snapshot(), RunShutdown);
      if !writing {
        notices := notices + [ShutdownWrite(state, outputBuffer == [])];
      }
    }

    method HandleWrite(result: WriteResult)
      requires PossibleResult(result, |outputBuffer|) && Valid()
      modifies this
      ensures Snapshot() == AfterWritable(old(Snapshot()), result) && Valid()
    {
      KeepsValid(Snapshot(), Writable(result));
      if writing {
        if result.Wrote? && result.n > 0 {
          assert outputBuffer == outputBuffer[..result.n] + outputBuffer[result.n..];
          accepted := accepted + outputBuffer[..result.n];
          outputBuffer := outputBuffer[result.n..];
          if |outputBuffer| == 0 {
            writing := false;
            notices := notices + [WriteComplete];
            if state == Disconnecting {
              ShutdownInLoop();
            }
          }
        }
      }
    }

    method HandleClose()
      requires state == Connected || state == Disconnecting
      requires Valid()
      modifies this`state, this`writing
      ensures Snapshot() == AfterClose(old(Snapshot())) && Valid()
    {
      state := Disconnected;
      writing := false;
    }
  }
}
