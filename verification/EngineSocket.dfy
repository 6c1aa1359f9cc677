/** `engineio::Socket` and its transports: write buffering for long polls and across an upgrade to a websocket. */
module EngineSockets {
  import opened Options
  import opened Payloads

  const OPEN := 0
  const CLOSE := 1
  const PING := 2
  const PONG := 3
  const UPGRADE := 5
  const NOOP := 6

  type PollId = nat

  /** A transport object.  A polling transport holds at most one request; `writable` is its `writable_`.  `main`:
      `SetTransport` has given it the socket's callbacks, so its packets go to `Socket::OnPacket`, and only then has it
      a flush callback. */
  datatype Transport =
    | Polling(writable: bool, held: Option<PollId>, main: bool)
    | Websocket(writable: bool, established: bool, main: bool)

  /** One call of `SendPackets`: which transport, what, the poll it answered, and whether it bypassed the write
      buffer. */
  datatype Delivery = Delivery(transport: nat, packets: seq<Packet>, poll: Option<PollId>, direct: bool)

  datatype State = Opening | Open | Closing | Closed

  datatype Verb = Get | PostVerb | OtherVerb

  datatype Session = Session(
    binary: bool,                  // `is_support_binary_` of the first transport, set by the handshake
    state: State,
    transports: seq<Transport>,    // every transport ever created for this socket
    current: nat,                  // `transport_`
    upgrading: Option<nat>,        // `upgrading_transport_`
    upgraded: bool,
    writeBuffer: seq<Packet>,
    // History.
    created: seq<Packet>,          // by `CreateAndSendPacket`
    deliveries: seq<Delivery>,
    polls: seq<PollId>,            // accepted by `HandlePollRequest`
    refused: seq<PollId>,          // answered 500 because a request was held
    posts: seq<bool>)              // each POST: whether it was answered 200

  function Start(first: Transport, binary: bool): Session {
    Session(binary, Opening, [first], 0, None, false, [], [], [], [], [], [])
  }

  // ------------------------------------------------------------------
  // Transports.

  /** `SendPackets` on one transport: a polling transport answers and releases the held poll; a websocket sends each
      packet and is writable again after each. */
  function AfterSending(t: Transport, packets: seq<Packet>): Transport {
    match t
    case Polling(_, _, m) => Polling(false, None, m)
    case Websocket(_, e, m) => Websocket(packets != [], e, m)
  }

  function HeldPoll(t: Transport): Option<PollId> {
    if t.Polling? then t.held else None
  }

  function SendPackets(s: Session, i: nat, packets: seq<Packet>, direct: bool): Session
    requires i < |s.transports|
  {
    s.(transports := s.transports[i := AfterSending(s.transports[i], packets)],
       deliveries := s.deliveries + [Delivery(i, packets, HeldPoll(s.transports[i]), direct)])
  }

  // ------------------------------------------------------------------
  // The socket.

  predicate Indexed(s: Session) {
    s.current < |s.transports| && (s.upgrading.Some? ==> s.upgrading.value < |s.transports|)
  }

  function AfterFlush(s: Session): Session
    requires Indexed(s)
  {
    if s.state != Closed && s.transports[s.current].writable && s.writeBuffer != [] then
      SendPackets(s.(writeBuffer := []), s.current, s.writeBuffer, false)
    else s
  }

  function AfterCreate(s: Session, kind: int, data: seq<Utf8.Unit>): Session
    requires Indexed(s)
  {
    if !IsValidPacketType(kind) then s
    else
      var p := Packet(kind, data);
      AfterFlush(s.(writeBuffer := s.writeBuffer + [p], created := s.created + [p]))
  }

  /** A polling transport stores the poll. */
  function Stored(s: Session, i: nat, poll: PollId): Session
    requires i < |s.transports| && s.transports[i].Polling?
  {
    s.(transports := s.transports[i := s.transports[i].(writable := true, held := Some(poll))],
       polls := s.polls + [poll])
  }

  /** `TriggerFlush` of a transport: the socket's `Flush`, or an exception when the callback was never set. */
  function TriggerFlush(s: Session, t: Transport): Option<Session>
    requires Indexed(s)
  {
    if t.main then Some(AfterFlush(s)) else None
  }

  /** `PollingTransport::HandlePollRequest` of a transport. */
  function AfterPollOn(s: Session, i: nat, poll: PollId): Option<Session>
    requires Indexed(s) && i < |s.transports| && s.transports[i].Polling?
  {
    if s.transports[i].held.Some? then Some(s.(refused := s.refused + [poll]))
    else TriggerFlush(Stored(s, i, poll), s.transports[i])
  }

  /** A poll on the session's own transport; an exception would leave the session as it was. */
  function AfterPoll(s: Session, poll: PollId): Session
    requires Indexed(s) && s.transports[s.current].Polling?
  {
    var r := AfterPollOn(s, s.current, poll);
    if r.Some? then r.value else s
  }

  /** `PollingTransport::HandleDataRequest` of a transport: it uses the slot that holds a poll. */
  function AfterPostOn(s: Session, i: nat): Session
    requires i < |s.transports| && s.transports[i].Polling?
  {
    s.(posts := s.posts + [s.transports[i].held.None?])
  }

  /** `MaybeUpgrade` to a websocket, whose handshake may fail. */
  function AfterUpgradeRequest(s: Session, accepted: bool): Session {
    s.(transports := s.transports + [Websocket(accepted, accepted, false)], upgrading := Some(|s.transports|))
  }

  /** `MaybeUpgrade` to long polling: the request goes to the new transport before any callback of it is set.  An
      exception out of it leaves the socket as it was. */
  function AfterPollingUpgrade(s: Session, verb: Verb, poll: PollId): Option<Session>
    requires Indexed(s)
  {
    var n := |s.transports|;
    var made := s.(transports := s.transports + [Polling(false, None, false)]);
    var handled :=
      match verb
      case Get => AfterPollOn(made, n, poll)
      case PostVerb => Some(AfterPostOn(made, n))
      case OtherVerb => Some(made);
    if handled.None? then None else Some(handled.value.(upgrading := Some(n)))
  }

  const PROBE: seq<Utf8.Unit> := [112, 114, 111, 98, 101]

  function AfterUpgradingPacket(s: Session, p: Packet): Session
    requires Indexed(s) && s.upgrading.Some?
  {
    if p.kind == PING && p.data == PROBE then
      AfterCreate(SendPackets(s, s.upgrading.value, [Packet(PONG, PROBE)], true), NOOP, [])
    else if p.kind == UPGRADE && s.state != Closed then
      var i := s.upgrading.value;
      s.(upgraded := true, current := i, transports := s.transports[i := s.transports[i].(main := true)])
    else s   // `ForceClose` of the upgrading transport's connection
  }

  function AfterPacket(s: Session, p: Packet): Session
    requires Indexed(s)
  {
    if p.kind == CLOSE then (if s.state == Open then s.(state := Closing) else s)
    else if p.kind == PING then AfterCreate(s, PONG, [])
    else s
  }

  datatype Event =
    | Send(kind: int, data: seq<Utf8.Unit>)              // `SendMessage` by the application
    | Poll(poll: PollId)                                 // GET on a polling transport
    | Post                                               // POST on a polling transport
    | UpgradeRequest(accepted: bool)
    | PollingUpgrade(verb: Verb, poll: PollId)
    | Received(transport: nat, packet: Packet)           // a message on a websocket

  /** A transport that is neither current nor upgrading has been destroyed. */
  predicate Live(s: Session, i: nat) {
    i < |s.transports| && (i == s.current || s.upgrading == Some(i))
  }

  predicate Enabled(s: Session, ev: Event) {
    && Indexed(s)
    && match ev
       case Poll(poll) => s.transports[s.current].Polling? && poll !in s.polls && poll !in s.refused
       case Post => s.transports[s.current].Polling?
       case Received(i, _) => Live(s, i) && s.transports[i].Websocket? && s.transports[i].established
       case _ => true
  }

  function Step(s: Session, ev: Event): Session
    requires Enabled(s, ev)
  {
    match ev
    case Send(kind, data) => AfterCreate(s, kind, data)
    case Poll(poll) => AfterPoll(s, poll)
    case Post => AfterPostOn(s, s.current)
    case UpgradeRequest(accepted) => AfterUpgradeRequest(s, accepted)
    case PollingUpgrade(verb, poll) =>
      var r := AfterPollingUpgrade(s, verb, poll);
      if r.Some? then r.value else s
    case Received(i, p) =>
      if s.transports[i].main then AfterPacket(s, p)
      else if s.upgrading == Some(i) then AfterUpgradingPacket(s, p)
      else s   // not reachable: the current websocket was promoted
  }

  function Run(s: Session, evs: seq<Event>): Session
    decreases |evs|
  {
    if evs == [] then s
    else Run(if Enabled(s, evs[0]) then Step(s, evs[0]) else s, evs[1..])
  }

  /** `Server::Handshake` over long polling: the poll that asks for the session is held, and the Open packet answers
      it. */
  function Handshake(poll: PollId, description: seq<Utf8.Unit>, binary: bool): Session {
    var s := AfterPoll(Start(Polling(false, None, true), binary), poll);
    AfterCreate(s, OPEN, description)
  }

  /** `Server::Handshake` over a websocket: the request is itself an upgrade, so a second transport is made for it. */
  function WebsocketHandshake(accepted: bool, description: seq<Utf8.Unit>, binary: bool): Session {
    AfterCreate(AfterUpgradeRequest(Start(Websocket(false, false, true), binary), accepted), OPEN, description)
  }

  // ------------------------------------------------------------------
  // Invariants.

  /** The packets that went through the write buffer, in the order they were handed to transports. */
  function Flushed(ds: seq<Delivery>): seq<Packet> {
    if ds == [] then []
    else Flushed(ds[..|ds| - 1]) + (if ds[|ds| - 1].direct then [] else ds[|ds| - 1].packets)
  }

  predicate Conserves(s: Session) {
    Flushed(s.deliveries) + s.writeBuffer == s.created
  }

  predicate Sane(t: Transport) {
    match t
    case Polling(w, held, _) => w <==> held.Some?
    case Websocket(w, e, _) => w == e
  }

  /** The current transport is the one whose packets go to `OnPacket`. */
  predicate Current(t: Transport, promoted: bool) {
    t.main && (promoted ==> t.Websocket? && t.established)
  }

  predicate AllSane(s: Session) {
    && Indexed(s) && s.state == Opening
    && (forall i :: 0 <= i < |s.transports| ==> Sane(s.transports[i]))
    && (s.upgrading.Some? ==> s.upgrading.value > 0)
    && (s.upgraded <==> s.current > 0) && (s.upgraded ==> s.upgrading.Some?)
    && (forall i :: 0 < i < |s.transports| ==>
          s.transports[i].Websocket? || s.transports[i] == Polling(false, None, false))
    && Current(s.transports[s.current], s.current > 0)
  }

  /** The poll held, if one is, by the only transport that can hold one. */
  function Held(s: Session): seq<PollId>
    requires |s.transports| > 0
  {
    if HeldPoll(s.transports[0]).Some? then [HeldPoll(s.transports[0]).value] else []
  }

  /** The polls answered with packets, in order. */
  function Answered(ds: seq<Delivery>): seq<PollId> {
    if ds == [] then []
    else Answered(ds[..|ds| - 1]) + (if ds[|ds| - 1].poll.Some? then [ds[|ds| - 1].poll.value] else [])
  }

  predicate Distinct(s: seq<PollId>) {
    forall i, j :: 0 <= i < j < |s| ==> s[i] != s[j]
  }

  /** Every accepted poll was answered or is held, once and in order. */
  predicate PollsPaired(s: Session) {
    && |s.transports| > 0
    && s.polls == Answered(s.deliveries) + Held(s)
    && Distinct(s.polls)
  }

  lemma {:induction false} DeliverySnoc(ds: seq<Delivery>, d: Delivery)
    ensures Flushed(ds + [d]) == Flushed(ds) + (if d.direct then [] else d.packets)
    ensures Answered(ds + [d]) == Answered(ds) + (if d.poll.Some? then [d.poll.value] else [])
  {
    assert (ds + [d])[..|ds|] == ds;
  }

  predicate Good(s: Session) {
    Conserves(s) && AllSane(s) && PollsPaired(s)
  }

  /** Sending a non-empty list keeps every transport as it should be, and pairs the held poll with its answer. */
  lemma SendKeeps(s: Session, i: nat, packets: seq<Packet>, direct: bool)
    requires AllSane(s) && PollsPaired(s) && i < |s.transports| && packets != [] && s.transports[i].writable
    ensures AllSane(SendPackets(s, i, packets, direct)) && PollsPaired(SendPackets(s, i, packets, direct))
  {
    DeliverySnoc(s.deliveries, Delivery(i, packets, HeldPoll(s.transports[i]), direct));
    hide Flushed, Answered;
    var r := SendPackets(s, i, packets, direct);
    if i == 0 && s.transports[0].Polling? {
      assert Held(s) == [s.transports[0].held.value];
      assert r.polls == Answered(r.deliveries) + [];
    } else {
      assert Held(r) == Held(s) && Answered(r.deliveries) == Answered(s.deliveries) + [];
    }
  }

  lemma EmptiedKeeps(s: Session)
    requires AllSane(s) && PollsPaired(s)
    ensures Indexed(s) && AllSane(s.(writeBuffer := [])) && PollsPaired(s.(writeBuffer := []))
  {
    hide Answered;
  }

  lemma FlushKeeps(s: Session)
    requires Good(s)
    ensures Good(AfterFlush(s))
  {
    hide Flushed, Answered, AllSane, PollsPaired;
    EmptiedKeeps(s);
    if s.state != Closed && s.transports[s.current].writable && s.writeBuffer != [] {
      var emptied := s.(writeBuffer := []);
      SendKeeps(emptied, s.current, s.writeBuffer, false);
      DeliverySnoc(s.deliveries, Delivery(s.current, s.writeBuffer, HeldPoll(s.transports[s.current]), false));
      assert AfterFlush(s).created == Flushed(AfterFlush(s).deliveries) + [];
    }
  }

  lemma BufferKeeps(s: Session, p: Packet)
    requires Good(s)
    ensures Good(s.(writeBuffer := s.writeBuffer + [p], created := s.created + [p]))
  {
    hide Flushed, Answered;
    assert Flushed(s.deliveries) + (s.writeBuffer + [p]) == (Flushed(s.deliveries) + s.writeBuffer) + [p];
  }

  lemma CreateKeeps(s: Session, kind: int, data: seq<Utf8.Unit>)
    requires Good(s)
    ensures Good(AfterCreate(s, kind, data))
  {
    hide Flushed, Answered, AfterFlush;
    if IsValidPacketType(kind) {
      var p := Packet(kind, data);
      BufferKeeps(s, p);
      FlushKeeps(s.(writeBuffer := s.writeBuffer + [p], created := s.created + [p]));
    }
  }

  /** The state in which an accepted poll triggers the flush. */
  function Accepted(s: Session, poll: PollId): Session
    requires Indexed(s) && s.transports[s.current].Polling?
  {
    Stored(s, s.current, poll)
  }

  lemma {:induction false} AcceptKeeps(s: Session, poll: PollId)
    requires Good(s) && s.transports[s.current].Polling? && s.transports[s.current].held.None? && poll !in s.polls
    ensures Good(Accepted(s, poll))
  {
    hide Flushed, Answered;
    assert s.current == 0 && Held(s) == [] && Held(Accepted(s, poll)) == [poll];
    assert s.polls == Answered(s.deliveries);
  }

  /** The session's own transport has its flush callback. */
  lemma CurrentPoll(s: Session, poll: PollId)
    requires AllSane(s) && s.transports[s.current].Polling?
    ensures AfterPollOn(s, s.current, poll) == Some(AfterPoll(s, poll))
    ensures s.transports[s.current].held.Some? ==> AfterPoll(s, poll) == s.(refused := s.refused + [poll])
    ensures s.transports[s.current].held.None? ==> AfterPoll(s, poll) == AfterFlush(Accepted(s, poll))
  {
    hide AfterFlush;
  }

  lemma {:induction false} PollKeeps(s: Session, poll: PollId)
    requires Good(s) && s.transports[s.current].Polling? && poll !in s.polls
    ensures Good(AfterPoll(s, poll))
  {
    hide Flushed, Answered, AfterFlush, AfterPoll;
    CurrentPoll(s, poll);
    if s.transports[s.current].held.None? {
      AcceptKeeps(s, poll);
      FlushKeeps(Accepted(s, poll));
    }
  }

  /** The direct answer to a probe. */
  lemma ProbeKeeps(s: Session)
    requires Good(s) && s.upgrading.Some? && s.transports[s.upgrading.value].writable
    ensures Good(SendPackets(s, s.upgrading.value, [Packet(PONG, PROBE)], true))
  {
    hide Answered;
    var r := SendPackets(s, s.upgrading.value, [Packet(PONG, PROBE)], true);
    SendKeeps(s, s.upgrading.value, [Packet(PONG, PROBE)], true);
    DeliverySnoc(s.deliveries, Delivery(s.upgrading.value, [Packet(PONG, PROBE)], None, true));
    hide Flushed;
    assert Flushed(r.deliveries) == Flushed(s.deliveries) + [];
  }

  lemma UpgradingKeeps(s: Session, p: Packet)
    requires Good(s) && s.upgrading.Some? && s.transports[s.upgrading.value].writable
    ensures Good(AfterUpgradingPacket(s, p))
  {
    hide Flushed, Answered;
    if p.kind == PING && p.data == PROBE {
      ProbeKeeps(s);
      CreateKeeps(SendPackets(s, s.upgrading.value, [Packet(PONG, PROBE)], true), NOOP, []);
    }
  }

  lemma UpgradeRequestKeeps(s: Session, accepted: bool)
    requires Good(s)
    ensures Good(AfterUpgradeRequest(s, accepted))
  {
    hide Flushed, Answered;
    var r := AfterUpgradeRequest(s, accepted);
    assert forall i :: 0 <= i < |s.transports| ==> r.transports[i] == s.transports[i];
  }

  /** The new transport of an upgrade has no flush callback, so a poll on it throws; nothing else does. */
  lemma PollingUpgradeThrows(s: Session, verb: Verb, poll: PollId)
    requires Indexed(s)
    ensures AfterPollingUpgrade(s, verb, poll).None? <==> verb == Get
  {
    hide AfterFlush;
  }

  /** What each upgrade request adds: a transport of its kind, with none of the socket's callbacks. */
  lemma UpgradesExact(s: Session, verb: Verb, poll: PollId, accepted: bool)
    requires Indexed(s)
    ensures var n := |s.transports|;
            && AfterUpgradeRequest(s, accepted)
               == s.(transports := s.transports + [Websocket(accepted, accepted, false)], upgrading := Some(n))
            && var made := s.(transports := s.transports + [Polling(false, None, false)], upgrading := Some(n));
               AfterPollingUpgrade(s, verb, poll)
               == match verb
                  case Get => None
                  case PostVerb => Some(made.(posts := s.posts + [true]))
                  case OtherVerb => Some(made)
  {
    PollingUpgradeThrows(s, verb, poll);
  }

  /** A POST on the session's own transport only adds its answer: 200 if no poll is held. */
  lemma PostExact(s: Session)
    requires Good(s) && s.transports[s.current].Polling?
    ensures AfterPostOn(s, s.current) == s.(posts := s.posts + [Held(s) == []])
  {
    hide Conserves, PollsPaired;
  }

  lemma {:induction false} PollingUpgradeKeeps(s: Session, verb: Verb, poll: PollId)
    requires Good(s)
    ensures var r := AfterPollingUpgrade(s, verb, poll);
            r.Some? ==>
              Good(r.value) && r.value.created == s.created && r.value.polls == s.polls && r.value.binary == s.binary
  {
    hide Flushed, Answered, AfterFlush;
    PollingUpgradeThrows(s, verb, poll);
    if verb != Get {
      var r := AfterPollingUpgrade(s, verb, poll).value;
      assert forall i :: 0 <= i < |s.transports| ==> r.transports[i] == s.transports[i];
    }
  }

  lemma StepKeeps(s: Session, ev: Event)
    requires Good(s) && Enabled(s, ev)
    ensures Good(Step(s, ev))
  {
    hide Flushed, Answered, AfterCreate, AfterPoll, AfterUpgradingPacket, AfterUpgradeRequest, AfterPollingUpgrade;
    match ev {
      case Send(kind, data) => CreateKeeps(s, kind, data);
      case Poll(poll) => PollKeeps(s, poll);
      case Post =>
      case UpgradeRequest(accepted) => UpgradeRequestKeeps(s, accepted);
      case PollingUpgrade(verb, poll) => PollingUpgradeKeeps(s, verb, poll);
      case Received(i, p) =>
        if s.transports[i].main {
          if p.kind == PING { CreateKeeps(s, PONG, []); }
        } else if s.upgrading == Some(i) {
          UpgradingKeeps(s, p);
        }
    }
  }

  lemma {:induction false} RunKeeps(s: Session, evs: seq<Event>)
    requires Good(s)
    ensures Good(Run(s, evs))
    decreases |evs|
  {
    hide Good, Step, Enabled;
    if evs != [] {
      if Enabled(s, evs[0]) {
        StepKeeps(s, evs[0]);
        RunKeeps(Step(s, evs[0]), evs[1..]);
      } else {
        RunKeeps(s, evs[1..]);
      }
    }
  }

  /** What `Server::Handshake` creates. */
  predicate Initial(t: Transport) {
    t == Polling(false, None, true) || t == Websocket(false, false, true)
  }

  lemma StartIsGood(first: Transport, binary: bool)
    requires Initial(first)
    ensures Good(Start(first, binary))
  {
  }

  /** Histories only grow. */
  predicate Extends(s: Session, r: Session) {
    s.binary == r.binary && s.created <= r.created && s.deliveries <= r.deliveries && s.polls <= r.polls
  }

  lemma CreateExtends(s: Session, kind: int, data: seq<Utf8.Unit>)
    requires Indexed(s)
    ensures Extends(s, AfterCreate(s, kind, data))
  {
  }

  lemma StepExtends(s: Session, ev: Event)
    requires Enabled(s, ev)
    ensures Extends(s, Step(s, ev))
  {
    hide AfterCreate;
    match ev {
      case Send(kind, data) => CreateExtends(s, kind, data);
      case Received(i, p) =>
        CreateExtends(s, PONG, []);
        if s.upgrading.Some? {
          CreateExtends(SendPackets(s, s.upgrading.value, [Packet(PONG, PROBE)], true), NOOP, []);
        }
      case _ =>
    }
  }

  lemma {:induction false} RunExtends(s: Session, evs: seq<Event>)
    ensures Extends(s, Run(s, evs))
    decreases |evs|
  {
    hide Step, Enabled;
    if evs != [] {
      if Enabled(s, evs[0]) {
        StepExtends(s, evs[0]);
        RunExtends(Step(s, evs[0]), evs[1..]);
      } else {
        RunExtends(s, evs[1..]);
      }
    }
  }

  // ------------------------------------------------------------------
  // Main results.

  /** Whatever requests and messages arrive, and however often the client upgrades: the packets handed to
      transports, followed by those still buffered, are the packets created, in order. */
  lemma {:induction false} PacketsAreConserved(first: Transport, binary: bool, evs: seq<Event>)
    requires Initial(first)
    ensures var s := Run(Start(first, binary), evs);
            Flushed(s.deliveries) + s.writeBuffer == s.created
  {
    hide Run, Flushed;
    StartIsGood(first, binary);
    RunKeeps(Start(first, binary), evs);
  }

  /** Every poll accepted is answered with packets at most once, in order; all but perhaps the last have been, and a
      polling transport is writable exactly while that one is held. */
  lemma {:induction false} PollsAreAnsweredOnce(binary: bool, evs: seq<Event>)
    ensures var s := Run(Start(Polling(false, None, true), binary), evs);
            && |s.transports| > 0 && s.transports[0].Polling? && Distinct(s.polls)
            && s.polls == Answered(s.deliveries) + Held(s)
            && (s.transports[0].writable <==> |s.polls| == |Answered(s.deliveries)| + 1)
  {
    hide Run, Flushed, Answered;
    StartIsGood(Polling(false, None, true), binary);
    RunKeeps(Start(Polling(false, None, true), binary), evs);
    FirstTransportStays(Start(Polling(false, None, true), binary), evs);
  }

  lemma FirstStays(s: Session, ev: Event)
    requires Good(s) && Enabled(s, ev)
    ensures Step(s, ev).transports != [] && (Step(s, ev).transports[0].Polling? <==> s.transports[0].Polling?)
  {
    hide Flushed, Answered, AfterFlush;
    match ev {
      case Send(kind, data) => CreateFirst(s, kind, data);
      case Poll(poll) =>
        FlushFirst(Accepted(s, poll));
      case Post =>
      case UpgradeRequest(accepted) =>
      case PollingUpgrade(verb, poll) =>
      case Received(i, p) =>
        CreateFirst(s, PONG, []);
        if s.upgrading.Some? {
          CreateFirst(SendPackets(s, s.upgrading.value, [Packet(PONG, PROBE)], true), NOOP, []);
        }
    }
  }

  lemma FlushFirst(s: Session)
    requires Indexed(s)
    ensures AfterFlush(s).transports != [] && (AfterFlush(s).transports[0].Polling? <==> s.transports[0].Polling?)
  {
  }

  lemma CreateFirst(s: Session, kind: int, data: seq<Utf8.Unit>)
    requires Indexed(s)
    ensures var r := AfterCreate(s, kind, data);
            r.transports != [] && (r.transports[0].Polling? <==> s.transports[0].Polling?)
  {
    hide AfterFlush;
    var p := Packet(kind, data);
    FlushFirst(s.(writeBuffer := s.writeBuffer + [p], created := s.created + [p]));
  }

  lemma {:induction false} FirstTransportStays(s: Session, evs: seq<Event>)
    requires Good(s)
    ensures Run(s, evs).transports != [] && (Run(s, evs).transports[0].Polling? <==> s.transports[0].Polling?)
    decreases |evs|
  {
    hide Step, Enabled;
    if evs != [] {
      if Enabled(s, evs[0]) {
        FirstStays(s, evs[0]);
        StepKeeps(s, evs[0]);
        FirstTransportStays(Step(s, evs[0]), evs[1..]);
      } else {
        FirstTransportStays(s, evs[1..]);
      }
    }
  }

  /** A websocket that has become the session's transport is writable ever after, and nothing moves the session out
      of its opening state, so `ForceClose` never does anything. */
  lemma {:induction false} WebsocketStaysWritable(first: Transport, binary: bool, evs: seq<Event>)
    requires Initial(first)
    ensures var s := Run(Start(first, binary), evs);
            && Indexed(s) && s.state == Opening
            && (s.current > 0 ==> s.transports[s.current].Websocket? && s.transports[s.current].writable)
            && (s.upgraded <==> s.current > 0)
  {
    hide Run, Flushed, Answered;
    StartIsGood(first, binary);
    RunKeeps(Start(first, binary), evs);
  }

  /** The handshake's poll is answered at once with the Open packet, and only that. */
  lemma HandshakeAnswersOpen(poll: PollId, description: seq<Utf8.Unit>, binary: bool)
    ensures var s := Handshake(poll, description, binary);
            && Good(s) && s.created == [Packet(OPEN, description)] && s.polls == [poll]
            && s.deliveries == [Delivery(0, [Packet(OPEN, description)], Some(poll), false)]
  {
    var start := Start(Polling(false, None, true), binary);
    StartIsGood(start.transports[0], binary);
    PollKeeps(start, poll);
    CreateKeeps(AfterPoll(start, poll), OPEN, description);
  }

  /** Whatever follows a handshake over long polling, the Open packet is the first thing handed to a transport. */
  lemma {:induction false} OpenComesFirst(poll: PollId, description: seq<Utf8.Unit>, binary: bool, evs: seq<Event>)
    ensures var s := Run(Handshake(poll, description, binary), evs);
            s.deliveries != [] && s.deliveries[0] == Delivery(0, [Packet(OPEN, description)], Some(poll), false)
  {
    hide Run, Flushed;
    HandshakeAnswersOpen(poll, description, binary);
    RunExtends(Handshake(poll, description, binary), evs);
  }

  lemma WebsocketHandshakeIsGood(accepted: bool, description: seq<Utf8.Unit>, binary: bool)
    ensures Good(WebsocketHandshake(accepted, description, binary))
    ensures WebsocketHandshake(accepted, description, binary).created == [Packet(OPEN, description)]
  {
    var s := Start(Websocket(false, false, true), binary);
    StartIsGood(s.transports[0], binary);
    UpgradeRequestKeeps(s, accepted);
    CreateKeeps(AfterUpgradeRequest(s, accepted), OPEN, description);
  }

  /** Over a websocket the Open packet is the first one flushed, and it waits until the client has sent an upgrade
      packet on the connection it opened. */
  lemma {:induction false} OpenIsFlushedFirst(accepted: bool, description: seq<Utf8.Unit>, binary: bool,
        evs: seq<Event>)
    ensures var s := Run(WebsocketHandshake(accepted, description, binary), evs);
            && (Flushed(s.deliveries) == [] || Flushed(s.deliveries)[0] == Packet(OPEN, description))
            && (s.current == 0 ==> Flushed(s.deliveries) == [])
  {
    hide Run, Flushed;
    var s := WebsocketHandshake(accepted, description, binary);
    WebsocketHandshakeIsGood(accepted, description, binary);
    RunExtends(s, evs);
    RunKeeps(s, evs);
    var r := Run(s, evs);
    assert r.created[0] == Packet(OPEN, description);
    assert (Flushed(r.deliveries) + r.writeBuffer)[0] == r.created[0];
    NothingBeforePromotion(s, evs);
  }

  /** A session begun over a websocket: the transport of the handshake is never connected. */
  predicate Unconnected(s: Session) {
    && s.transports != [] && s.transports[0] == Websocket(false, false, true)
    && (s.current == 0 ==> Flushed(s.deliveries) == [])
  }

  lemma UnconnectedStep(s: Session, ev: Event)
    requires Good(s) && Unconnected(s) && Enabled(s, ev)
    ensures Unconnected(Step(s, ev))
  {
    hide Flushed, Answered;
    if ev.Received? && s.upgrading.Some? {
      DeliverySnoc(s.deliveries, Delivery(s.upgrading.value, [Packet(PONG, PROBE)], None, true));
    }
  }

  lemma {:induction false} NothingBeforePromotion(s: Session, evs: seq<Event>)
    requires Good(s) && Unconnected(s)
    ensures Unconnected(Run(s, evs))
    decreases |evs|
  {
    hide Step, Enabled, Good, Unconnected;
    if evs != [] {
      if Enabled(s, evs[0]) {
        StepKeeps(s, evs[0]);
        UnconnectedStep(s, evs[0]);
        NothingBeforePromotion(Step(s, evs[0]), evs[1..]);
      } else {
        NothingBeforePromotion(s, evs[1..]);
      }
    }
  }

  /** The packets an event creates: what the application sends, if its type is known; a pong for each ping on the
      session's transport; and a Noop for each probe on the transport it may upgrade to. */
  function Creates(s: Session, ev: Event): seq<Packet>
    requires Enabled(s, ev)
  {
    match ev
    case Send(kind, data) => if 0 <= kind <= 6 then [Packet(kind, data)] else []
    case Received(i, p) =>
      if p.kind != PING then []
      else if s.transports[i].main then [Packet(PONG, [])]
      else if p.data == PROBE then [Packet(NOOP, [])]
      else []
    case _ => []
  }

  predicate IsProbe(s: Session, ev: Event)
    requires Enabled(s, ev)
  {
    ev.Received? && !s.transports[ev.transport].main && ev.packet == Packet(PING, PROBE)
  }

  /** A poll that is not refused. */
  predicate Accepts(s: Session, ev: Event)
    requires Enabled(s, ev)
  {
    ev.Poll? && s.transports[s.current].held.None?
  }

  /** The poll that a flush in this event answers. */
  function Answers(s: Session, ev: Event): Option<PollId>
    requires Indexed(s)
  {
    if ev.Poll? then Some(ev.poll) else HeldPoll(s.transports[s.current])
  }

  lemma CreateExact(s: Session, kind: int, data: seq<Utf8.Unit>)
    requires Indexed(s) && s.state == Opening && IsValidPacketType(kind)
    ensures var r := AfterCreate(s, kind, data); var all := s.writeBuffer + [Packet(kind, data)];
            && r.created == s.created + [Packet(kind, data)] && r.current == s.current
            && r.deliveries
               == s.deliveries
                  + (if s.transports[s.current].writable
                     then [Delivery(s.current, all, HeldPoll(s.transports[s.current]), false)] else [])
            && r.writeBuffer == if s.transports[s.current].writable then [] else all
  {
  }

  /** What every event creates and delivers.  A probe is answered on its own transport, past the buffer.  If the event
      creates a packet while the session's transport is writable, or is an accepted poll while packets wait, all that
      waits goes out in one delivery, which answers the poll that is held. */
  lemma StepExact(s: Session, ev: Event)
    requires Good(s) && Enabled(s, ev)
    ensures var r := Step(s, ev);
            var probe := if IsProbe(s, ev) then [Delivery(ev.transport, [Packet(PONG, PROBE)], None, true)] else [];
            var all := s.writeBuffer + Creates(s, ev);
            var goes := all != []
                        && (Accepts(s, ev) || (Creates(s, ev) != [] && s.transports[s.current].writable));
            && r.created == s.created + Creates(s, ev)
            && r.deliveries
               == s.deliveries + probe + (if goes then [Delivery(s.current, all, Answers(s, ev), false)] else [])
            && r.writeBuffer == if goes then [] else all
  {
    hide Conserves, PollsPaired, AfterCreate, AfterFlush, AfterPoll, AfterPollingUpgrade;
    match ev {
      case Send(kind, data) =>
        if IsValidPacketType(kind) { CreateExact(s, kind, data); } else { UnknownType(s, kind, data); }
      case Poll(poll) =>
        PollExact(s, poll);
        assert s.writeBuffer + [] == s.writeBuffer;
      case Received(i, p) => ReceivedExact(s, i, p);
      case PollingUpgrade(verb, poll) => UpgradesExact(s, verb, poll, true);
      case _ =>
    }
  }

  lemma PollExact(s: Session, poll: PollId)
    requires Good(s) && s.transports[s.current].Polling?
    ensures var r := AfterPoll(s, poll); var goes := s.transports[s.current].held.None? && s.writeBuffer != [];
            && r.created == s.created && r.writeBuffer == (if goes then [] else s.writeBuffer)
            && r.deliveries
               == s.deliveries + (if goes then [Delivery(s.current, s.writeBuffer, Some(poll), false)] else [])
  {
    hide Conserves, PollsPaired, AfterFlush, AfterPoll;
    CurrentPoll(s, poll);
    if s.transports[s.current].held.None? {
      FlushExact(Accepted(s, poll));
    }
  }

  lemma FlushExact(s: Session)
    requires Indexed(s) && s.state == Opening && s.transports[s.current].writable
    ensures var r := AfterFlush(s);
            && r.created == s.created && r.writeBuffer == []
            && r.deliveries
               == s.deliveries + (if s.writeBuffer != []
                                  then [Delivery(s.current, s.writeBuffer, HeldPoll(s.transports[s.current]), false)]
                                  else [])
  {
  }

  lemma ReceivedExact(s: Session, i: nat, p: Packet)
    requires Good(s) && Enabled(s, Received(i, p))
    ensures var ev := Received(i, p); var r := Step(s, ev);
            var probe := if IsProbe(s, ev) then [Delivery(i, [Packet(PONG, PROBE)], None, true)] else [];
            var all := s.writeBuffer + Creates(s, ev);
            var goes := Creates(s, ev) != [] && s.transports[s.current].writable;
            && r.created == s.created + Creates(s, ev)
            && r.deliveries
               == s.deliveries + probe + (if goes then [Delivery(s.current, all, Answers(s, ev), false)] else [])
            && r.writeBuffer == if goes then [] else all
  {
    hide Conserves, PollsPaired, AfterCreate, AfterFlush;
    if p.kind == PING && s.transports[i].main {
      CreateExact(s, PONG, []);
    } else if p.kind == PING && p.data == PROBE {
      CreateExact(SendPackets(s, i, [Packet(PONG, PROBE)], true), NOOP, []);
    }
  }

  /** The client's own list of packet types, by their numbers. */
  const PACKETS_LIST := ["open", "close", "ping", "pong", "message", "upgrade", "noop"]

  /** Server and client number the packet types alike, and the server accepts exactly those of the client. */
  lemma SharedTypes(kind: int)
    ensures IsValidPacketType(kind) <==> 0 <= kind < |PACKETS_LIST|
    ensures PACKETS_LIST[OPEN] == "open" && PACKETS_LIST[CLOSE] == "close" && PACKETS_LIST[PING] == "ping"
    ensures PACKETS_LIST[PONG] == "pong" && PACKETS_LIST[UPGRADE] == "upgrade" && PACKETS_LIST[NOOP] == "noop"
  {
  }

  /** What can always happen to a session: the application sends, a poll or a POST comes while its transport is long
      polling, an upgrade is asked for, and a packet comes on a connected websocket that is its transport or may
      become it. */
  lemma AlwaysPossible(s: Session, ev: Event)
    requires Good(s)
    requires match ev
             case Poll(poll) => s.transports[s.current].Polling? && poll !in s.polls && poll !in s.refused
             case Post => s.transports[s.current].Polling?
             case Received(i, _) =>
               (i == s.current && i > 0)
               || (s.upgrading == Some(i) && s.transports[i].Websocket? && s.transports[i].established)
             case _ => true
    ensures Enabled(s, ev)
  {
  }

  /** "probe". */
  lemma ProbeText()
    ensures |PROBE| == 5 && PROBE[0] == 'p' as Utf8.Unit && PROBE[1] == 'r' as Utf8.Unit && PROBE[2] == 'o' as Utf8.Unit
    ensures PROBE[3] == 'b' as Utf8.Unit && PROBE[4] == 'e' as Utf8.Unit
  {
  }

  /** Packets wait although the transport could take them. */
  predicate Stranded(s: Session) {
    Indexed(s) && s.writeBuffer != [] && s.transports[s.current].writable
  }

  /** The upgrade packet, on a websocket that is not yet the session's transport. */
  predicate Promotes(s: Session, ev: Event)
    requires Enabled(s, ev)
  {
    ev.Received? && !s.transports[ev.transport].main && ev.packet.kind == UPGRADE
  }

  /** The one step that strands packets is the promotion of a websocket while some are buffered: `SetTransport` does
      not flush. */
  lemma StrandedExactly(s: Session, ev: Event)
    requires Good(s) && Enabled(s, ev) && !Stranded(s)
    ensures Stranded(Step(s, ev)) <==> Promotes(s, ev) && s.writeBuffer != []
  {
    hide Conserves, PollsPaired, AfterPoll, AfterCreate, AfterFlush, AfterPollingUpgrade, Stranded;
    match ev {
      case Send(kind, data) => CreateDrains(s, kind, data);
      case Poll(poll) =>
        CurrentPoll(s, poll);
        FlushDrains(Accepted(s, poll));
        SameStranded(s, s.(refused := s.refused + [poll]));
      case Received(i, p) => ReceivedStrands(s, i, p);
      case PollingUpgrade(verb, poll) => PollingUpgradeStrands(s, verb, poll);
      case _ => SameStranded(s, Step(s, ev));
    }
  }

  lemma ReceivedStrands(s: Session, i: nat, p: Packet)
    requires Good(s) && Enabled(s, Received(i, p)) && !Stranded(s)
    ensures Stranded(Step(s, Received(i, p))) <==> Promotes(s, Received(i, p)) && s.writeBuffer != []
  {
    hide Conserves, PollsPaired, AfterCreate, AfterFlush, Stranded;
    if s.transports[i].main {
      CreateDrains(s, PONG, []);
    } else if p.kind == PING && p.data == PROBE {
      CreateDrains(SendPackets(s, i, [Packet(PONG, PROBE)], true), NOOP, []);
    } else if p.kind == UPGRADE {
      PromotionStrands(s, i, p);
    }
  }

  lemma PollingUpgradeStrands(s: Session, verb: Verb, poll: PollId)
    requires Indexed(s)
    ensures Indexed(Step(s, PollingUpgrade(verb, poll)))
    ensures Stranded(Step(s, PollingUpgrade(verb, poll))) <==> Stranded(s)
  {
    hide AfterFlush;
    PollingUpgradeThrows(s, verb, poll);
  }

  lemma FlushDrains(s: Session)
    requires Indexed(s) && s.state == Opening
    ensures !Stranded(AfterFlush(s))
  {
  }

  lemma CreateDrains(s: Session, kind: int, data: seq<Utf8.Unit>)
    requires Indexed(s) && s.state == Opening
    ensures IsValidPacketType(kind) || !Stranded(s) ==> !Stranded(AfterCreate(s, kind, data))
  {
    hide AfterFlush;
    if IsValidPacketType(kind) {
      var p := Packet(kind, data);
      FlushDrains(s.(writeBuffer := s.writeBuffer + [p], created := s.created + [p]));
    }
  }

  lemma SameStranded(s: Session, r: Session)
    requires Indexed(s) && Indexed(r) && s.writeBuffer == r.writeBuffer && s.current == r.current
    requires s.transports[s.current] == r.transports[s.current]
    ensures Stranded(s) <==> Stranded(r)
  {
  }

  lemma PromotionStrands(s: Session, i: nat, p: Packet)
    requires Good(s) && s.upgrading == Some(i) && s.transports[i].Websocket? && s.transports[i].established
    requires p.kind == UPGRADE
    ensures var r := AfterUpgradingPacket(s, p);
            Stranded(r) <==> s.writeBuffer != []
  {
    hide Flushed, Answered;
  }

  lemma StrandedFlush(s: Session, kind: int, data: seq<Utf8.Unit>)
    requires Stranded(s) && s.state != Closed && IsValidPacketType(kind)
    ensures var r := AfterCreate(s, kind, data);
            && r.writeBuffer == [] && r.created == s.created + [Packet(kind, data)] && r.deliveries != []
            && r.deliveries[|r.deliveries| - 1].packets == s.writeBuffer + [Packet(kind, data)]
  {
  }

  lemma UnknownType(s: Session, kind: int, data: seq<Utf8.Unit>)
    requires Indexed(s) && !IsValidPacketType(kind)
    ensures AfterCreate(s, kind, data) == s
  {
  }

  /** Stranded packets wait until the next packet is created, and leave with it. */
  lemma StrandedUntilNextPacket(s: Session, ev: Event)
    requires Good(s) && Enabled(s, ev) && Stranded(s)
    ensures Step(s, ev).created == s.created ==> Step(s, ev).writeBuffer == s.writeBuffer
    ensures var r := Step(s, ev);
            r.created != s.created ==>
              && r.writeBuffer == [] && r.created != [] && r.deliveries != []
              && r.deliveries[|r.deliveries| - 1].packets == s.writeBuffer + [r.created[|r.created| - 1]]
  {
    hide Flushed, Answered, AfterCreate;
    match ev {
      case Send(kind, data) =>
        if IsValidPacketType(kind) { StrandedFlush(s, kind, data); } else { UnknownType(s, kind, data); }
      case Poll(poll) =>
      case Post =>
      case UpgradeRequest(accepted) =>
      case PollingUpgrade(verb, poll) =>
      case Received(i, p) =>
        StrandedFlush(s, PONG, []);
        if s.upgrading == Some(i) {
          var r := SendPackets(s, i, [Packet(PONG, PROBE)], true);
          StrandedFlush(r, NOOP, []);
        }
    }
  }

  lemma StrandedStays(s: Session, ev: Event)
    requires Good(s) && Enabled(s, ev) && Stranded(s)
    ensures Stranded(Step(s, ev)) <==> Step(s, ev).created == s.created
  {
    hide Conserves, PollsPaired, AfterPoll, AfterCreate, AfterFlush, AfterPollingUpgrade, Stranded;
    match ev {
      case Send(kind, data) =>
        if IsValidPacketType(kind) { CreateEnds(s, kind, data); } else { UnknownType(s, kind, data); }
      case Poll(poll) =>
        StrandedIsWritable(s);
        CurrentPoll(s, poll);
        SameStranded(s, s.(refused := s.refused + [poll]));
      case Received(i, p) => StrandedReceived(s, i, p);
      case PollingUpgrade(verb, poll) =>
        PollingUpgradeStrands(s, verb, poll);
        UpgradesExact(s, verb, poll, true);
      case _ => SameStranded(s, Step(s, ev));
    }
  }

  lemma StrandedReceived(s: Session, i: nat, p: Packet)
    requires Good(s) && Enabled(s, Received(i, p)) && Stranded(s)
    ensures var r := Step(s, Received(i, p)); Stranded(r) <==> r.created == s.created
  {
    hide Conserves, PollsPaired, AfterCreate, AfterFlush, Stranded;
    StrandedIsWritable(s);
    if p.kind == PING && s.transports[i].main {
      CreateEnds(s, PONG, []);
    } else if p.kind == PING && p.data == PROBE && s.upgrading == Some(i) {
      CreateEnds(SendPackets(s, i, [Packet(PONG, PROBE)], true), NOOP, []);
    } else if p.kind == UPGRADE && !s.transports[i].main && s.upgrading == Some(i) {
      PromotionStrands(s, i, p);
    } else {
      SameStranded(s, Step(s, Received(i, p)));
    }
  }

  lemma CreateEnds(s: Session, kind: int, data: seq<Utf8.Unit>)
    requires Indexed(s) && s.state == Opening && IsValidPacketType(kind)
    ensures var r := AfterCreate(s, kind, data); r.created != s.created && !Stranded(r)
  {
    hide AfterCreate, Stranded;
    CreateDrains(s, kind, data);
    CreateGrows(s, kind, data);
  }

  lemma StrandedIsWritable(s: Session)
    requires Stranded(s)
    ensures Indexed(s) && s.transports[s.current].writable && s.writeBuffer != []
  {
  }

  lemma CreateGrows(s: Session, kind: int, data: seq<Utf8.Unit>)
    requires Indexed(s) && IsValidPacketType(kind)
    ensures AfterCreate(s, kind, data).created == s.created + [Packet(kind, data)]
  {
  }


  lemma PromotionCreatesNothing(s: Session, ev: Event)
    requires Good(s) && Enabled(s, ev) && Promotes(s, ev)
    ensures Step(s, ev).created == s.created
  {
    hide Flushed, Answered, AfterCreate;
  }

  lemma {:induction false} RunParts(s: Session, evs: seq<Event>, fvs: seq<Event>)
    ensures Run(s, evs + fvs) == Run(Run(s, evs), fvs)
    decreases |evs|
  {
    hide Enabled, Step;
    if evs == [] {
      assert [] + fvs == fvs;
    } else {
      assert (evs + fvs)[1..] == evs[1..] + fvs;
      RunParts(if Enabled(s, evs[0]) then Step(s, evs[0]) else s, evs[1..], fvs);
    }
  }

  lemma {:induction false} RunOne(s: Session, ev: Event)
    ensures Run(s, [ev]) == if Enabled(s, ev) then Step(s, ev) else s
    ensures Run(s, []) == s
  {
    hide Enabled, Step;
    assert [ev][1..] == [];
  }

  /** Event `k` of the run promotes a websocket while packets are buffered, and no packet is created from then to the
      end. */
  predicate StrandsAt(s: Session, evs: seq<Event>, k: nat) {
    k < |evs|
    && var m := Run(s, evs[..k]);
       Enabled(m, evs[k]) && Promotes(m, evs[k]) && m.writeBuffer != [] && Run(s, evs).created == m.created
  }

  lemma {:induction false} EarlierStrands(s: Session, evs: seq<Event>, ev: Event, k: nat)
    requires k < |evs|
    ensures StrandsAt(s, evs + [ev], k)
            <==> StrandsAt(s, evs, k) && Run(s, evs + [ev]).created == Run(s, evs).created
  {
    hide Run, Step, Enabled, Promotes;
    assert (evs + [ev])[..k] == evs[..k] && evs[..k] + evs[k..] == evs;
    RunParts(s, evs[..k], evs[k..]);
    RunParts(s, evs, [ev]);
    RunExtends(Run(s, evs[..k]), evs[k..]);
    RunExtends(Run(s, evs), [ev]);
  }

  lemma {:induction false} LastStrands(s: Session, evs: seq<Event>, ev: Event)
    requires Good(Run(s, evs))
    ensures var m := Run(s, evs);
            StrandsAt(s, evs + [ev], |evs|) <==> Enabled(m, ev) && Promotes(m, ev) && m.writeBuffer != []
  {
    hide Run, Step, Enabled, Promotes, Good;
    assert (evs + [ev])[..|evs|] == evs;
    RunParts(s, evs, [ev]);
    RunOne(Run(s, evs), ev);
    if Enabled(Run(s, evs), ev) && Promotes(Run(s, evs), ev) {
      PromotionCreatesNothing(Run(s, evs), ev);
    }
  }

  /** At the end of any run, packets are stranded if and only if some promotion found packets in the buffer and no
      packet has been created since. */
  lemma {:induction false} StrandedAtEndExactly(s: Session, evs: seq<Event>)
    requires Good(s) && !Stranded(s)
    ensures Stranded(Run(s, evs)) <==> exists k :: StrandsAt(s, evs, k)
    decreases |evs|
  {
    hide Run, Good, Stranded, Step, Enabled, Promotes;
    if evs == [] {
      RunOne(s, Post);
      return;
    }
    hide StrandsAt;
    var n := |evs| - 1;
    var pre, ev := evs[..n], evs[n];
    var m := Run(s, pre);
    assert evs == pre + [ev];
    StrandedAtEndExactly(s, pre);
    RunKeeps(s, pre);
    RunParts(s, pre, [ev]);
    RunOne(m, ev);
    forall k: nat ensures StrandsAt(s, evs, k) ==> k < |evs| {
      StrandsInside(s, evs, k);
    }
    forall k: nat ensures StrandsAt(s, pre, k) ==> k < n {
      StrandsInside(s, pre, k);
    }
    forall k: nat | k < n
      ensures StrandsAt(s, evs, k) <==> StrandsAt(s, pre, k) && Run(s, evs).created == m.created
    {
      EarlierStrands(s, pre, ev, k);
    }
    LastStrands(s, pre, ev);
    if Enabled(m, ev) {
      if Stranded(m) {
        StrandedStays(m, ev);
        if Promotes(m, ev) {
          PromotionCreatesNothing(m, ev);
        }
      } else {
        StrandedExactly(m, ev);
      }
    }
  }

  lemma StrandsInside(s: Session, evs: seq<Event>, k: nat)
    ensures StrandsAt(s, evs, k) ==> k < |evs|
  {
  }

  /** As long as no client completes an upgrade, nothing is ever stranded. */
  lemma {:induction false} NeverStrandedWithoutUpgrade(s: Session, evs: seq<Event>)
    requires Good(s) && !Stranded(s)
    requires forall i :: 0 <= i < |evs| && evs[i].Received? ==> evs[i].packet.kind != UPGRADE
    ensures !Stranded(Run(s, evs))
    decreases |evs|
  {
    hide Step, Enabled, Good, Stranded;
    if evs != [] {
      if Enabled(s, evs[0]) {
        StepKeeps(s, evs[0]);
        StrandedExactly(s, evs[0]);
        NeverStrandedWithoutUpgrade(Step(s, evs[0]), evs[1..]);
      } else {
        NeverStrandedWithoutUpgrade(s, evs[1..]);
      }
    }
  }

  lemma UpgradedStep(s: Session, ev: Event)
    requires Good(s) && Enabled(s, ev) && s.current > 0
    ensures var r := Step(s, ev);
            r.current > 0 && r.transports != [] && r.transports[0] == s.transports[0] && r.polls == s.polls
  {
    hide Flushed, Answered, AfterCreate, AfterFlush;
    match ev {
      case Send(kind, data) => UpgradedCreate(s, kind, data);
      case Received(i, p) =>
        UpgradedCreate(s, PONG, []);
        if s.upgrading == Some(i) {
          UpgradedCreate(SendPackets(s, i, [Packet(PONG, PROBE)], true), NOOP, []);
        }
      case _ =>
    }
  }

  lemma UpgradedCreate(s: Session, kind: int, data: seq<Utf8.Unit>)
    requires Indexed(s) && s.current > 0
    ensures var r := AfterCreate(s, kind, data);
            r.current == s.current && r.transports != [] && r.transports[0] == s.transports[0] && r.polls == s.polls
  {
  }

  /** After an upgrade the polling transport is never used again: a poll held at that moment is held forever. */
  lemma {:induction false} HeldPollIsAbandoned(s: Session, evs: seq<Event>)
    requires Good(s) && s.current > 0
    ensures var r := Run(s, evs);
            r.transports != [] && Held(r) == Held(s) && Answered(r.deliveries) == Answered(s.deliveries)
    decreases |evs|
  {
    hide Step, Enabled;
    if evs != [] {
      if Enabled(s, evs[0]) {
        var r := Step(s, evs[0]);
        StepKeeps(s, evs[0]);
        UpgradedStep(s, evs[0]);
        assert |Answered(r.deliveries)| == |r.polls| - |Held(r)|;
        assert Answered(r.deliveries) == r.polls[..|r.polls| - |Held(r)|];
        HeldPollIsAbandoned(r, evs[1..]);
      } else {
        HeldPollIsAbandoned(s, evs[1..]);
      }
    }
  }

  /** A poll that is held can still be answered exactly as long as no websocket has become the session's transport. */
  lemma {:induction false} HeldPollExact(s: Session)
    requires Good(s) && Held(s) != []
    ensures s.current == 0 <==> exists evs :: Run(s, evs).transports != [] && Held(Run(s, evs)) == []
  {
    if s.current == 0 {
      AnyPacketAnswers(s);
    } else {
      forall evs ensures Run(s, evs).transports != [] && Held(Run(s, evs)) == Held(s) {
        HeldPollIsAbandoned(s, evs);
      }
    }
  }

  lemma {:induction false} AnyPacketAnswers(s: Session)
    requires Good(s) && Held(s) != [] && s.current == 0
    ensures var r := Run(s, [Send(NOOP, [])]); r.transports != [] && Held(r) == []
  {
    hide Flushed, Answered;
    var e := [Send(NOOP, [])];
    var r := Step(s, e[0]);
    assert Run(r, e[1..]) == r;
  }

  /** Such a poll exists: one held when the client's upgrade packet arrives. */
  lemma UpgradeAbandonsPoll(binary: bool)
    ensures var s := Run(Handshake(1, [], binary), [Poll(2), UpgradeRequest(true), Received(1, Packet(UPGRADE, []))]);
            Good(s) && s.current > 0 && Held(s) == [2]
  {
    hide Flushed, Answered;
    HandshakeAnswersOpen(1, [], binary);
    var e := [Poll(2), UpgradeRequest(true), Received(1, Packet(UPGRADE, []))];
    var s0 := Handshake(1, [], binary);
    assert s0.transports == [Polling(false, None, true)];
    RunKeeps(s0, e);
    var s1 := Step(s0, e[0]);
    var s2 := Step(s1, e[1]);
    var s3 := Step(s2, e[2]);
    assert e[1..][0] == e[1] && e[1..][1..][0] == e[2];
    assert Run(s3, e[1..][1..][1..]) == s3;
    assert Run(s2, e[1..][1..]) == s3;
    assert Run(s1, e[1..]) == s3;
  }

  /** The usual upgrade, with a message sent while no poll was held: the message and the Noop are stranded. */
  lemma UpgradeStrandsMessage(binary: bool)
    ensures var s := Run(Handshake(1, [], binary), UsualUpgrade());
            Stranded(s) && s.writeBuffer == [Packet(4, [104, 105]), Packet(NOOP, [])]
  {
    hide Flushed, Answered;
    var s0 := Handshake(1, [], binary);
    var e := UsualUpgrade();
    var s1 := Step(s0, e[0]);
    var s2 := Step(s1, e[1]);
    var s3 := Step(s2, e[2]);
    var s4 := Step(s3, e[3]);
    assert e[1..][0] == e[1] && e[1..][1..][0] == e[2] && e[1..][1..][1..][0] == e[3];
    assert Run(s4, e[1..][1..][1..][1..]) == s4;
    assert Run(s3, e[1..][1..][1..]) == s4;
    assert Run(s2, e[1..][1..]) == s4;
    assert Run(s1, e[1..]) == s4;
  }

  /** The next ping on the new transport brings them, in front of its pong. */
  lemma {:induction false} PingFreesMessage(s: Session)
    requires Good(s) && s.current > 0 && Stranded(s)
    ensures var r := Run(s, [Received(s.current, Packet(PING, []))]);
            && r.writeBuffer == []
            && r.deliveries == s.deliveries + [Delivery(s.current, s.writeBuffer + [Packet(PONG, [])], None, false)]
  {
    var ev := Received(s.current, Packet(PING, []));
    AlwaysPossible(s, ev);
    StepExact(s, ev);
    RunOne(s, ev);
    hide Conserves, PollsPaired, Step;
  }

  function UsualUpgrade(): seq<Event> {
    [Send(4, [104, 105]), UpgradeRequest(true), Received(1, Packet(PING, PROBE)), Received(1, Packet(UPGRADE, []))]
  }

  /** A POST is served if and only if no poll is held: both use the same slot. */
  lemma {:induction false} PostServedExactly(binary: bool, evs: seq<Event>)
    ensures var s := Run(Start(Polling(false, None, true), binary), evs);
            Enabled(s, Post) ==> Step(s, Post).posts == s.posts + [|s.polls| == |Answered(s.deliveries)|]
  {
    hide Run, Flushed, Answered;
    var start := Start(Polling(false, None, true), binary);
    StartIsGood(start.transports[0], binary);
    RunKeeps(start, evs);
  }

  // ------------------------------------------------------------------
  // The objects.

  const OK: seq<Utf8.Unit> := [79, 75]

  datatype Content = Nothing | Html | PlainUtf8 | OctetStream

  /** An HTTP response that has been ended. */
  datatype Reply = Reply(request: PollId, status: nat, content: Content, body: seq<Utf8.Unit>)

  /** `EncodePayload`, in the form the client asked for. */
  function Body(binary: bool, packets: seq<Packet>): seq<Utf8.Unit>
    requires AllSendable(packets)
  {
    if binary then EncodePayloadAsBinary(packets) else EncodePayload(packets)
  }

  /** `PollingXhrTransport`.  A request is named by a number; `resp` is the stored response. */
  class PollingXhrTransport {
    var req: Option<PollId>
    var resp: PollId
    var writable: bool
    var isSupportBinary: bool
    var main: bool                 // the socket has set its callbacks
    var replies: seq<Reply>        // every response ended, in order

    constructor (first: PollId)
      ensures Value() == Polling(false, None, false) && replies == [] && !isSupportBinary
    {
      req, resp, writable, isSupportBinary, main, replies := None, first, false, false, false, [];
    }

    ghost function Value(): Transport
      reads this
    {
      Polling(writable, req, main)
    }

    /** A poll to be answered later is stored; a second one is refused.  The caller triggers the flush. */
    method HandlePollRequest(poll: PollId) returns (triggersFlush: bool)
      modifies this`req, this`resp, this`writable, this`replies
      ensures triggersFlush == old(req).None?
      ensures triggersFlush ==> Value() == Polling(true, Some(poll), main) && resp == poll && replies == old(replies)
      ensures !triggersFlush ==> Value() == old(Value()) && resp == old(resp)
      ensures !triggersFlush ==> replies == old(replies) + [Reply(poll, 500, Nothing, [])]
    {
      if req.Some? {
        replies := replies + [Reply(poll, 500, Nothing, [])];
        return false;
      }
      req, resp := Some(poll), poll;
      writable := true;
      triggersFlush := true;
    }

    /** A POST is answered at once, and leaves the slot as it was. */
    method HandleDataRequest(post: PollId)
      modifies this`req, this`replies
      ensures Value() == old(Value())
      ensures replies
              == old(replies) + [if old(req).Some? then Reply(post, 500, Nothing, []) else Reply(post, 200, Html, OK)]
    {
      if req.Some? {
        replies := replies + [Reply(post, 500, Nothing, [])];
        return;
      }
      req := Some(post);
      // `DecodePayload` of the body yields nothing.
      replies := replies + [Reply(post, 200, Html, OK)];
      req := None;
    }

    method DoWrite(data: seq<Utf8.Unit>)
      modifies this`req, this`replies
      ensures replies == old(replies) + [Reply(resp, 200, if isSupportBinary then OctetStream else PlainUtf8, data)]
      ensures req == None
    {
      var content := if isSupportBinary then OctetStream else PlainUtf8;
      replies := replies + [Reply(resp, 200, content, data)];
      CleanUp();
    }

    method CleanUp()
      modifies this`req
      ensures req == None
    {
      req := None;
    }

    /** The stored response carries the payload of the packets in the client's form, and the slot is free. */
    method SendPackets(packets: seq<Packet>)
      requires AllSendable(packets)
      modifies this`req, this`writable, this`replies
      ensures Value() == AfterSending(old(Value()), packets)
      ensures var content := if isSupportBinary then OctetStream else PlainUtf8;
              replies == old(replies) + [Reply(resp, 200, content, Body(isSupportBinary, packets))]
    {
      var data: seq<Utf8.Unit>;
      if isSupportBinary {
        data := EncodePayloadAsBinaryLoop(packets);
      } else {
        data := EncodePayloadLoop(packets);
      }
      DoWrite(data);
      writable := false;
    }
  }

  lemma {:induction false} EncodedSnoc(ps: seq<Packet>, p: Packet)
    requires AllSendable(ps) && Sendable(p)
    ensures AllSendable(ps + [p]) && Encoded(ps + [p]) == Encoded(ps) + [EncodePacket(p)]
  {
    hide EncodePacket;
    if ps == [] {
      assert ps + [p] == [p];
    } else {
      assert (ps + [p])[1..] == ps[1..] + [p];
      EncodedSnoc(ps[1..], p);
    }
  }

  class WebsocketTransport {
    var established: bool
    var writable: bool
    const main: bool
    var sent: seq<seq<Utf8.Unit>>        // text messages given to the websocket handler
    var refused: nat                     // requests answered 400

    constructor (main: bool)
      ensures Value() == Websocket(false, false, main) && sent == [] && refused == 0
    {
      this.main := main;
      established, writable, sent, refused := false, false, [], 0;
    }

    ghost function Value(): Transport
      reads this
    {
      Websocket(writable, established, main)
    }

    /** An upgrade whose handshake succeeds makes the transport writable; anything else is answered 400. */
    method HandleRequest(isUpgrade: bool, handshake: bool)
      modifies this
      ensures isUpgrade && handshake ==> Value() == Websocket(true, true, main) && refused == old(refused)
      ensures !(isUpgrade && handshake) ==> Value() == old(Value()) && refused == old(refused) + 1
      ensures sent == old(sent)
    {
      if isUpgrade && handshake {
        established := true;
        writable := true;
        return;
      }
      refused := refused + 1;
    }

    /** One message a packet, in order; writable again afterwards unless the list was empty. */
    method SendPackets(packets: seq<Packet>)
      requires AllSendable(packets)
      modifies this
      ensures Value() == AfterSending(old(Value()), packets)
      ensures sent == old(sent) + Encoded(packets) && refused == old(refused) && (writable <==> packets != [])
    {
      hide EncodePacket;
      writable := false;
      var it := 0;
      while it < |packets|
        invariant 0 <= it <= |packets|
        invariant writable == (it > 0) && established == old(established) && refused == old(refused)
        invariant sent == old(sent) + Encoded(packets[..it])
      {
        var data := EncodePacket(packets[it]);
        assert packets[..it + 1] == packets[..it] + [packets[it]];
        EncodedSnoc(packets[..it], packets[it]);
        sent := sent + [data];
        writable := true;
        it := it + 1;
      }
      assert packets[..|packets|] == packets;
    }
  }

  class Socket {
    const binary: bool                     // of the first transport
    var state: State
    var transports: seq<Transport>
    var transport: nat                     // the current one, by its place in `transports`
    var upgradingTransport: Option<nat>
    var upgraded: bool
    var writeBuffer: seq<Packet>
    ghost var created: seq<Packet>
    ghost var deliveries: seq<Delivery>
    ghost var polls: seq<PollId>
    ghost var refused: seq<PollId>
    ghost var posts: seq<bool>

    ghost function Snapshot(): Session
      reads this
    {
      Session(binary, state, transports, transport, upgradingTransport, upgraded, writeBuffer,
              created, deliveries, polls, refused, posts)
    }

    /** Packets are accounted for, polls are paired, and every transport is writable exactly when it should be. */
    ghost predicate Valid()
      reads this
    {
      Good(Snapshot())
    }

    /** Nothing waits for a transport that could take it. */
    ghost predicate Drained()
      requires Indexed(Snapshot())
      reads this
    {
      writeBuffer == [] || !transports[transport].writable
    }

    constructor (first: Transport, binary: bool)
      requires Initial(first)
      ensures Valid() && Snapshot() == Start(first, binary) && Drained()
    {
      this.binary := binary;
      state, transports, transport, upgradingTransport, upgraded := Opening, [first], 0, None, false;
      writeBuffer, created, deliveries, polls, refused, posts := [], [], [], [], [], [];
      new;
      StartIsGood(first, binary);
    }

    /** The virtual `SendPackets` of transport `i`. */
    method SendOn(i: nat, packets: seq<Packet>, ghost direct: bool)
      requires i < |transports|
      modifies this`deliveries, this`transports
      ensures Snapshot() == SendPackets(old(Snapshot()), i, packets, direct)
    {
      deliveries := deliveries + [Delivery(i, packets, HeldPoll(transports[i]), direct)];
      transports := transports[i := AfterSending(transports[i], packets)];
    }

    /** Everything buffered goes out if it can, and what goes out is what was buffered. */
    method Flush()
      requires Valid()
      modifies this`writeBuffer, this`deliveries, this`transports
      ensures Valid() && Drained()
      ensures Snapshot() == AfterFlush(old(Snapshot()))
      ensures Flushed(deliveries) + writeBuffer == old(Flushed(deliveries) + writeBuffer)
    {
      hide Flushed, Answered;
      FlushKeeps(Snapshot());
      if state != Closed && transports[transport].writable && writeBuffer != [] {
        var packets := writeBuffer;
        writeBuffer := [];
        SendOn(transport, packets, false);
      }
    }

    /** A packet of a known type joins the account, and leaves at once with all before it if it can. */
    method CreateAndSendPacket(kind: int, data: seq<Utf8.Unit>)
      requires Valid()
      modifies this`writeBuffer, this`created, this`deliveries, this`transports
      ensures Valid() && Snapshot() == AfterCreate(old(Snapshot()), kind, data)
      ensures created == old(created) + (if IsValidPacketType(kind) then [Packet(kind, data)] else [])
      ensures IsValidPacketType(kind) || old(Drained()) ==> Drained()
    {
      hide Flushed, Answered, AfterFlush;
      CreateKeeps(Snapshot(), kind, data);
      if !IsValidPacketType(kind) {
        return;
      }
      var packet := Packet(kind, data);
      BufferKeeps(Snapshot(), packet);
      writeBuffer := writeBuffer + [packet];
      created := created + [packet];
      Flush();
    }

    /** A GET on the current polling transport, whose flush callback is this socket's `Flush`: accepted exactly when
        no poll is held, and then answered with whatever was buffered or held for the next packet. */
    method HandlePollRequest(poll: PollId)
      requires Valid() && transports[transport].Polling? && poll !in polls
      modifies this
      ensures Valid() && Snapshot() == AfterPoll(old(Snapshot()), poll)
      ensures polls == old(polls) + (if old(Held(Snapshot())) == [] then [poll] else [])
      ensures old(Held(Snapshot())) == [] ==>
                writeBuffer == [] && Held(Snapshot()) == if old(writeBuffer) == [] then [poll] else []
    {
      hide Flushed, Answered;
      PollKeeps(Snapshot(), poll);
      if transports[transport].held.Some? {
        refused := refused + [poll];
        return;
      }
      AcceptKeeps(Snapshot(), poll);
      transports := transports[transport := transports[transport].(writable := true, held := Some(poll))];
      polls := polls + [poll];
      Flush();
    }

    /** A new transport whose packets go to the upgrade handler; what the session sends goes where it went. */
    method MaybeUpgrade(accepted: bool)
      requires Valid()
      modifies this`upgradingTransport, this`transports
      ensures Valid() && Snapshot() == AfterUpgradeRequest(old(Snapshot()), accepted)
      ensures transports[transport] == old(transports[transport])
      ensures upgradingTransport.Some? && !transports[upgradingTransport.value].main
      ensures transports[upgradingTransport.value].writable == accepted
    {
      hide Flushed, Answered;
      UpgradeRequestKeeps(Snapshot(), accepted);
      upgradingTransport := Some(|transports|);
      transports := transports + [Websocket(accepted, accepted, false)];
    }

    /** From now on the transport's packets go to `OnPacket`, and its flushes to `Flush`; nothing else about any
        transport changes. */
    method SetTransport(i: nat)
      requires i < |transports|
      modifies this`transports
      ensures |transports| == |old(transports)|
      ensures forall j :: 0 <= j < |transports| ==>
                transports[j] == if j == i then old(transports)[j].(main := true) else old(transports)[j]
    {
      transports := transports[i := transports[i].(main := true)];
    }

    /** A packet on the connected upgrading websocket.  A probe is answered past the buffer, and the Noop after it
        frees a held poll; the upgrade packet switches to a writable transport and moves no packet. */
    method OnPacketWhenUpgrading(packet: Packet)
      requires Valid() && upgradingTransport.Some?
      requires transports[upgradingTransport.value].Websocket? && transports[upgradingTransport.value].established
      modifies this
      ensures Valid() && Snapshot() == AfterUpgradingPacket(old(Snapshot()), packet)
      ensures packet.kind == PING && packet.data == PROBE ==>
                created == old(created) + [Packet(NOOP, [])] && Drained() && transport == old(transport)
      ensures packet.kind == PING && packet.data == PROBE && transports[transport].Polling? ==> Held(Snapshot()) == []
      ensures packet.kind == UPGRADE ==>
                && transport == old(upgradingTransport.value) && transports[transport].writable
                && transports[transport].main
                && created == old(created) && writeBuffer == old(writeBuffer) && deliveries == old(deliveries)
    {
      hide Flushed, Answered;
      UpgradingKeeps(Snapshot(), packet);
      if packet.kind == PING && packet.data == PROBE {
        ProbeKeeps(Snapshot());
        SendOn(upgradingTransport.value, [Packet(PONG, PROBE)], true);
        CreateAndSendPacket(NOOP, []);
      } else if packet.kind == UPGRADE && state != Closed {
        upgraded := true;
        transport := upgradingTransport.value;
        SetTransport(transport);
        ghost var r := AfterUpgradingPacket(old(Snapshot()), packet);
        assert forall j :: 0 <= j < |transports| ==> transports[j] == r.transports[j];
      }
    }

    /** Every ping on the session's transport creates one pong; nothing else changes anything while the session is
        opening. */
    method OnPacket(packet: Packet)
      requires Valid()
      modifies this
      ensures Valid() && Snapshot() == AfterPacket(old(Snapshot()), packet)
      ensures packet.kind == PING ==> created == old(created) + [Packet(PONG, [])] && Drained()
      ensures packet.kind != PING ==> Snapshot() == old(Snapshot())
    {
      hide Flushed, Answered;
      if packet.kind == CLOSE {
        ForceClose();
      } else if packet.kind == PING {
        CreateAndSendPacket(PONG, []);
      }
    }

    method ForceClose()
      modifies this`state
      ensures state == if old(state) == Open then Closing else old(state)
    {
      if state == Open {
        state := Closing;
      }
    }
  }
}
