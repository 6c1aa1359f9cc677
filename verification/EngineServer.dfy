/** `engineio::Server`: which requests are refused, which session each reaches, and what every session keeps. */
module EngineServers {
  import opened Options
  import opened EngineSockets
  import opened Payloads

  type Sid = string

  datatype Name = PollingName | WebsocketName

  /** What the server reads of a request.  An absent parameter and an empty one are alike to it. */
  datatype Request = Request(
    prefixed: bool,              // the URL starts with `path_prefix_`
    verb: Verb,
    transport: Option<Name>,     // `None`: absent, or not one of `Transports`
    sid: Sid,
    isUpgrade: bool,
    handshake: bool,             // whether the websocket handshake it carries succeeds
    b64: bool)                   // has the parameter `b64`: the client takes no binary payloads

  datatype ErrorCode = UnknownTransport | UnknownSid | BadHandshakeMethod | BadRequest

  datatype Refusal = Refusal(request: PollId, code: ErrorCode)

  datatype Server = Server(
    sockets: map<Sid, Session>,
    next: PollId,                // the number of the next request
    refusals: seq<Refusal>,
    unopened: set<Sid>)          // sessions whose handshake threw before their Open packet

  function NameOf(s: Session): Name
    requires Indexed(s)
  {
    if s.transports[s.current].Polling? then PollingName else WebsocketName
  }

  predicate AllIndexed(sockets: map<Sid, Session>) {
    forall sid :: sid in sockets ==> Indexed(sockets[sid])
  }

  /** `VerifyRequest`: the error answered, if any. */
  function Verify(sockets: map<Sid, Session>, req: Request): Option<ErrorCode>
    requires AllIndexed(sockets)
  {
    if req.transport.None? then Some(UnknownTransport)
    else if req.sid == "" then
      if req.verb != Get then Some(BadHandshakeMethod) else None
    else if req.sid !in sockets then Some(UnknownSid)
    else if !req.isUpgrade && NameOf(sockets[req.sid]) != req.transport.value then Some(BadRequest)
    else None
  }

  /** `Socket::HandleRequest`, for a request whose transport is the session's or that is an upgrade; `None` is an
      exception out of it. */
  function Dispatch(s: Session, req: Request, id: PollId): Option<Session>
    requires Indexed(s)
  {
    if req.isUpgrade then
      if req.transport == Some(PollingName) then AfterPollingUpgrade(s, req.verb, id)
      else Some(AfterUpgradeRequest(s, req.handshake))
    else if s.transports[s.current].Polling? then
      match req.verb
      case Get => AfterPollOn(s, s.current, id)
      case PostVerb => Some(AfterPostOn(s, s.current))
      case OtherVerb => Some(s)     // 500
    else Some(s)                    // 400: a websocket takes no plain requests
  }

  /** The session a handshake puts in the map: its transport has the socket's callbacks. */
  function Fresh(name: Name, b64: bool): Session {
    Start(if name == PollingName then Polling(false, None, true) else Websocket(false, false, true), !b64)
  }

  /** What the request leaves of that session: it is dispatched before the Open packet is sent, and an exception skips
      the Open packet. */
  function NewSession(name: Name, req: Request, id: PollId, description: seq<Utf8.Unit>): Session {
    var s := Dispatch(Fresh(name, req.b64), req, id);
    if s.None? then Fresh(name, req.b64) else AfterCreate(s.value, OPEN, description)
  }

  function AfterRequest(v: Server, req: Request, newSid: Sid, description: seq<Utf8.Unit>): Server
    requires AllIndexed(v.sockets)
  {
    var error := Verify(v.sockets, req);
    var counted := v.(next := v.next + 1);
    if !req.prefixed then counted
    else if error.Some? then counted.(refusals := v.refusals + [Refusal(v.next, error.value)])
    else if req.sid == "" then
      var name := req.transport.value;
      counted.(sockets := v.sockets[newSid := NewSession(name, req, v.next, description)],
               unopened := if Dispatch(Fresh(name, req.b64), req, v.next).None? then v.unopened + {newSid}
                           else v.unopened - {newSid})
    else
      var s := Dispatch(v.sockets[req.sid], req, v.next);
      if s.None? then counted else counted.(sockets := v.sockets[req.sid := s.value])
  }

  datatype ServerEvent =
    | Http(req: Request, newSid: Sid, description: seq<Utf8.Unit>)
    | Inside(sid: Sid, ev: Event)      // the application sends, or a websocket receives
    | Close(sid: Sid)                  // `OnSocketClose`

  predicate Possible(v: Server, e: ServerEvent) {
    && AllIndexed(v.sockets)
    && match e
       case Http(_, newSid, _) => newSid != ""
       case Inside(sid, ev) => sid in v.sockets && (ev.Send? || ev.Received?) && Enabled(v.sockets[sid], ev)
       case Close(sid) => sid in v.sockets
  }

  function ServerStep(v: Server, e: ServerEvent): Server
    requires Possible(v, e)
  {
    match e
    case Http(req, newSid, description) => AfterRequest(v, req, newSid, description)
    case Inside(sid, ev) => v.(sockets := v.sockets[sid := Step(v.sockets[sid], ev)])
    case Close(sid) => v.(sockets := v.sockets - {sid}, unopened := v.unopened - {sid})
  }

  function ServerRun(v: Server, es: seq<ServerEvent>): Server
    decreases |es|
  {
    if es == [] then v
    else ServerRun(if Possible(v, es[0]) then ServerStep(v, es[0]) else v, es[1..])
  }

  // ------------------------------------------------------------------
  // Facts about one event.

  /** The first applicable error of a request is the one recorded, and a refused request changes no session: an
      unknown transport before anything else; then, without a session, any verb but GET; and with one, a session that
      is not there, or a plain request on another transport than the session's. */
  lemma RefusedExactly(v: Server, req: Request, newSid: Sid, description: seq<Utf8.Unit>, code: ErrorCode)
    requires AllIndexed(v.sockets) && req.prefixed
    ensures var r := AfterRequest(v, req, newSid, description);
            var known := req.sid in v.sockets;
            var applies := match code
                           case UnknownTransport => req.transport.None?
                           case BadHandshakeMethod => req.transport.Some? && req.sid == "" && req.verb != Get
                           case UnknownSid => req.transport.Some? && req.sid != "" && !known
                           case BadRequest =>
                             && req.transport.Some? && req.sid != "" && known && !req.isUpgrade
                             && NameOf(v.sockets[req.sid]) != req.transport.value;
            && (r.refusals == v.refusals + [Refusal(v.next, code)] <==> applies)
            && (applies ==> r.sockets == v.sockets)
            && (r.refusals == v.refusals || |r.refusals| == |v.refusals| + 1)
  {
    hide Dispatch, NewSession;
    var r := AfterRequest(v, req, newSid, description);
    if Verify(v.sockets, req).Some? {
      assert r.refusals[|v.refusals|] == Refusal(v.next, Verify(v.sockets, req).value);
    }
  }

  /** The session an event is for. */
  function Addressed(e: ServerEvent): Sid {
    match e
    case Http(req, newSid, _) => if req.sid == "" then newSid else req.sid
    case Inside(sid, _) => sid
    case Close(sid) => sid
  }

  /** An event leaves every session but the one it addresses as it was, present or not. */
  lemma SessionsAreIsolated(v: Server, e: ServerEvent, other: Sid)
    requires Possible(v, e) && other != Addressed(e)
    ensures other in ServerStep(v, e).sockets <==> other in v.sockets
    ensures other in v.sockets ==> ServerStep(v, e).sockets[other] == v.sockets[other]
  {
    hide Step, Dispatch, NewSession, Enabled, Verify;
  }

  // ------------------------------------------------------------------
  // Invariants.

  /** A session keeps its own invariant, its polls are requests already seen, and unless its handshake threw it
      began with an Open packet. */
  predicate Kept(s: Session, next: PollId, unopened: bool) {
    && Good(s) && (unopened || (s.created != [] && s.created[0].kind == OPEN))
    && (forall i :: 0 <= i < |s.polls| ==> s.polls[i] < next)
  }

  predicate AllKept(v: Server) {
    && "" !in v.sockets && v.unopened <= v.sockets.Keys
    && forall sid :: sid in v.sockets ==> Kept(v.sockets[sid], v.next, sid in v.unopened)
  }

  lemma CreatePolls(s: Session, kind: int, data: seq<Utf8.Unit>)
    requires Indexed(s)
    ensures AfterCreate(s, kind, data).polls == s.polls && AfterCreate(s, kind, data).binary == s.binary
    ensures IsValidPacketType(kind) ==> AfterCreate(s, kind, data).created == s.created + [Packet(kind, data)]
  {
  }

  lemma PollPolls(s: Session, id: PollId)
    requires Indexed(s) && s.transports[s.current].Polling?
    ensures AfterPoll(s, id).polls == s.polls || AfterPoll(s, id).polls == s.polls + [id]
    ensures AfterPoll(s, id).created == s.created
    ensures AfterPoll(s, id).binary == s.binary
  {
  }

  /** A request makes the session throw if and only if it is a GET for an upgrade to long polling. */
  lemma ThrowsExactly(s: Session, req: Request, id: PollId)
    requires Good(s)
    ensures Dispatch(s, req, id).None? <==> req.isUpgrade && req.transport == Some(PollingName) && req.verb == Get
  {
    hide Conserves, PollsPaired, AfterPollOn, AfterPollingUpgrade;
    PollingUpgradeThrows(s, req.verb, id);
    if s.transports[s.current].Polling? {
      CurrentPoll(s, id);
    }
  }

  lemma DispatchKeeps(s: Session, req: Request, id: PollId)
    requires Good(s) && forall i :: 0 <= i < |s.polls| ==> s.polls[i] < id
    ensures var r := Dispatch(s, req, id);
            r.Some? ==>
              && Good(r.value) && s.created == r.value.created && s.binary == r.value.binary
              && forall i :: 0 <= i < |r.value.polls| ==> r.value.polls[i] < id + 1
  {
    hide AfterPoll, AfterPollOn, AfterPollingUpgrade, Conserves, PollsPaired;
    if req.isUpgrade {
      UpgradeRequestKeeps(s, req.handshake);
      PollingUpgradeKeeps(s, req.verb, id);
    } else if s.transports[s.current].Polling? && req.verb == Get {
      CurrentPoll(s, id);
      PollKeeps(s, id);
      PollPolls(s, id);
    } else if s.transports[s.current].Polling? && req.verb == PostVerb {
      StepKeeps(s, Post);
    }
  }

  lemma GoodIsIndexed(s: Session)
    requires Good(s)
    ensures Indexed(s)
  {
  }

  lemma NewSessionKept(name: Name, req: Request, id: PollId, description: seq<Utf8.Unit>)
    ensures var thrown := Dispatch(Fresh(name, req.b64), req, id).None?;
            var s := NewSession(name, req, id, description);
            && Kept(s, id + 1, thrown) && s.binary == !req.b64
            && s.created == if thrown then [] else [Packet(OPEN, description)]
  {
    hide Good, Dispatch, AfterCreate, Indexed;
    var start := Fresh(name, req.b64);
    StartIsGood(start.transports[0], !req.b64);
    GoodIsIndexed(start);
    DispatchKeeps(start, req, id);
    var s := Dispatch(start, req, id);
    if s.Some? {
      GoodIsIndexed(s.value);
      CreateKeeps(s.value, OPEN, description);
      CreatePolls(s.value, OPEN, description);
    }
  }

  lemma InsideKeeps(s: Session, ev: Event, next: PollId, unopened: bool)
    requires Kept(s, next, unopened) && Enabled(s, ev) && (ev.Send? || ev.Received?)
    ensures Kept(Step(s, ev), next, unopened)
  {
    hide Good;
    StepKeeps(s, ev);
    StepExtends(s, ev);
    SamePolls(s, ev);
    hide Step;
  }

  lemma SamePolls(s: Session, ev: Event)
    requires Enabled(s, ev) && (ev.Send? || ev.Received?)
    ensures Step(s, ev).polls == s.polls
  {
  }

  lemma ServerStepKeeps(v: Server, e: ServerEvent)
    requires AllKept(v) && Possible(v, e)
    ensures AllKept(ServerStep(v, e))
  {
    hide Good, Step, Dispatch, NewSession, Enabled;
    match e {
      case Http(req, newSid, description) =>
        if req.prefixed && Verify(v.sockets, req).None? {
          if req.sid == "" {
            NewSessionKept(req.transport.value, req, v.next, description);
          } else {
            DispatchKeeps(v.sockets[req.sid], req, v.next);
          }
        }
      case Inside(sid, ev) => InsideKeeps(v.sockets[sid], ev, v.next, sid in v.unopened);
      case Close(sid) =>
    }
  }

  // ------------------------------------------------------------------
  // Main results.

  lemma {:induction false} ServerRunKeeps(v: Server, es: seq<ServerEvent>)
    requires AllKept(v)
    ensures AllKept(ServerRun(v, es))
    decreases |es|
  {
    hide AllKept, Possible, ServerStep;
    if es != [] {
      if Possible(v, es[0]) {
        ServerStepKeeps(v, es[0]);
        ServerRunKeeps(ServerStep(v, es[0]), es[1..]);
      } else {
        ServerRunKeeps(v, es[1..]);
      }
    }
  }

  const EMPTY_SERVER := Server(map[], 0, [], {})

  lemma EmptyServer()
    ensures AllKept(EMPTY_SERVER)
  {
  }

  /** In every run of a server, every session in the map conserves its packets, pairs its polls and begins with its
      Open packet, whatever reaches the other sessions; a handshake that throws leaves one without an Open packet.
      */
  lemma {:induction false} EverySessionIsKept(es: seq<ServerEvent>, sid: Sid)
    requires sid in ServerRun(EMPTY_SERVER, es).sockets
    ensures var v := ServerRun(EMPTY_SERVER, es);
            var s := v.sockets[sid];
            && Flushed(s.deliveries) + s.writeBuffer == s.created
            && |s.transports| > 0 && s.polls == Answered(s.deliveries) + Held(s) && Distinct(s.polls)
            && (sid !in v.unopened ==> s.created != [] && s.created[0].kind == OPEN)
  {
    hide ServerRun, Flushed, Answered, AllSane, Distinct;
    EmptyServer();
    ServerRunKeeps(EMPTY_SERVER, es);
  }

  /** What the Open packet of a handshake has come to when the request is done: sent, or buffered, or not created. */
  lemma NewSessionOpens(name: Name, req: Request, id: PollId, description: seq<Utf8.Unit>)
    requires req.verb == Get && req.transport == Some(name)
    ensures var s := NewSession(name, req, id, description);
            var open := [Packet(OPEN, description)];
            if name == WebsocketName then s.deliveries == [] && s.writeBuffer == open
            else if req.isUpgrade then s.deliveries == [] && s.writeBuffer == []
            else s.deliveries == [Delivery(0, open, Some(id), false)] && s.writeBuffer == []
  {
    var start := Fresh(name, req.b64);
    StartIsGood(start.transports[0], !req.b64);
    ThrowsExactly(start, req, id);
    if name == PollingName && !req.isUpgrade {
      HandshakeAnswersOpen(id, description, !req.b64);
      CurrentPoll(start, id);
      assert NewSession(name, req, id, description) == Handshake(id, description, !req.b64);
    }
  }

  /** After a handshake that is let through, exactly: the Open packet has been sent if and only if it was a plain GET
      over long polling; it waits in the buffer if and only if the transport is a websocket; and none was created if
      and only if the request asked to upgrade to long polling, whose exception leaves the session in the map. */
  lemma HandshakeOpensExactly(v: Server, req: Request, newSid: Sid, description: seq<Utf8.Unit>)
    requires AllIndexed(v.sockets) && req.prefixed && req.sid == "" && Verify(v.sockets, req).None?
    ensures var r := AfterRequest(v, req, newSid, description);
            newSid in r.sockets
            && var s, open := r.sockets[newSid], [Packet(OPEN, description)];
            && (Flushed(s.deliveries) == open <==> req.transport == Some(PollingName) && !req.isUpgrade)
            && (s.writeBuffer == open <==> req.transport == Some(WebsocketName))
            && (s.created == [] <==> req.transport == Some(PollingName) && req.isUpgrade)
            && (newSid in r.unopened <==> s.created == [])
            && s.binary == !req.b64
  {
    hide Good, Dispatch, NewSession;
    var name := req.transport.value;
    NewSessionKept(name, req, v.next, description);
    NewSessionOpens(name, req, v.next, description);
    var s := NewSession(name, req, v.next, description);
    StartIsGood(Fresh(name, req.b64).transports[0], !req.b64);
    ThrowsExactly(Fresh(name, req.b64), req, v.next);
    DeliverySnoc([], Delivery(0, [Packet(OPEN, description)], Some(v.next), false));
  }

  /** A plain GET that is let through reaches the polling transport it was meant for: the poll is then held,
      answered by this very request, or refused because another is held. */
  lemma PollReachesItsSession(v: Server, req: Request, newSid: Sid, description: seq<Utf8.Unit>)
    requires AllKept(v) && AllIndexed(v.sockets) && req.prefixed && Verify(v.sockets, req).None?
    requires req.sid != "" && !req.isUpgrade && req.transport == Some(PollingName) && req.verb == Get
    ensures var s := v.sockets[req.sid];
            var r := AfterRequest(v, req, newSid, description).sockets[req.sid];
            if Held(s) != [] then r == s.(refused := s.refused + [v.next])
            else if s.writeBuffer != [] then
              r.writeBuffer == [] && r.polls == s.polls + [v.next] && Held(r) == []
              && r.deliveries == s.deliveries + [Delivery(s.current, s.writeBuffer, Some(v.next), false)]
            else
              r.polls == s.polls + [v.next] && Held(r) == [v.next] && r.deliveries == s.deliveries
  {
    hide Conserves, PollsPaired;
    assert Kept(v.sockets[req.sid], v.next, req.sid in v.unopened);
    CurrentPoll(v.sockets[req.sid], v.next);
  }

  /** What a request other than a plain poll makes of a session. */
  function Served(s: Session, req: Request): Session
    requires |s.transports| > 0
  {
    var added := s.(upgrading := Some(|s.transports|));
    if req.isUpgrade && req.transport == Some(WebsocketName) then
      added.(transports := s.transports + [Websocket(req.handshake, req.handshake, false)])
    else if req.isUpgrade then
      match req.verb
      case Get => s
      case PostVerb => added.(transports := s.transports + [Polling(false, None, false)], posts := s.posts + [true])
      case OtherVerb => added.(transports := s.transports + [Polling(false, None, false)])
    else if req.transport == Some(PollingName) && req.verb == PostVerb then
      s.(posts := s.posts + [Held(s) == []])
    else s
  }

  lemma DispatchServes(s: Session, req: Request, id: PollId)
    requires Good(s) && req.transport.Some? && (req.isUpgrade || req.transport == Some(NameOf(s)))
    requires req.isUpgrade || req.transport == Some(WebsocketName) || req.verb != Get
    ensures var r := Dispatch(s, req, id); (if r.Some? then r.value else s) == Served(s, req)
  {
    hide Conserves, PollsPaired, AfterPollOn, AfterPostOn, AfterPollingUpgrade, AfterUpgradeRequest, Held;
    UpgradesExact(s, req.verb, id, req.handshake);
    if req.isUpgrade {
      match req.transport.value {
        case PollingName =>
        case WebsocketName =>
      }
    } else if s.transports[s.current].Polling? {
      PostExact(s);
    }
  }

  /** Every other request that is let through to a session.  A plain POST is answered at once, with 200 if no poll is
      held, and nothing else of the session changes.  Any other plain request changes nothing.  An upgrade to a
      websocket adds a transport that is writable if and only if its handshake succeeded; one to long polling adds a
      transport, and a GET for it throws and changes nothing. */
  lemma OtherRequestsExact(v: Server, req: Request, newSid: Sid, description: seq<Utf8.Unit>)
    requires AllKept(v) && AllIndexed(v.sockets) && req.prefixed && Verify(v.sockets, req).None? && req.sid != ""
    requires req.isUpgrade || req.transport == Some(WebsocketName) || req.verb != Get
    ensures |v.sockets[req.sid].transports| > 0
    ensures AfterRequest(v, req, newSid, description).sockets
            == v.sockets[req.sid := Served(v.sockets[req.sid], req)]
  {
    hide Good, Dispatch, NewSession, Served;
    assert Kept(v.sockets[req.sid], v.next, req.sid in v.unopened);
    DispatchServes(v.sockets[req.sid], req, v.next);
  }

  lemma KeptIsIndexed(v: Server)
    requires AllKept(v)
    ensures AllIndexed(v.sockets)
  {
  }

  /** Any request may come at any time, and so may whatever the sessions themselves allow. */
  lemma AlwaysPossible(v: Server, e: ServerEvent)
    requires AllKept(v)
    requires match e
             case Http(_, newSid, _) => newSid != ""
             case Inside(sid, ev) => sid in v.sockets && (ev.Send? || ev.Received?) && Enabled(v.sockets[sid], ev)
             case Close(sid) => sid in v.sockets
    ensures Possible(v, e)
  {
    KeptIsIndexed(v);
    hide AllKept, Enabled;
  }

  /** A request whose URL does not have the prefix changes nothing. */
  lemma UnprefixedIgnored(v: Server, req: Request, newSid: Sid, description: seq<Utf8.Unit>)
    requires AllIndexed(v.sockets) && !req.prefixed
    ensures var r := AfterRequest(v, req, newSid, description);
            r.sockets == v.sockets && r.refusals == v.refusals && r.unopened == v.unopened && r.next == v.next + 1
  {
    hide Dispatch, NewSession;
  }

  // ------------------------------------------------------------------
  // The object.

  class EngineServer {
    var sockets: map<Sid, Session>
    var next: PollId
    var refusals: seq<Refusal>
    ghost var unopened: set<Sid>

    ghost function Snapshot(): Server
      reads this
    {
      Server(sockets, next, refusals, unopened)
    }

    ghost predicate Valid()
      reads this
    {
      AllKept(Snapshot()) && AllIndexed(sockets)
    }

    constructor ()
      ensures Valid() && Snapshot() == EMPTY_SERVER
    {
      sockets, next, refusals, unopened := map[], 0, [], {};
    }

    method VerifyRequest(req: Request, id: PollId) returns (ok: bool)
      requires AllIndexed(sockets)
      modifies this`refusals
      ensures ok == Verify(sockets, req).None?
      ensures refusals == old(refusals) + (if ok then [] else [Refusal(id, Verify(sockets, req).value)])
    {
      if req.transport.None? {
        HandleRequestError(id, UnknownTransport);
        return false;
      }
      if req.sid == "" {
        if req.verb != Get {
          HandleRequestError(id, BadHandshakeMethod);
          return false;
        }
      } else {
        if req.sid !in sockets {
          HandleRequestError(id, UnknownSid);
          return false;
        }
        if !req.isUpgrade && NameOf(sockets[req.sid]) != req.transport.value {
          HandleRequestError(id, BadRequest);
          return false;
        }
      }
      ok := true;
    }

    method HandleRequestError(id: PollId, code: ErrorCode)
      modifies this`refusals
      ensures refusals == old(refusals) + [Refusal(id, code)]
    {
      refusals := refusals + [Refusal(id, code)];
    }

    /** The session a verified request names is always there. */
    method HandleRequest(req: Request, newSid: Sid, description: seq<Utf8.Unit>)
      requires Valid() && Possible(Snapshot(), Http(req, newSid, description))
      modifies this
      ensures Valid() && Snapshot() == AfterRequest(old(Snapshot()), req, newSid, description)
    {
      hide Kept, Dispatch, NewSession, Indexed;
      ServerStepKeeps(Snapshot(), Http(req, newSid, description));
      KeptIsIndexed(AfterRequest(Snapshot(), req, newSid, description));
      var id := next;
      next := next + 1;
      if !req.prefixed {
        return;
      }
      var ok := VerifyRequest(req, id);
      if !ok {
        return;
      }
      if req.sid == "" {
        var name := req.transport.value;
        sockets := sockets[newSid := NewSession(name, req, id, description)];
        StartIsGood(Fresh(name, req.b64).transports[0], !req.b64);
        GoodIsIndexed(Fresh(name, req.b64));
        ghost var thrown := Dispatch(Fresh(name, req.b64), req, id).None?;
        unopened := if thrown then unopened + {newSid} else unopened - {newSid};
      } else {
        var s := Dispatch(sockets[req.sid], req, id);
        if s.Some? {
          sockets := sockets[req.sid := s.value];
        }
      }
    }

    method OnSocketClose(sid: Sid)
      requires Valid()
      modifies this`sockets, this`unopened
      ensures Valid() && sockets == old(sockets) - {sid}
    {
      hide Kept;
      unopened := unopened - {sid};
      sockets := sockets - {sid};
    }
  }
}
