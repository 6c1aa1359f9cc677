/** What the client makes of the deliveries of a session: binary polls, text polls and websocket messages. */
module EngineClients {
  import opened Options
  import opened EngineSockets
  import opened Payloads
  import opened PollTexts

  /** Every list handed to a transport is non-empty and can be encoded. */
  predicate Encodable(s: Session) {
    && AllSendable(s.writeBuffer)
    && forall i :: 0 <= i < |s.deliveries| ==> Carries(s.deliveries[i])
  }

  predicate Carries(d: Delivery) {
    d.packets != [] && AllSendable(d.packets)
  }

  lemma FlushEncodable(s: Session)
    requires Indexed(s) && Encodable(s)
    ensures Encodable(AfterFlush(s))
  {
    assert AllSendable([]);
    hide AllSendable;
  }

  lemma CreateEncodable(s: Session, kind: int, data: seq<Utf8.Unit>)
    requires Indexed(s) && Encodable(s)
    ensures Encodable(AfterCreate(s, kind, data))
  {
    hide AfterFlush;
    if IsValidPacketType(kind) {
      var p := Packet(kind, data);
      FlushEncodable(s.(writeBuffer := s.writeBuffer + [p], created := s.created + [p]));
    }
  }

  lemma StepEncodable(s: Session, ev: Event)
    requires Enabled(s, ev) && Encodable(s)
    ensures Encodable(Step(s, ev))
  {
    assert AllSendable([Packet(PONG, PROBE)]);
    hide AfterCreate, AfterFlush, AllSendable;
    match ev {
      case Send(kind, data) => CreateEncodable(s, kind, data);
      case Poll(poll) =>
        FlushEncodable(Accepted(s, poll));
      case Post =>
      case UpgradeRequest(accepted) =>
      case PollingUpgrade(verb, poll) =>
      case Received(i, p) =>
        CreateEncodable(s, PONG, []);
        if s.upgrading == Some(i) {
          var r := SendPackets(s, i, [Packet(PONG, PROBE)], true);
          CreateEncodable(r, NOOP, []);
        }
    }
  }

  lemma {:induction false} RunEncodable(s: Session, evs: seq<Event>)
    requires Encodable(s)
    ensures Encodable(Run(s, evs))
    decreases |evs|
  {
    hide Step, Enabled, Encodable;
    if evs != [] {
      if Enabled(s, evs[0]) {
        StepEncodable(s, evs[0]);
        RunEncodable(Step(s, evs[0]), evs[1..]);
      } else {
        RunEncodable(s, evs[1..]);
      }
    }
  }

  /** A delivery answers a poll exactly if its transport is long polling; otherwise it is a list of messages. */
  predicate Routed(s: Session) {
    forall i :: 0 <= i < |s.deliveries| ==> RightWay(s, s.deliveries[i])
  }

  predicate RightWay(s: Session, d: Delivery) {
    d.transport < |s.transports| && (d.poll.Some? <==> s.transports[d.transport].Polling?)
  }

  /** No transport changes its kind. */
  predicate SameKinds(s: Session, r: Session) {
    |s.transports| <= |r.transports|
    && forall i :: 0 <= i < |s.transports| ==> (s.transports[i].Polling? <==> r.transports[i].Polling?)
  }

  lemma KindsKeepRoute(s: Session, r: Session)
    requires Routed(s) && SameKinds(s, r) && r.deliveries == s.deliveries
    ensures Routed(r)
  {
  }

  lemma SendRouted(s: Session, i: nat, packets: seq<Packet>, direct: bool)
    requires Routed(s) && i < |s.transports| && Sane(s.transports[i]) && s.transports[i].writable
    ensures Routed(SendPackets(s, i, packets, direct))
  {
    var r := SendPackets(s, i, packets, direct);
    var d := Delivery(i, packets, HeldPoll(s.transports[i]), direct);
    assert RightWay(r, d);
    forall j | 0 <= j < |s.deliveries| ensures RightWay(r, s.deliveries[j]) {
      assert RightWay(s, s.deliveries[j]);
    }
  }

  lemma CreateRouted(s: Session, kind: int, data: seq<Utf8.Unit>)
    requires Routed(s) && Good(s)
    ensures Routed(AfterCreate(s, kind, data))
  {
    hide Flushed, Answered, Routed;
    if IsValidPacketType(kind) {
      var p := Packet(kind, data);
      FlushRouted(s.(writeBuffer := s.writeBuffer + [p], created := s.created + [p]), s);
    }
  }

  lemma FlushRouted(s: Session, before: Session)
    requires Routed(before) && before.deliveries == s.deliveries && SameKinds(before, s)
    requires Indexed(s) && Sane(s.transports[s.current])
    ensures Routed(AfterFlush(s))
  {
    KindsKeepRoute(before, s);
    KindsKeepRoute(before, s.(writeBuffer := []));
    hide Routed;
    if s.state != Closed && s.transports[s.current].writable && s.writeBuffer != [] {
      SendRouted(s.(writeBuffer := []), s.current, s.writeBuffer, false);
    }
  }

  lemma StepRouted(s: Session, ev: Event)
    requires Good(s) && Routed(s) && Enabled(s, ev)
    ensures Routed(Step(s, ev))
  {
    hide Flushed, Answered, AfterCreate, AfterFlush, Routed, PollsPaired, Conserves;
    match ev {
      case Send(kind, data) => CreateRouted(s, kind, data);
      case Poll(poll) =>
        if s.transports[s.current].held.None? {
          FlushRouted(Accepted(s, poll), s);
        } else {
          KindsKeepRoute(s, AfterPoll(s, poll));
        }
      case Received(i, p) =>
        if s.transports[i].main {
          CreateRouted(s, PONG, []);
          KindsKeepRoute(s, s);
        } else if s.upgrading == Some(i) && p.kind == PING && p.data == PROBE {
          ProbeKeeps(s);
          SendRouted(s, i, [Packet(PONG, PROBE)], true);
          CreateRouted(SendPackets(s, i, [Packet(PONG, PROBE)], true), NOOP, []);
        } else {
          KindsKeepRoute(s, Step(s, ev));
        }
      case _ => KindsKeepRoute(s, Step(s, ev));
    }
  }

  lemma {:induction false} RunRouted(s: Session, evs: seq<Event>)
    requires Good(s) && Routed(s)
    ensures Routed(Run(s, evs))
    decreases |evs|
  {
    hide Step, Enabled, Good, Routed;
    if evs != [] {
      if Enabled(s, evs[0]) {
        StepKeeps(s, evs[0]);
        StepRouted(s, evs[0]);
        RunRouted(Step(s, evs[0]), evs[1..]);
      } else {
        RunRouted(s, evs[1..]);
      }
    }
  }

  // ------------------------------------------------------------------
  // Reading one delivery.

  /** A websocket message: the browser decodes the text frame, and `decodePacket` is called without `utf8decode`. */
  function ReadMessage(message: seq<Utf8.Unit>): ClientPacket {
    var text := Utf8.Utf8Decode(message);
    if text.None? then ParserError      // the browser fails the connection
    else if text.value != [] && text.value[0] == LOWER_B then Binary(text.value[1..])
    else TypedPacket(text.value)
  }

  function EachMessage(ps: seq<Packet>): seq<ClientPacket>
    requires AllSendable(ps)
  {
    if ps == [] then [] else [ReadMessage(EncodePacket(ps[0]))] + EachMessage(ps[1..])
  }

  /** `decodePayloadAsBinary`, which reports every message of a well-framed body. */
  function EachDecoded(messages: seq<seq<Utf8.Unit>>): seq<ClientPacket> {
    if messages == [] then [] else [ClientDecodePacket(messages[0])] + EachDecoded(messages[1..])
  }

  function ReadBinary(body: seq<Utf8.Unit>): Option<Outcome> {
    var messages := SplitBinary(body);
    if messages.None? then None else Some(Outcome(EachDecoded(messages.value), false))
  }

  /** What the client's callback receives of one delivery.  The content type tells it the form of a poll's body. */
  function Read(d: Delivery, binary: bool): Option<Outcome>
    requires Carries(d)
  {
    if d.poll.None? then Some(Outcome(EachMessage(d.packets), false))
    else if binary then ReadBinary(Body(true, d.packets))
    else ReadText(Body(false, d.packets))
  }

  /** When a delivery of these texts reaches the client whole. */
  predicate Whole(d: Delivery, binary: bool, ts: seq<TextPacket>) {
    d.poll.None? || (if binary then |ts| == 1 else AllAscii(ts))
  }

  lemma MessageExact(p: TextPacket)
    requires ValidText(p)
    ensures ReadMessage(EncodePacket(BytesOf(p))) == Payloads.Received(p)
  {
    ShownBytes(p);
    DigitUnits(p.kind);
    Utf8.WellFormedUnits(Shown(p));
    Utf8.EncodeDecode(Shown(p));
    hide EncodePacket, BytesOf, DigitUnit, UnitDigit, Utf8.Utf8Decode, Utf8.Utf8Encode, Utf8.WellFormed;
    assert Shown(p)[1..] == p.text;
  }

  /** Base64 messages aside, which the server never sends, a websocket message is read like one of a text payload. */
  lemma {:induction false} SameReading(message: seq<Utf8.Unit>)
    requires Utf8.Bytes8(message) && message != [] && message[0] != LOWER_B
    ensures ReadMessage(message) == ClientDecodePacket(message)
  {
    var text := Utf8.Utf8Decode(message);
    if text.Some? && text.value != [] && text.value[0] == LOWER_B {
      Utf8.DecodeEncode(message);
      Utf8.WellFormedUnits(text.value);
      AsciiIsScalar(LOWER_B);
      AsciiNotSurrogate(LOWER_B);
      FirstIsKept(text.value, message);
    }
    hide Utf8.Utf8Decode;
  }

  lemma {:induction false} FirstIsKept(text: seq<Utf8.Unit>, message: seq<Utf8.Unit>)
    requires Utf8.WellFormed(text) && text != [] && text[0] == LOWER_B && Utf8.Utf8Encode(text) == Some(message)
    ensures message != [] && message[0] == LOWER_B
  {
    Utf8.WellFormedUnits(text);
    AsciiIsScalar(LOWER_B);
    AsciiNotSurrogate(LOWER_B);
    hide Utf8.Utf8Encode, Utf8.IsHigh, Utf8.IsSurrogate;
    assert Utf8.WellFormed(text[1..]);
    AsciiFirst(LOWER_B, text[1..]);
    assert [LOWER_B] + text[1..] == text;
  }

  lemma {:induction false} MessagesExact(ts: seq<TextPacket>)
    requires AllValid(ts)
    ensures EachMessage(AllBytes(ts)) == AllReceived(ts)
  {
    hide ReadMessage, EncodePacket, BytesOf, ValidText;
    if ts != [] {
      MessageExact(ts[0]);
      assert AllBytes(ts)[1..] == AllBytes(ts[1..]);
      MessagesExact(ts[1..]);
    }
  }

  lemma {:induction false} ReceivedCount(ts: seq<TextPacket>)
    ensures |AllReceived(ts)| == |ts|
  {
    if ts != [] {
      ReceivedCount(ts[1..]);
    }
  }

  lemma {:induction false} LastBytes(ts: seq<TextPacket>, i: nat)
    requires AllValid(ts) && i < |ts|
    ensures AllBytes(ts)[i] == BytesOf(ts[i])
  {
    if i > 0 {
      LastBytes(ts[1..], i - 1);
    }
  }

  /** A binary poll brings its last packet and nothing else. */
  lemma {:induction false} BinaryReadsLast(ts: seq<TextPacket>)
    requires AllValid(ts) && ts != []
    ensures ReadBinary(EncodePayloadAsBinary(AllBytes(ts))) == Some(Outcome([Payloads.Received(ts[|ts| - 1])], false))
  {
    hide SplitBinary, EncodePayloadAsBinary, EncodePacket, BytesOf, AllBytes, Encoded, EachDecoded, AllSendable;
    var last := |ts| - 1;
    LastBytes(ts, last);
    BinaryLastArrives(AllBytes(ts));
    OneDecoded(ts[last]);
  }

  lemma OneDecoded(p: TextPacket)
    requires ValidText(p)
    ensures AllSendable([BytesOf(p)]) && EachDecoded(Encoded([BytesOf(p)])) == [Payloads.Received(p)]
  {
    hide ClientDecodePacket, EncodePacket;
    ClientReads(p);
    var b := BytesOf(p);
    assert [b][1..] == [] && Encoded([b]) == [EncodePacket(b)];
    assert [EncodePacket(b)][1..] == [] && EachDecoded([]) == [];
    assert EachDecoded([EncodePacket(b)]) == [ClientDecodePacket(EncodePacket(b))];
  }

  /** One delivery, exactly: a websocket always delivers, a text poll if and only if all is ASCII, a binary poll if
      and only if it holds one packet. */
  lemma {:induction false} DeliveryExact(d: Delivery, binary: bool, ts: seq<TextPacket>)
    requires Carries(d) && AllValid(ts) && d.packets == AllBytes(ts)
    ensures Read(d, binary) == Some(Outcome(AllReceived(ts), false)) <==> Whole(d, binary, ts)
    ensures ts != []
    ensures d.poll.Some? && binary ==> Read(d, binary) == Some(Outcome([Payloads.Received(ts[|ts| - 1])], false))
  {
    assert ts != [];
    hide AllBytes, ReadText, EachMessage, ReadBinary, EncodePayload, EncodePayloadAsBinary, AllAscii, AllValid;
    if d.poll.None? {
      MessagesExact(ts);
    } else if binary {
      BinaryReadsLast(ts);
      ReceivedCount(ts);
      hide Payloads.Received;
      if |ts| == 1 {
        assert ts[1..] == [] && AllReceived(ts) == [Payloads.Received(ts[0])];
      }
    } else {
      TextPollExact(ts);
    }
  }

  // ------------------------------------------------------------------
  // Texts and packets.

  lemma ValidTexts(ts: seq<TextPacket>, us: seq<TextPacket>)
    requires AllValid(ts) && AllValid(us)
    ensures AllValid(ts + us)
  {
    hide ValidText;
  }

  lemma {:induction false} SplitBytes(ts: seq<TextPacket>, us: seq<TextPacket>)
    requires AllValid(ts) && AllValid(us) && AllValid(ts + us)
    ensures AllBytes(ts + us) == AllBytes(ts) + AllBytes(us)
    decreases |ts|
  {
    hide BytesOf, ValidText, AllSendable;
    if ts == [] {
      assert ts + us == us;
    } else {
      assert (ts + us)[1..] == ts[1..] + us;
      SplitBytes(ts[1..], us);
      assert AllBytes(ts + us) == [BytesOf(ts[0])] + AllBytes(ts[1..] + us);
    }
  }

  lemma {:induction false} SplitReceived(ts: seq<TextPacket>, us: seq<TextPacket>)
    ensures AllReceived(ts + us) == AllReceived(ts) + AllReceived(us)
    decreases |ts|
  {
    hide Payloads.Received;
    if ts == [] {
      assert ts + us == us;
    } else {
      assert (ts + us)[1..] == ts[1..] + us;
      SplitReceived(ts[1..], us);
    }
  }

  lemma {:induction false} SplitTexts(ts: seq<TextPacket>, us: seq<TextPacket>)
    requires AllValid(ts) && AllValid(us)
    ensures AllValid(ts + us)
    ensures AllBytes(ts + us) == AllBytes(ts) + AllBytes(us)
    ensures AllReceived(ts + us) == AllReceived(ts) + AllReceived(us)
  {
    hide *;
    ValidTexts(ts, us);
    SplitBytes(ts, us);
    SplitReceived(ts, us);
  }

  lemma {:induction false} SliceTexts(ts: seq<TextPacket>, a: nat, b: nat)
    requires AllValid(ts) && a <= b <= |ts|
    ensures AllValid(ts[a..b]) && AllBytes(ts)[a..b] == AllBytes(ts[a..b])
  {
    CutTexts(ts, b);
    CutTexts(ts[..b], a);
    hide *;
    assert ts[..b][a..] == ts[a..b];
    assert AllBytes(ts)[..b][a..] == AllBytes(ts)[a..b];
  }

  lemma {:induction false} CutTexts(ts: seq<TextPacket>, k: nat)
    requires AllValid(ts) && k <= |ts|
    ensures AllValid(ts[..k]) && AllValid(ts[k..])
    ensures AllBytes(ts)[..k] == AllBytes(ts[..k]) && AllBytes(ts)[k..] == AllBytes(ts[k..])
  {
    hide AllBytes, ValidText, AllSendable;
    SplitTexts(ts[..k], ts[k..]);
    assert ts == ts[..k] + ts[k..];
  }

  // ------------------------------------------------------------------
  // Reading a run.

  /** How many packets had been flushed before the i-th delivery. */
  function Before(ds: seq<Delivery>, i: nat): nat
    requires i <= |ds|
  {
    |Flushed(ds[..i])|
  }

  lemma NextBefore(ds: seq<Delivery>, i: nat)
    requires i < |ds|
    ensures Flushed(ds[..i + 1]) == Flushed(ds[..i]) + (if ds[i].direct then [] else ds[i].packets)
  {
    assert ds[..i + 1] == ds[..i] + [ds[i]];
    DeliverySnoc(ds[..i], ds[i]);
  }

  lemma {:induction false} FlushedPrefix(ds: seq<Delivery>, i: nat)
    requires i <= |ds|
    ensures Flushed(ds[..i]) <= Flushed(ds)
    decreases |ds| - i
  {
    hide Flushed;
    if i < |ds| {
      NextBefore(ds, i);
      FlushedPrefix(ds, i + 1);
    } else {
      assert ds[..i] == ds;
    }
  }

  /** The texts of the i-th delivery, of all texts flushed. */
  function Share(ds: seq<Delivery>, i: nat, ts: seq<TextPacket>): seq<TextPacket>
    requires i < |ds|
  {
    if Before(ds, i) <= Before(ds, i + 1) <= |ts| then ts[Before(ds, i)..Before(ds, i + 1)] else []
  }

  lemma {:induction false} ShareIsSent(ds: seq<Delivery>, i: nat, ts: seq<TextPacket>)
    requires i < |ds| && !ds[i].direct && AllValid(ts) && Flushed(ds) <= AllBytes(ts)
    ensures AllValid(Share(ds, i, ts)) && ds[i].packets == AllBytes(Share(ds, i, ts))
  {
    hide Flushed, AllBytes, AllValid;
    var a, b := Before(ds, i), Before(ds, i + 1);
    NextBefore(ds, i);
    FlushedPrefix(ds, i + 1);
    assert |AllBytes(ts)| == |ts|;
    SliceTexts(ts, a, b);
    assert AllBytes(ts)[..b] == Flushed(ds[..i]) + ds[i].packets;
  }

  /** Every delivery of a run, exactly, and whatever upgrades happen: it is read as the texts it carries if and only
      if it came on the websocket, or was a text poll with only ASCII, or a binary poll of one packet; a binary poll
      always brings exactly its last packet. */
  lemma {:induction false} EveryDeliveryExact(first: Transport, binary: bool, evs: seq<Event>,
        ts: seq<TextPacket>, i: nat)
    requires Initial(first) && AllValid(ts) && Run(Start(first, binary), evs).created == AllBytes(ts)
    requires i < |Run(Start(first, binary), evs).deliveries| && !Run(Start(first, binary), evs).deliveries[i].direct
    ensures var s := Run(Start(first, binary), evs);
            var d, us := s.deliveries[i], Share(s.deliveries, i, ts);
            && s.binary == binary && Carries(d) && RightWay(s, d) && us != []
            && (Read(d, binary) == Some(Outcome(AllReceived(us), false)) <==> Whole(d, binary, us))
            && (d.poll.Some? && binary ==> Read(d, binary) == Some(Outcome([Payloads.Received(us[|us| - 1])], false)))
  {
    hide Run, Flushed, Carries, AllBytes, AllReceived, ValidText, Read, Whole, Share;
    var s := Run(Start(first, binary), evs);
    PacketsAreConserved(first, binary, evs);
    RunEncodable(Start(first, binary), evs);
    RunExtends(Start(first, binary), evs);
    StartIsGood(first, binary);
    RunRouted(Start(first, binary), evs);
    ShareIsSent(s.deliveries, i, ts);
    DeliveryExact(s.deliveries[i], binary, Share(s.deliveries, i, ts));
  }

  /** All the packets the client gets of the deliveries, in order. */
  function ClientSees(ds: seq<Delivery>, binary: bool): seq<ClientPacket>
    requires forall i :: 0 <= i < |ds| ==> Carries(ds[i])
  {
    if ds == [] then []
    else
      var d := ds[|ds| - 1];
      ClientSees(ds[..|ds| - 1], binary)
      + (if d.direct || Read(d, binary).None? then [] else Read(d, binary).value.packets)
  }

  /** Every delivery that went through the write buffer arrives whole. */
  predicate AllWhole(ds: seq<Delivery>, binary: bool, ts: seq<TextPacket>) {
    forall i :: 0 <= i < |ds| && !ds[i].direct ==> Whole(ds[i], binary, Share(ds, i, ts))
  }

  lemma {:induction false} SeesOneMore(ds: seq<Delivery>, binary: bool, i: nat)
    requires i < |ds| && forall j :: 0 <= j < |ds| ==> Carries(ds[j])
    ensures ClientSees(ds[..i + 1], binary)
            == ClientSees(ds[..i], binary)
               + (if ds[i].direct || Read(ds[i], binary).None? then [] else Read(ds[i], binary).value.packets)
  {
    hide Carries, Read;
    assert ds[..i + 1][..i] == ds[..i] && ds[..i + 1][i] == ds[i];
  }

  /** What is read of a whole delivery is the texts from the packets flushed before it to those flushed with it. */
  lemma {:induction false} ReadsShare(ds: seq<Delivery>, binary: bool, ts: seq<TextPacket>, i: nat)
    requires i < |ds| && Carries(ds[i]) && AllValid(ts) && Flushed(ds) <= AllBytes(ts) && AllWhole(ds, binary, ts)
    requires Before(ds, i) <= |ts|
    ensures Before(ds, i) <= Before(ds, i + 1) <= |ts|
    ensures AllReceived(ts[..Before(ds, i + 1)])
            == AllReceived(ts[..Before(ds, i)])
               + (if ds[i].direct || Read(ds[i], binary).None? then [] else Read(ds[i], binary).value.packets)
  {
    hide Flushed, AllBytes, AllReceived, AllValid, Carries, Read, Whole;
    NextBefore(ds, i);
    FlushedPrefix(ds, i + 1);
    var a, b := Before(ds, i), Before(ds, i + 1);
    if ds[i].direct {
      assert AllReceived(ts[..a]) + [] == AllReceived(ts[..a]);
    } else {
      ShareIsSent(ds, i, ts);
      DeliveryExact(ds[i], binary, Share(ds, i, ts));
      assert ts[..b] == ts[..a] + ts[a..b];
      SplitReceived(ts[..a], ts[a..b]);
    }
  }

  lemma {:induction false} SeesTexts(ds: seq<Delivery>, binary: bool, ts: seq<TextPacket>, n: nat)
    requires n <= |ds| && forall i :: 0 <= i < |ds| ==> Carries(ds[i])
    requires AllValid(ts) && Flushed(ds) <= AllBytes(ts) && AllWhole(ds, binary, ts)
    ensures Before(ds, n) <= |ts| && ClientSees(ds[..n], binary) == AllReceived(ts[..Before(ds, n)])
    decreases n
  {
    if n == 0 {
      NothingFlushed();
      assert ds[..n] == [];
    } else {
      hide Flushed, AllBytes, AllReceived, AllValid, Carries, Read, AllWhole, ClientSees, Before;
      SeesTexts(ds, binary, ts, n - 1);
      ReadsShare(ds, binary, ts, n - 1);
      SeesOneMore(ds, binary, n - 1);
    }
  }

  lemma NothingFlushed()
    ensures Flushed([]) == []
  {
  }

  /** End to end, over any run and any upgrade: when every delivery arrives whole, the client gets exactly the texts
      created, in order, up to those still buffered. */
  lemma {:induction false} ClientReceivesInOrder(first: Transport, binary: bool, evs: seq<Event>, ts: seq<TextPacket>)
    requires Initial(first) && AllValid(ts) && Run(Start(first, binary), evs).created == AllBytes(ts)
    requires AllWhole(Run(Start(first, binary), evs).deliveries, binary, ts)
    ensures var s := Run(Start(first, binary), evs);
            && |s.writeBuffer| <= |ts| && (forall i :: 0 <= i < |s.deliveries| ==> Carries(s.deliveries[i]))
            && ClientSees(s.deliveries, binary) == AllReceived(ts[..|ts| - |s.writeBuffer|])
  {
    hide Run, Flushed, Carries, ClientSees, AllBytes, AllReceived, ValidText, AllWhole;
    var s := Run(Start(first, binary), evs);
    PacketsAreConserved(first, binary, evs);
    RunEncodable(Start(first, binary), evs);
    var n := |s.deliveries|;
    SeesTexts(s.deliveries, binary, ts, n);
    assert s.deliveries[..n] == s.deliveries;
  }

  /** Binary polls lose packets in reachable sessions: of two messages sent between polls the client sees the second. */
  lemma BinaryPollLosesMessage(a: TextPacket, b: TextPacket)
    requires ValidText(a) && ValidText(b)
    ensures var evs := [Send(a.kind, BytesOf(a).data), Send(b.kind, BytesOf(b).data), Poll(2)];
            var s := Run(Handshake(1, [], true), evs);
            && |s.deliveries| == 2 && s.deliveries[1].poll == Some(2) && Carries(s.deliveries[1])
            && s.deliveries[1].packets == AllBytes([a, b])
            && Read(s.deliveries[1], true) == Some(Outcome([Payloads.Received(b)], false))
  {
    hide Run, Handshake, Read, BytesOf, ValidText;
    SentBytes(a);
    SentBytes(b);
    TwoBytes(a, b);
    TwoSentThenPolled(BytesOf(a), BytesOf(b));
    DeliveryExact(Delivery(0, [BytesOf(a), BytesOf(b)], Some(2), false), true, [a, b]);
  }

  lemma TwoSentThenPolled(p: Packet, q: Packet)
    requires IsValidPacketType(p.kind) && IsValidPacketType(q.kind)
    ensures var s0 := Handshake(1, [], true);
            Run(s0, [Send(p.kind, p.data), Send(q.kind, q.data), Poll(2)]).deliveries
            == s0.deliveries + [Delivery(0, [p, q], Some(2), false)]
    ensures |Handshake(1, [], true).deliveries| == 1
  {
    hide Flushed, Answered;
    HandshakeAnswersOpen(1, [], true);
    var s0 := Handshake(1, [], true);
    assert s0.transports == [Polling(false, None, true)];
    var e := [Send(p.kind, p.data), Send(q.kind, q.data), Poll(2)];
    var s1 := Step(s0, e[0]);
    var s2 := Step(s1, e[1]);
    var s3 := Step(s2, e[2]);
    assert s1 == s0.(writeBuffer := [p], created := s0.created + [p]);
    assert s2 == s1.(writeBuffer := [p, q], created := s1.created + [q]);
    RunThree(s0, e);
  }

  lemma {:induction false} RunThree(s: Session, e: seq<Event>)
    requires |e| == 3
    requires Enabled(s, e[0]) && Enabled(Step(s, e[0]), e[1]) && Enabled(Step(Step(s, e[0]), e[1]), e[2])
    ensures Run(s, e) == Step(Step(Step(s, e[0]), e[1]), e[2])
  {
    hide Step, Enabled;
    var s1 := Step(s, e[0]);
    var s2 := Step(s1, e[1]);
    assert e[1..][0] == e[1] && e[1..][1..][0] == e[2] && e[1..][1..][1..] == [];
    assert Run(s2, e[1..][1..]) == Step(s2, e[2]);
    assert Run(s1, e[1..]) == Run(s2, e[1..][1..]);
  }

  lemma SentBytes(p: TextPacket)
    requires ValidText(p)
    ensures BytesOf(p).kind == p.kind && IsValidPacketType(p.kind) && BytesOf(p) == Packet(p.kind, BytesOf(p).data)
  {
  }

  lemma TwoBytes(a: TextPacket, b: TextPacket)
    requires ValidText(a) && ValidText(b)
    ensures AllValid([a, b]) && AllBytes([a, b]) == [BytesOf(a), BytesOf(b)]
  {
    assert [a, b][1..] == [b] && [b][1..] == [];
  }
}
