/** Packets and text payloads: the server's encoder (`engineio/parser.cc`) and the client's decoder
    (`decodePayload`, `decodePacket`), on strings with one unit per byte. */
module Payloads {
  import opened Options
  import opened Numerals
  import opened Utf8

  const COLON: Unit := 58
  const LOWER_B: Unit := 98

  predicate IsValidPacketType(kind: int) {
    0 <= kind <= 6
  }

  datatype Packet = Packet(kind: int, data: seq<Unit>)

  predicate Sendable(p: Packet) {
    IsValidPacketType(p.kind)
  }

  // ------------------------------------------------------------------
  // Numbers as units.

  function DigitUnit(d: nat): Unit
    requires d < 10
  {
    match d
    case 0 => 48 case 1 => 49 case 2 => 50 case 3 => 51 case 4 => 52
    case 5 => 53 case 6 => 54 case 7 => 55 case 8 => 56 case _ => 57
  }

  function UnitDigit(u: Unit): Option<nat> {
    if u == 48 then Some(0) else if u == 49 then Some(1) else if u == 50 then Some(2) else if u == 51 then Some(3)
    else if u == 52 then Some(4) else if u == 53 then Some(5) else if u == 54 then Some(6) else if u == 55 then Some(7)
    else if u == 56 then Some(8) else if u == 57 then Some(9) else None
  }

  lemma DigitUnits(d: nat)
    requires d < 10
    ensures UnitDigit(DigitUnit(d)) == Some(d) && DigitUnit(d) != COLON && DigitUnit(d) != LOWER_B
            && DigitUnit(d) < 0x80
    ensures d < 9 ==> DigitUnit(d) < DigitUnit(d + 1)
  {
  }

  /** The units of the digits are consecutive, from 48 on. */
  lemma DigitUnitsExact(d: nat, u: Unit)
    requires d < 10
    ensures DigitUnit(0) == 48 && (d < 9 ==> DigitUnit(d + 1) == DigitUnit(d) + 1)
    ensures UnitDigit(u) == Some(d) <==> u == DigitUnit(d)
  {
  }

  /** A decimal numeral as units. */
  function Units(s: string): seq<Unit>
    requires forall i :: 0 <= i < |s| ==> IsDigit(s[i], Ten)
  {
    if s == [] then []
    else
      assert IsDigit(s[|s| - 1], Ten);
      Units(s[..|s| - 1]) + [DigitUnit(DigitValue(s[|s| - 1]))]
  }

  /** `int_to_string` of a non-negative number. */
  function IntToString(n: nat): seq<Unit> {
    NumeralIsCanonical(n, Ten);
    Units(Numeral(n, Ten))
  }

  /** JavaScript's `Number` on decimal digits. */
  function Number(s: seq<Unit>): Option<nat> {
    if s == [] then None
    else
      var d := UnitDigit(s[|s| - 1]);
      if d.None? then None
      else if |s| == 1 then d
      else
        var front := Number(s[..|s| - 1]);
        if front.None? then None else Some(10 * front.value + d.value)
  }

  lemma {:induction false} NumberOfUnits(s: string)
    requires s != [] && forall i :: 0 <= i < |s| ==> IsDigit(s[i], Ten)
    ensures Units(s) != [] && Number(Units(s)) == Some(Value(s, Ten)) && COLON !in Units(s)
    decreases |s|
  {
    hide DigitUnit, UnitDigit;
    var n := |s| - 1;
    var u := Units(s);
    DigitUnits(DigitValue(s[n]));
    assert u[..|u| - 1] == Units(s[..n]);
    if n > 0 {
      NumberOfUnits(s[..n]);
    } else {
      assert s[..n] == [];
      assert Value(s, Ten) == DigitValue(s[0]);
    }
  }

  lemma NumberOfInt(n: nat)
    ensures IntToString(n) != [] && Number(IntToString(n)) == Some(n) && COLON !in IntToString(n)
  {
    NumeralIsCanonical(n, Ten);
    NumberOfUnits(Numeral(n, Ten));
  }

  lemma OneDigit(d: nat)
    requires d < 10
    ensures IntToString(d) == [DigitUnit(d)]
  {
    assert Numeral(d, Ten) == [DigitChar(d)];
    assert Units([DigitChar(d)]) == Units([]) + [DigitUnit(d)] by {
      assert [DigitChar(d)][..0] == [];
      assert DigitValue(DigitChar(d)) == d;
    }
  }

  // ------------------------------------------------------------------
  // The server.

  function EncodePacket(p: Packet): seq<Unit>
    requires Sendable(p)
  {
    IntToString(p.kind) + p.data
  }

  predicate AllSendable(ps: seq<Packet>) {
    forall i :: 0 <= i < |ps| ==> Sendable(ps[i])
  }

  function EncodePayload(ps: seq<Packet>): seq<Unit>
    requires AllSendable(ps)
  {
    if ps == [] then []
    else
      var r := EncodePacket(ps[0]);
      IntToString(|r|) + [COLON] + r + EncodePayload(ps[1..])
  }

  /** `DecodePacket` into an existing packet, which an empty message leaves as it is. */
  function DecodePacket(data: seq<Unit>, packet: Packet): (r: (bool, Packet)) {
    if data == [] then (true, packet)
    else if data[0] == LOWER_B then (false, packet)
    else
      var kind := UnitDigit(data[0]);
      if kind.None? || !IsValidPacketType(kind.value) then (false, packet)
      else if |data| > 1 then (true, Packet(kind.value, data[1..]))
      else (true, packet.(kind := kind.value))
  }

  /** Into a fresh packet, whose data are empty, the server reads back what it writes. */
  lemma PacketRoundTrip(p: Packet, garbage: int)
    requires Sendable(p)
    ensures DecodePacket(EncodePacket(p), Packet(garbage, [])) == (true, p)
  {
    OneDigit(p.kind);
    DigitUnits(p.kind);
    hide IntToString, DigitUnit, UnitDigit;
    assert EncodePacket(p)[1..] == p.data;
  }

  /** A non-empty message is accepted if and only if it is the encoding of some packet, which it then gives, except
      that a message without data leaves the data of the packet as they were; a refused one changes nothing. */
  lemma DecodePacketExact(data: seq<Unit>, packet: Packet)
    requires data != []
    ensures var r := DecodePacket(data, packet);
            && (r.0 <==> exists p :: Sendable(p) && EncodePacket(p) == data)
            && (r.0 ==> Sendable(r.1) && (if |data| > 1 then EncodePacket(r.1) == data
                                          else EncodePacket(r.1) == data + packet.data && r.1.data == packet.data))
            && (!r.0 ==> r.1 == packet)
  {
    hide IntToString, DigitUnit, UnitDigit;
    var kind := UnitDigit(data[0]);
    if kind.Some? {
      UnitOfDigit(data[0]);
    }
    forall p | Sendable(p) ensures EncodePacket(p) == [DigitUnit(p.kind)] + p.data {
      OneDigit(p.kind);
    }
    forall p | Sendable(p) && EncodePacket(p) == data ensures DecodePacket(data, packet).0 {
      DigitUnits(p.kind);
      assert data[0] == DigitUnit(p.kind);
    }
    if DecodePacket(data, packet).0 {
      var p := Packet(kind.value, data[1..]);
      assert Sendable(p) && EncodePacket(p) == [data[0]] + data[1..] == data;
    }
  }

  lemma UnitOfDigit(u: Unit)
    requires UnitDigit(u).Some?
    ensures UnitDigit(u).value < 10 && DigitUnit(UnitDigit(u).value) == u && u != LOWER_B
  {
  }

  /** Two packets on the wire, as text and as bytes: "6:4hello1:2", and the last one after its marked length. */
  lemma {:induction false} SamplePayloads()
    ensures var ps := [Packet(4, [104, 101, 108, 108, 111]), Packet(2, [])];
            && EncodePayload(ps) == [54, 58, 52, 104, 101, 108, 108, 111, 49, 58, 50]
            && EncodePayloadAsBinary(ps) == [0, 1, 255, 50]
  {
    var p, q := Packet(4, [104, 101, 108, 108, 111]), Packet(2, []);
    SampleFrames();
    hide IntToString, DigitUnit, Raw, EncodePacket;
    assert [p, q][1..] == [q] && [q][1..] == [];
    assert EncodePayload([q]) == [49, 58, 50] + [];
  }

  lemma {:induction false} SampleFrames()
    ensures EncodePacket(Packet(4, [104, 101, 108, 108, 111])) == [52, 104, 101, 108, 108, 111]
    ensures EncodePacket(Packet(2, [])) == [50]
    ensures IntToString(6) == [54] && IntToString(1) == [49] && Raw(IntToString(1)) == [1]
  {
    OneDigit(1);
    OneDigit(2);
    OneDigit(4);
    OneDigit(6);
    hide IntToString;
  }

  // ------------------------------------------------------------------
  // The client.

  datatype ClientPacket =
    | Message(kind: nat, data: Option<seq<Unit>>)
    | Binary(text: seq<Unit>)            // the base64 form, which the server never sends
    | ParserError

  /** The end of `decodePacket`, on a decoded text. */
  function TypedPacket(text: seq<Unit>): ClientPacket {
    if text == [] then ParserError
    else
      var kind := UnitDigit(text[0]);
      if kind.None? || !IsValidPacketType(kind.value) then ParserError
      else Message(kind.value, if |text| > 1 then Some(text[1..]) else None)
  }

  /** `decodePacket` with its `utf8decode` argument set, as payloads are read. */
  function ClientDecodePacket(msg: seq<Unit>): ClientPacket {
    if msg != [] && msg[0] == LOWER_B then Binary(msg[1..])
    else
      var text := Utf8Decode(msg);
      if text.None? then ParserError else TypedPacket(text.value)
  }

  /** The messages of a payload, in order, and whether the framing is broken after them. */
  datatype Frames = Frames(messages: seq<seq<Unit>>, broken: bool)

  /** The rest of the payload, with the length text read so far. */
  function Split(s: seq<Unit>, length: seq<Unit>): Frames
    decreases |s|
  {
    if s == [] then Frames([], length != [])
    else if s[0] != COLON then Split(s[1..], length + [s[0]])
    else
      var n := Number(length);
      if n.None? || n.value > |s| - 1 then Frames([], true)
      else
        var rest := Split(s[1 + n.value..], []);
        if n.value == 0 then rest else rest.(messages := [s[1..1 + n.value]] + rest.messages)
  }

  /** What the callback receives: a packet per message up to the first that does not parse, and whether an error
      ends the sequence. */
  datatype Outcome = Outcome(packets: seq<ClientPacket>, failed: bool)

  function Deliver(f: Frames): Outcome
    decreases |f.messages|
  {
    if f.messages == [] then Outcome([], f.broken)
    else
      var packet := ClientDecodePacket(f.messages[0]);
      if packet == ParserError then Outcome([], true)
      else
        var rest := Deliver(Frames(f.messages[1..], f.broken));
        rest.(packets := [packet] + rest.packets)
  }

  function DecodePayload(data: seq<Unit>): Outcome {
    if data == [] then Outcome([], true) else Deliver(Split(data, []))
  }

  /** The callback gets the messages up to the first that does not parse; there is an error if and only if one does
      not, or the framing breaks after them. */
  lemma {:induction false} DeliverExact(f: Frames)
    ensures var o := Deliver(f); var k := |o.packets|;
            && k <= |f.messages|
            && (forall i :: 0 <= i < k ==>
                  o.packets[i] == ClientDecodePacket(f.messages[i]) && o.packets[i] != ParserError)
            && (k < |f.messages| ==> ClientDecodePacket(f.messages[k]) == ParserError && o.failed)
            && (k == |f.messages| ==> (o.failed <==> f.broken))
    decreases |f.messages|
  {
    hide ClientDecodePacket;
    if f.messages != [] && ClientDecodePacket(f.messages[0]) != ParserError {
      DeliverExact(Frames(f.messages[1..], f.broken));
    }
  }

  predicate SomeUnparsed(messages: seq<seq<Unit>>) {
    exists i :: 0 <= i < |messages| && ClientDecodePacket(messages[i]) == ParserError
  }

  /** `decodePayload` reports an error exactly for an empty string, broken framing, or a message that does not
      parse. */
  lemma {:induction false} PayloadErrors(data: seq<Unit>)
    ensures DecodePayload(data).failed <==>
              data == [] || Split(data, []).broken || SomeUnparsed(Split(data, []).messages)
  {
    hide ClientDecodePacket, Split, Deliver;
    DeliverExact(Split(data, []));
  }

  // ------------------------------------------------------------------
  // The framing is uniquely decodable.

  lemma {:induction false} LengthText(digits: seq<Unit>, s: seq<Unit>, length: seq<Unit>)
    requires COLON !in digits
    ensures Split(digits + s, length) == Split(s, length + digits)
    decreases |digits|
  {
    if digits == [] {
      assert digits + s == s && length + digits == length;
    } else {
      assert (digits + s)[1..] == digits[1..] + s;
      assert length + digits == (length + [digits[0]]) + digits[1..];
      LengthText(digits[1..], s, length + [digits[0]]);
    }
  }

  function Encoded(ps: seq<Packet>): seq<seq<Unit>>
    requires AllSendable(ps)
  {
    if ps == [] then [] else [EncodePacket(ps[0])] + Encoded(ps[1..])
  }

  lemma {:induction false} OneFrame(r: seq<Unit>, rest: seq<Unit>)
    requires r != []
    ensures var f := Split(rest, []);
            Split(IntToString(|r|) + [COLON] + r + rest, []) == f.(messages := [r] + f.messages)
  {
    var t := IntToString(|r|);
    NumberOfInt(|r|);
    assert t + [COLON] + r + rest == t + ([COLON] + r + rest);
    LengthText(t, [COLON] + r + rest, []);
    var s := [COLON] + r + rest;
    assert [] + t == t && s[1..1 + |r|] == r && s[1 + |r|..] == rest;
    hide Number, IntToString;
  }

  /** Every payload is split into exactly the encoded packets, whatever digits and colons their data contain. */
  lemma {:induction false} FramingExact(ps: seq<Packet>)
    requires AllSendable(ps)
    ensures Split(EncodePayload(ps), []) == Frames(Encoded(ps), false)
  {
    hide IntToString;
    if ps != [] {
      var r := EncodePacket(ps[0]);
      NumberOfInt(ps[0].kind);
      FramingExact(ps[1..]);
      OneFrame(r, EncodePayload(ps[1..]));
    }
  }

  lemma {:induction false} EncodedInjective(ps: seq<Packet>, qs: seq<Packet>)
    requires AllSendable(ps) && AllSendable(qs) && Encoded(ps) == Encoded(qs)
    ensures ps == qs
    decreases |ps|
  {
    if ps != [] && qs != [] {
      PacketRoundTrip(ps[0], 0);
      PacketRoundTrip(qs[0], 0);
      hide EncodePacket, DecodePacket;
      assert Encoded(ps)[0] == Encoded(qs)[0] && Encoded(ps)[1..] == Encoded(qs)[1..];
      assert Encoded(ps)[1..] == Encoded(ps[1..]) && Encoded(qs)[1..] == Encoded(qs[1..]);
      EncodedInjective(ps[1..], qs[1..]);
      assert ps == [ps[0]] + ps[1..] && qs == [qs[0]] + qs[1..];
    }
  }

  /** Different packet lists have different payloads. */
  lemma {:induction false} PayloadInjective(ps: seq<Packet>, qs: seq<Packet>)
    requires AllSendable(ps) && AllSendable(qs) && EncodePayload(ps) == EncodePayload(qs)
    ensures ps == qs
  {
    FramingExact(ps);
    FramingExact(qs);
    EncodedInjective(ps, qs);
  }

  /** A piece of a payload: a length text and a message of that length. */
  datatype Frame = Frame(length: seq<Unit>, message: seq<Unit>)

  predicate Matched(f: Frame) {
    COLON !in f.length && Number(f.length) == Some(|f.message|)
  }

  predicate AllMatched(fs: seq<Frame>) {
    forall i :: 0 <= i < |fs| ==> Matched(fs[i])
  }

  function Framing(fs: seq<Frame>): seq<Unit> {
    if fs == [] then [] else fs[0].length + [COLON] + fs[0].message + Framing(fs[1..])
  }

  /** Empty messages are not reported. */
  function Reported(fs: seq<Frame>): seq<seq<Unit>> {
    if fs == [] then []
    else (if fs[0].message == [] then [] else [fs[0].message]) + Reported(fs[1..])
  }

  lemma {:induction false} FramingSplits(fs: seq<Frame>)
    requires AllMatched(fs)
    ensures Split(Framing(fs), []) == Frames(Reported(fs), false)
  {
    hide Number;
    if fs != [] {
      var f, rest := fs[0], Framing(fs[1..]);
      assert Matched(f);
      FramingSplits(fs[1..]);
      assert f.length + [COLON] + f.message + rest == f.length + ([COLON] + f.message + rest);
      LengthText(f.length, [COLON] + f.message + rest, []);
      var s := [COLON] + f.message + rest;
      assert [] + f.length == f.length && s[1..1 + |f.message|] == f.message && s[1 + |f.message|..] == rest;
    }
  }

  /** The string is made of frames. */
  ghost predicate Framed(s: seq<Unit>) {
    exists fs :: AllMatched(fs) && Framing(fs) == s
  }

  lemma {:induction false} FramesOf(s: seq<Unit>, length: seq<Unit>)
    requires COLON !in length && !Split(s, length).broken
    ensures Framed(length + s)
    decreases |s|
  {
    hide Number, Matched, Framing, AllMatched, Split;
    if s == [] {
      NothingFramedAtAll(length);
      assert length + s == [];
    } else if s[0] != COLON {
      NextUnit(s, length);
      FramesOf(s[1..], length + [s[0]]);
      assert (length + [s[0]]) + s[1..] == length + s;
    } else {
      NextUnit(s, length);
      var n := Number(length).value;
      FramesOf(s[1 + n..], []);
      assert [] + s[1 + n..] == s[1 + n..];
      var more :| AllMatched(more) && Framing(more) == s[1 + n..];
      OneMoreFrame(length, s[1..1 + n], more);
      assert length + s == length + [COLON] + s[1..1 + n] + s[1 + n..];
    }
  }

  lemma {:induction false} NothingFramedAtAll(length: seq<Unit>)
    ensures AllMatched([]) && Framing([]) == [] && Split([], length) == Frames([], length != [])
  {
  }

  lemma {:induction false} OneMoreFrame(length: seq<Unit>, message: seq<Unit>, fs: seq<Frame>)
    requires COLON !in length && Number(length) == Some(|message|) && AllMatched(fs)
    ensures var gs := [Frame(length, message)] + fs;
            AllMatched(gs) && Framing(gs) == length + [COLON] + message + Framing(fs)
  {
    hide Number;
    assert ([Frame(length, message)] + fs)[1..] == fs;
  }

  /** The client finds no error in the framing of a string if and only if it is made of frames, and then reports
      exactly their non-empty messages, in order. */
  lemma {:induction false} SplitExact(s: seq<Unit>)
    ensures !Split(s, []).broken <==> Framed(s)
    ensures forall fs :: AllMatched(fs) && Framing(fs) == s ==> Split(s, []) == Frames(Reported(fs), false)
  {
    if !Split(s, []).broken {
      FramesOf(s, []);
      assert [] + s == s;
    }
    forall fs | AllMatched(fs) && Framing(fs) == s ensures Split(s, []) == Frames(Reported(fs), false) {
      FramingSplits(fs);
    }
  }

  // ------------------------------------------------------------------
  // From texts on the server to texts at the client.

  /** A text of the application, as the server sends it: a type and the UTF-8 bytes of the text. */
  datatype TextPacket = TextPacket(kind: nat, text: seq<Unit>)

  predicate ValidText(p: TextPacket) {
    IsValidPacketType(p.kind) && Units16(p.text) && WellFormed(p.text)
  }

  predicate AllValid(ps: seq<TextPacket>) {
    forall i :: 0 <= i < |ps| ==> ValidText(ps[i])
  }

  function BytesOf(p: TextPacket): Packet
    requires ValidText(p)
  {
    EncodeDecode(p.text);
    Packet(p.kind, Utf8Encode(p.text).value)
  }

  function AllBytes(ps: seq<TextPacket>): (r: seq<Packet>)
    requires AllValid(ps)
    ensures |r| == |ps| && AllSendable(r)
  {
    if ps == [] then [] else [BytesOf(ps[0])] + AllBytes(ps[1..])
  }

  /** What the client should see. */
  function Received(p: TextPacket): ClientPacket {
    Message(p.kind, if p.text == [] then None else Some(p.text))
  }

  function AllReceived(ps: seq<TextPacket>): seq<ClientPacket> {
    if ps == [] then [] else [Received(ps[0])] + AllReceived(ps[1..])
  }

  lemma AsciiIsScalar(u: Unit)
    requires u < 0x80
    ensures IsScalar(u) && !IsHigh(u) && u <= 0xFFFF && EncodeCodePoint(u) == Some([u])
  {
  }

  /** Putting an ASCII unit in front commutes with UTF-8. */
  lemma {:induction false} AsciiFirst(u: Unit, text: seq<Unit>)
    requires u < 0x80 && Units16(text) && WellFormed(text)
    ensures Units16([u] + text) && WellFormed([u] + text)
    ensures Utf8Encode(text).Some? && Utf8Encode([u] + text) == Some([u] + Utf8Encode(text).value)
  {
    AsciiIsScalar(u);
    EncodeDecode(text);
    hide EncodeCodePoint, IsHigh, IsSurrogate;
    var s := [u] + text;
    assert s[1..] == text;
    assert FirstPoint(s) == (u, 1);
    assert Ucs2Decode(s) == [u] + Ucs2Decode(text);
    assert ([u] + Ucs2Decode(text))[1..] == Ucs2Decode(text);
    AsciiNotSurrogate(u);
  }

  lemma AsciiNotSurrogate(u: Unit)
    requires u < 0x80
    ensures !IsSurrogate(u)
  {
  }

  lemma ClientReads(p: TextPacket)
    requires ValidText(p)
    ensures ClientDecodePacket(EncodePacket(BytesOf(p))) == Received(p)
  {
    hide IntToString, Utf8Encode, Utf8Decode, DigitUnit, UnitDigit;
    var u := DigitUnit(p.kind);
    OneDigit(p.kind);
    DigitUnits(p.kind);
    AsciiFirst(u, p.text);
    EncodeDecode([u] + p.text);
    var msg := EncodePacket(BytesOf(p));
    assert msg == [u] + Utf8Encode(p.text).value;
    assert Utf8Decode(msg) == Some([u] + p.text);
    assert ([u] + p.text)[1..] == p.text;
  }

  /** Of any other bytes, the client reads a message exactly if they are the encoding of some well-formed text
      packet; base64 messages, which the server never sends, aside. */
  lemma ClientReadsExactly(msg: seq<Unit>)
    requires Bytes8(msg) && (msg != [] ==> msg[0] != LOWER_B)
    ensures ClientDecodePacket(msg) != ParserError <==>
              exists p :: ValidText(p) && EncodePacket(BytesOf(p)) == msg
  {
    hide IntToString, Utf8Encode, Utf8Decode, DigitUnit, UnitDigit, EncodePacket;
    if ClientDecodePacket(msg) != ParserError {
      PacketRead(msg);
    } else {
      forall p | ValidText(p) ensures EncodePacket(BytesOf(p)) != msg {
        ClientReads(p);
      }
    }
  }

  lemma {:induction false} PacketRead(msg: seq<Unit>)
    requires Bytes8(msg) && (msg != [] ==> msg[0] != LOWER_B) && ClientDecodePacket(msg) != ParserError
    ensures exists p :: ValidText(p) && EncodePacket(BytesOf(p)) == msg
  {
    hide IntToString, Utf8Encode, Utf8Decode, DigitUnit, UnitDigit;
    var text := Utf8Decode(msg).value;
    DecodeEncode(msg);
    var u := text[0];
    UnitOfDigit(u);
    var kind := UnitDigit(u).value;
    DigitUnits(kind);
    var p := TextPacket(kind, text[1..]);
    AsciiIsScalar(u);
    AsciiNotSurrogate(u);
    WellFormedUnits(text);
    assert WellFormed(p.text);
    WellFormedUnits(p.text);
    AsciiFirst(u, p.text);
    assert [u] + p.text == text;
    OneDigit(kind);
    assert ValidText(p) && EncodePacket(BytesOf(p)) == msg;
  }

  lemma {:induction false} DeliverAll(ps: seq<TextPacket>)
    requires AllValid(ps)
    ensures Deliver(Frames(Encoded(AllBytes(ps)), false)) == Outcome(AllReceived(ps), false)
  {
    hide ClientDecodePacket, EncodePacket, BytesOf;
    if ps != [] {
      ClientReads(ps[0]);
      var qs := AllBytes(ps);
      assert qs[1..] == AllBytes(ps[1..]);
      var f := Encoded(qs);
      assert f[0] == EncodePacket(BytesOf(ps[0])) && f[1..] == Encoded(AllBytes(ps[1..]));
      assert Received(ps[0]) != ParserError;
      DeliverAll(ps[1..]);
    }
  }

  /** End to end: for every non-empty list of packets with well-formed texts, the client's callback gets exactly
      their types and texts, in order, and no error. */
  lemma {:induction false} PayloadDelivers(ps: seq<TextPacket>)
    requires ps != [] && AllValid(ps)
    ensures DecodePayload(EncodePayload(AllBytes(ps))) == Outcome(AllReceived(ps), false)
  {
    var qs := AllBytes(ps);
    FramingExact(qs);
    DeliverAll(ps);
    NumberOfInt(|EncodePacket(qs[0])|);
    hide Deliver, Split, IntToString;
    assert EncodePayload(qs) != [];
  }

  // ------------------------------------------------------------------
  // The loops.

  method EncodePayloadLoop(packets: seq<Packet>) returns (result: seq<Unit>)
    requires AllSendable(packets)
    ensures result == EncodePayload(packets)
  {
    hide IntToString;
    result := [];
    var it := 0;
    assert packets[0..] == packets;
    while it < |packets|
      invariant 0 <= it <= |packets|
      invariant result + EncodePayload(packets[it..]) == EncodePayload(packets)
    {
      assert packets[it..][1..] == packets[it + 1..];
      var r := EncodePacket(packets[it]);
      ghost var rest := EncodePayload(packets[it + 1..]);
      assert result + (IntToString(|r|) + [COLON] + r + rest) == (result + (IntToString(|r|) + [COLON] + r)) + rest;
      result := result + (IntToString(|r|) + [COLON] + r);
      it := it + 1;
    }
    assert result + [] == result;
  }

  /** `decodePayload`, with the packets handed to the callback and whether it was told of an error. */
  method DecodePayloadLoop(data: seq<Unit>) returns (packets: seq<ClientPacket>, failed: bool)
    ensures Outcome(packets, failed) == DecodePayload(data)
  {
    hide ClientDecodePacket, Number, Split, Deliver;
    packets := [];
    if data == [] {
      return [], true;
    }
    var length: seq<Unit> := [];
    var i := 0;
    assert data[0..] == data;
    while i < |data|
      invariant 0 <= i <= |data|
      invariant DecodePayload(data) == After(packets, Deliver(Split(data[i..], length)))
      decreases |data| - i
    {
      ghost var s := data[i..];
      var chr := data[i];
      assert s[1..] == data[i + 1..];
      NextUnit(s, length);
      BrokenFrame();
      if COLON != chr {
        length := length + [chr];
      } else {
        var n := Number(length);
        if n.None? || n.value > |data| - (i + 1) {
          assert packets + [] == packets;
          return packets, true;
        }
        var msg := data[i + 1..i + 1 + n.value];
        Windows(data, i, n.value);
        ghost var rest := Split(data[i + 1 + n.value..], []);
        if msg != [] {
          var packet := ClientDecodePacket(msg);
          FirstMessage(msg, rest);
          if packet == ParserError {
            assert packets + [] == packets;
            return packets, true;
          }
          AfterTwice(packets, packet, Deliver(rest));
          packets := packets + [packet];
        }
        i := i + n.value;
        length := [];
      }
      i := i + 1;
    }
    assert data[i..] == [] && packets + [] == packets;
    NothingSplit(length);
    failed := length != [];
  }

  lemma {:induction false} NothingSplit(length: seq<Unit>)
    ensures Deliver(Split([], length)) == Outcome([], length != [])
  {
  }

  lemma BrokenFrame()
    ensures Deliver(Frames([], true)) == Outcome([], true)
  {
  }

  lemma Windows(data: seq<Unit>, i: nat, n: nat)
    requires i + 1 + n <= |data|
    ensures data[i..][1..1 + n] == data[i + 1..i + 1 + n] && data[i..][1 + n..] == data[i + 1 + n..]
  {
  }

  /** One step of the splitting. */
  lemma {:induction false} NextUnit(s: seq<Unit>, length: seq<Unit>)
    requires s != []
    ensures s[0] != COLON ==> Split(s, length) == Split(s[1..], length + [s[0]])
    ensures s[0] == COLON ==>
              var n := Number(length);
              if n.None? || n.value > |s| - 1 then Split(s, length) == Frames([], true)
              else
                var rest := Split(s[1 + n.value..], []);
                Split(s, length)
                == if n.value == 0 then rest else rest.(messages := [s[1..1 + n.value]] + rest.messages)
  {
    hide Number;
  }

  /** An outcome with packets delivered before it. */
  function After(before: seq<ClientPacket>, o: Outcome): Outcome {
    o.(packets := before + o.packets)
  }

  lemma AfterTwice(before: seq<ClientPacket>, p: ClientPacket, o: Outcome)
    ensures After(before, After([p], o)) == After(before + [p], o)
  {
    assert before + ([p] + o.packets) == (before + [p]) + o.packets;
  }

  lemma {:induction false} FirstMessage(msg: seq<Unit>, rest: Frames)
    ensures Deliver(rest.(messages := [msg] + rest.messages))
            == if ClientDecodePacket(msg) == ParserError then Outcome([], true)
               else After([ClientDecodePacket(msg)], Deliver(rest))
  {
    hide ClientDecodePacket;
    assert ([msg] + rest.messages)[1..] == rest.messages;
  }

  // ------------------------------------------------------------------
  // The binary payload, used when the client did not ask for base64.

  /** A length is written as raw digits 0 to 9 instead of characters. */
  function Raw(digits: seq<Unit>): seq<Unit> {
    seq(|digits|, i requires 0 <= i < |digits| => digits[i] - 48)
  }

  function Unraw(raw: seq<Unit>): seq<Unit> {
    seq(|raw|, i requires 0 <= i < |raw| => raw[i] + 48)
  }

  function BinaryFrame(r: seq<Unit>): seq<Unit> {
    [0] + Raw(IntToString(|r|)) + [255] + r
  }

  /** `EncodePayloadAsBinary`, which assigns its result for each packet. */
  function EncodePayloadAsBinary(ps: seq<Packet>): seq<Unit>
    requires AllSendable(ps)
  {
    if ps == [] then [] else BinaryFrame(EncodePacket(ps[|ps| - 1]))
  }

  /** The place of the first 255, or the length if there is none. */
  function Marker(s: seq<Unit>): (k: nat)
    ensures k <= |s| && (k < |s| ==> s[k] == 255) && 255 !in s[..k]
  {
    if s == [] || s[0] == 255 then 0 else 1 + Marker(s[1..])
  }

  /** The client's `decodePayloadAsBinary`: the text messages of a payload, or `None` when it has any other form. */
  function SplitBinary(s: seq<Unit>): Option<seq<seq<Unit>>>
    decreases |s|
  {
    if s == [] then Some([])
    else
      var k := Marker(s[1..]);
      var n := Number(Unraw(s[1..1 + k]));
      if s[0] != 0 || 1 + k == |s| || n.None? || n.value > |s| - (k + 2) then None
      else
        var rest := SplitBinary(s[k + 2 + n.value..]);
        if rest.None? then None else Some([s[k + 2..k + 2 + n.value]] + rest.value)
  }

  lemma {:induction false} NumberHasDigits(s: seq<Unit>, i: nat)
    requires Number(s).Some? && i < |s|
    ensures UnitDigit(s[i]).Some?
  {
    if i < |s| - 1 {
      NumberHasDigits(s[..|s| - 1], i);
    }
  }

  lemma RawDigits(n: nat)
    ensures 255 !in Raw(IntToString(n)) && Unraw(Raw(IntToString(n))) == IntToString(n)
  {
    var t := IntToString(n);
    NumberOfInt(n);
    hide IntToString, Number;
    forall i | 0 <= i < |t| ensures t[i] - 48 != 255 {
      NumberHasDigits(t, i);
    }
  }

  lemma {:induction false} MarkerAfter(raw: seq<Unit>, s: seq<Unit>)
    requires 255 !in raw
    ensures Marker(raw + [255] + s) == |raw|
  {
    if raw != [] {
      assert (raw + [255] + s)[1..] == raw[1..] + [255] + s;
      MarkerAfter(raw[1..], s);
    }
  }

  /** A single frame is read back. */
  lemma BinaryFrameRead(r: seq<Unit>)
    ensures SplitBinary(BinaryFrame(r)) == Some([r])
  {
    hide IntToString, Number, Raw, Unraw, Marker;
    var t := Raw(IntToString(|r|));
    var s := BinaryFrame(r);
    RawDigits(|r|);
    NumberOfInt(|r|);
    MarkerAfter(t, r);
    assert s[1..] == t + [255] + r;
    assert s[1..1 + |t|] == t && s[|t| + 2..|t| + 2 + |r|] == r && s[|t| + 2 + |r|..] == [];
    assert [r] + [] == [r];
  }

  lemma {:induction false} EncodedLength(ps: seq<Packet>)
    requires AllSendable(ps)
    ensures |Encoded(ps)| == |ps|
  {
    if ps != [] {
      EncodedLength(ps[1..]);
    }
  }

  /** Of several packets, only the last arrives. */
  lemma BinaryLastArrives(ps: seq<Packet>)
    requires AllSendable(ps) && ps != []
    ensures SplitBinary(EncodePayloadAsBinary(ps)) == Some(Encoded([ps[|ps| - 1]]))
  {
    hide BinaryFrame, EncodePacket, SplitBinary;
    var last := ps[|ps| - 1];
    BinaryFrameRead(EncodePacket(last));
    assert [last][1..] == [] && Encoded([]) == [];
    assert Encoded([last]) == [EncodePacket(last)];
  }

  lemma NothingFramed()
    ensures Encoded([]) == [] && SplitBinary([]) == Some([])
  {
  }

  /** The client gets the packets of a binary payload if and only if there is at most one. */
  lemma {:induction false} BinaryPayloadExact(ps: seq<Packet>)
    requires AllSendable(ps)
    ensures SplitBinary(EncodePayloadAsBinary(ps)) == Some(Encoded(ps)) <==> |ps| <= 1
  {
    hide SplitBinary, Encoded, BinaryFrame, EncodePacket;
    EncodedLength(ps);
    NothingFramed();
    if ps != [] {
      BinaryLastArrives(ps);
      EncodedLength([ps[|ps| - 1]]);
      if |ps| == 1 {
        assert ps == [ps[|ps| - 1]];
        assert SplitBinary(EncodePayloadAsBinary(ps)) == Some(Encoded(ps));
      } else {
        assert |Encoded([ps[|ps| - 1]])| == 1;
        assert SplitBinary(EncodePayloadAsBinary(ps)) != Some(Encoded(ps));
      }
    }
  }

  /** A zero, the digits of the length, and 255. */
  method LengthMark(encodingLen: seq<Unit>) returns (buf: seq<Unit>)
    ensures buf == [0] + Raw(encodingLen) + [255]
  {
    var bufSize := |encodingLen| + 2;
    buf := seq(bufSize, _ => 48 as Unit);
    buf := buf[0 := 0];
    for i := 0 to |encodingLen|
      invariant |buf| == bufSize && buf[0] == 0
      invariant forall k :: 1 <= k <= i ==> buf[k] == Raw(encodingLen)[k - 1]
    {
      buf := buf[i + 1 := encodingLen[i] - 48];
    }
    buf := buf[bufSize - 1 := 255];
    hide Raw;
    assert buf[1..bufSize - 1] == Raw(encodingLen);
    assert buf == [buf[0]] + buf[1..bufSize - 1] + [buf[bufSize - 1]];
  }

  method EncodePayloadAsBinaryLoop(packets: seq<Packet>) returns (result: seq<Unit>)
    requires AllSendable(packets)
    ensures result == EncodePayloadAsBinary(packets)
  {
    hide IntToString, EncodePacket, Raw;
    result := [];
    for it := 0 to |packets|
      invariant result == EncodePayloadAsBinary(packets[..it])
    {
      var d := EncodePacket(packets[it]);
      var buf := LengthMark(IntToString(|d|));
      result := buf + d;
      assert packets[..it + 1][it] == packets[it];
    }
    assert packets[..|packets|] == packets;
  }
}
