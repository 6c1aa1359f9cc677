/** How a client reads the body of a text poll: the server counts bytes and declares UTF-8, the client reads
    `responseText`, which the browser has decoded, and counts UTF-16 units. */
module PollTexts {
  import opened Options
  import opened Utf8
  import opened Payloads

  predicate Ascii(s: seq<Unit>) {
    forall i :: 0 <= i < |s| ==> s[i] < 0x80
  }

  predicate AllAscii(ts: seq<TextPacket>) {
    forall i :: 0 <= i < |ts| ==> Ascii(ts[i].text)
  }

  /** `decodePayload` of `responseText`.  `None`: the body is not UTF-8, and the browser substitutes characters. */
  function ReadText(body: seq<Unit>): Option<Outcome> {
    var text := Utf8Decode(body);
    if text.None? then None else Some(DecodePayload(text.value))
  }

  // ------------------------------------------------------------------
  // Decoding ignores all but the low byte of each unit.

  function Mask(s: seq<Unit>): seq<Unit> {
    seq(|s|, i requires 0 <= i < |s| => s[i] & 0xFF)
  }

  lemma MaskByte(u: Unit)
    ensures u & 0xFF <= 0xFF && u & 0xFF & 0xFF == u & 0xFF
    ensures u < 0x80 ==> u & 0xFF < 0x80
    ensures u & 0xFF >= 0x80 ==> u >= 0x80
  {
  }

  lemma SameKinds(v: Unit, u: Unit)
    requires v == u & 0xFF
    ensures IsLead1(v) == IsLead1(u) && IsLead2(v) == IsLead2(u) && IsLead3(v) == IsLead3(u) && IsLead4(v) == IsLead4(u)
    ensures IsContinuation(v) == IsContinuation(u) && Six(v) == Six(u) && v & 0xFF == u & 0xFF
  {
    MaskByte(u);
  }

  lemma SamePoint2(m: Unit, a: Unit, b: Unit)
    requires m & 0xFF == a & 0xFF
    ensures Point2(m, b) == Point2(a, b)
  {
  }

  lemma SamePoint3(m: Unit, a: Unit, b: Unit, c: Unit)
    requires m & 0xFF == a & 0xFF
    ensures Point3(m, b, c) == Point3(a, b, c)
  {
  }

  lemma SamePoint4(m: Unit, a: Unit, b: Unit, c: Unit, d: Unit)
    requires m & 0xFF == a & 0xFF
    ensures Point4(m, b, c, d) == Point4(a, b, c, d)
  {
  }

  lemma SameJoin2(v: Unit, a: Unit, w: Unit, b: Unit)
    requires v & 0xFF == a & 0xFF && Six(w) == Six(b)
    ensures Join2(v, w) == Join2(a, b)
  {
    hide Six, Point2;
    SamePoint2(v, a, Six(b));
  }

  lemma SameJoin3(v: Unit, a: Unit, w: Unit, b: Unit, x: Unit, c: Unit)
    requires v & 0xFF == a & 0xFF && Six(w) == Six(b) && Six(x) == Six(c)
    ensures Join3(v, w, x) == Join3(a, b, c)
  {
    hide Six, Point3;
    SamePoint3(v, a, Six(b), Six(c));
  }

  lemma SameJoin4(v: Unit, a: Unit, w: Unit, b: Unit, x: Unit, c: Unit, y: Unit, d: Unit)
    requires v & 0xFF == a & 0xFF && Six(w) == Six(b) && Six(x) == Six(c) && Six(y) == Six(d)
    ensures Join4(v, w, x, y) == Join4(a, b, c, d)
  {
    hide Six, Point4;
    SamePoint4(v, a, Six(b), Six(c), Six(d));
  }

  /** Units that differ only above their low byte. */
  predicate Alike(m: seq<Unit>, s: seq<Unit>) {
    |m| == |s| && forall i :: 0 <= i < |s| ==> m[i] == s[i] & 0xFF
  }

  lemma AlikeAt(m: seq<Unit>, s: seq<Unit>, i: nat)
    requires Alike(m, s) && i < |s|
    ensures |m| == |s| && m[i] & 0xFF == s[i] & 0xFF
    ensures IsLead1(m[i]) == IsLead1(s[i]) && IsLead2(m[i]) == IsLead2(s[i])
    ensures IsLead3(m[i]) == IsLead3(s[i]) && IsLead4(m[i]) == IsLead4(s[i])
    ensures IsContinuation(m[i]) == IsContinuation(s[i]) && Six(m[i]) == Six(s[i])
  {
    SameKinds(m[i], s[i]);
    hide IsLead1, IsLead2, IsLead3, IsLead4, IsContinuation, Six;
  }

  lemma SameSymbol2(m: seq<Unit>, s: seq<Unit>)
    requires s != [] && |m| == |s|
    requires |s| > 1 ==> IsContinuation(m[1]) == IsContinuation(s[1])
    requires |s| > 1 ==> Join2(m[0], m[1]) == Join2(s[0], s[1])
    ensures Symbol2(m) == Symbol2(s)
  {
    hide Join2, IsContinuation;
  }

  lemma MaskSymbol2(m: seq<Unit>, s: seq<Unit>)
    requires s != [] && Alike(m, s)
    ensures Symbol2(m) == Symbol2(s)
  {
    hide *;
    AlikeAt(m, s, 0);
    if |s| > 1 {
      AlikeAt(m, s, 1);
      SameJoin2(m[0], s[0], m[1], s[1]);
    }
    SameSymbol2(m, s);
  }

  lemma SameSymbol3(m: seq<Unit>, s: seq<Unit>)
    requires s != [] && |m| == |s|
    requires |s| > 2 ==> IsContinuation(m[1]) == IsContinuation(s[1])
    requires |s| > 2 ==> IsContinuation(m[2]) == IsContinuation(s[2])
    requires |s| > 2 ==> Join3(m[0], m[1], m[2]) == Join3(s[0], s[1], s[2])
    ensures Symbol3(m) == Symbol3(s)
  {
    hide Join3, IsContinuation, IsSurrogate;
  }

  lemma MaskSymbol3(m: seq<Unit>, s: seq<Unit>)
    requires s != [] && Alike(m, s)
    ensures Symbol3(m) == Symbol3(s)
  {
    hide *;
    AlikeAt(m, s, 0);
    if |s| > 2 {
      AlikeAt(m, s, 1);
      AlikeAt(m, s, 2);
      SameJoin3(m[0], s[0], m[1], s[1], m[2], s[2]);
    }
    SameSymbol3(m, s);
  }

  lemma SameSymbol4(m: seq<Unit>, s: seq<Unit>)
    requires s != [] && |m| == |s|
    requires |s| > 3 ==> IsContinuation(m[1]) == IsContinuation(s[1])
    requires |s| > 3 ==> IsContinuation(m[2]) == IsContinuation(s[2])
    requires |s| > 3 ==> IsContinuation(m[3]) == IsContinuation(s[3])
    requires |s| > 3 ==> Join4(m[0], m[1], m[2], m[3]) == Join4(s[0], s[1], s[2], s[3])
    ensures Symbol4(m) == Symbol4(s)
  {
    hide Join4, IsContinuation;
  }

  lemma MaskSymbol4(m: seq<Unit>, s: seq<Unit>)
    requires s != [] && Alike(m, s)
    ensures Symbol4(m) == Symbol4(s)
  {
    hide *;
    AlikeAt(m, s, 0);
    if |s| > 3 {
      AlikeAt(m, s, 1);
      AlikeAt(m, s, 2);
      AlikeAt(m, s, 3);
      SameJoin4(m[0], s[0], m[1], s[1], m[2], s[2], m[3], s[3]);
    }
    SameSymbol4(m, s);
  }

  lemma MaskSymbol(m: seq<Unit>, s: seq<Unit>)
    requires s != [] && Alike(m, s)
    ensures FirstSymbol(m) == FirstSymbol(s)
  {
    hide Alike, IsLead1, IsLead2, IsLead3, IsLead4, Symbol2, Symbol3, Symbol4;
    AlikeAt(m, s, 0);
    MaskSymbol2(m, s);
    MaskSymbol3(m, s);
    MaskSymbol4(m, s);
  }

  lemma {:induction false} MaskDecode(s: seq<Unit>)
    ensures DecodePoints(Mask(s)) == DecodePoints(s)
    decreases |s|
  {
    hide FirstSymbol;
    if s != [] {
      MaskSymbol(Mask(s), s);
      var f := FirstSymbol(s);
      if f.Symbol? {
        MaskDecode(s[f.size..]);
        assert Mask(s)[f.size..] == Mask(s[f.size..]);
      }
    }
  }

  lemma MaskBytes(s: seq<Unit>)
    ensures Bytes8(Mask(s))
  {
    forall i | 0 <= i < |s| ensures Mask(s)[i] <= 0xFF {
      MaskByte(s[i]);
    }
  }

  /** What decodes to a text has the text's own encoding in its low bytes. */
  lemma {:induction false} DecodedBytes(s: seq<Unit>)
    requires Utf8Decode(s).Some?
    ensures Utf8Encode(Utf8Decode(s).value) == Some(Mask(Ucs2Decode(s)))
  {
    hide FirstSymbol, EncodeCodePoint, UnitsOf, FirstPoint, Mask;
    var points := Ucs2Decode(s);
    MaskDecode(points);
    MaskBytes(points);
    SymbolsSurvive(Mask(points));
    PointsRoundTrip(DecodePoints(points).value);
  }

  // ------------------------------------------------------------------
  // Lengths.

  lemma LongByte(cp: Unit)
    ensures Lead2(cp) >= 0x80 && Lead3(cp) >= 0x80 && Lead4(cp) >= 0x80 && CreateByte(cp) >= 0x80
  {
  }

  lemma LongBits(cp: Unit)
    requires cp >= 0x80
    ensures !Fits7(cp)
  {
  }

  lemma WideBits(cp: Unit)
    requires 0x10000 <= cp <= 0x10FFFF
    ensures !Fits11(cp) && !Fits16(cp) && Fits21(cp)
  {
  }

  /** A code point from 0x80 on takes at least two bytes, none of them ASCII, and more bytes than units. */
  lemma LongPoint(cp: Unit)
    requires IsScalar(cp) && cp >= 0x80
    ensures EncodeCodePoint(cp).Some? && |EncodeCodePoint(cp).value| >= 2
    ensures |EncodeCodePoint(cp).value| > |UnitsOf(cp)|
    ensures forall i :: 0 <= i < |EncodeCodePoint(cp).value| ==> EncodeCodePoint(cp).value[i] >= 0x80
  {
    PointSurvives(cp);
    LongBits(cp);
    LongByte(cp);
    LongByte(cp >> 6);
    LongByte(cp >> 12);
    if cp > 0xFFFF {
      WideBits(cp);
    } else {
      FitsSomewhere(cp);
    }
    hide Fits7, Fits11, Fits16, Fits21, Lead2, Lead3, Lead4, CreateByte, IsSurrogate, FirstSymbol;
  }

  lemma FitsSomewhere(cp: Unit)
    requires cp <= 0xFFFF
    ensures Fits16(cp)
  {
  }

  lemma ShortPoint(cp: Unit)
    requires cp < 0x80
    ensures EncodeCodePoint(cp) == Some([cp]) && UnitsOf(cp) == [cp]
  {
    Bits1(cp);
  }

  /** No text has fewer bytes than units, and only ASCII has as many. */
  lemma {:induction false} MoreBytes(points: seq<Unit>)
    requires Scalars(points)
    ensures EncodePoints(points).Some? && |EncodePoints(points).value| >= |Ucs2Encode(points)|
    ensures |EncodePoints(points).value| == |Ucs2Encode(points)| <==> Ascii(points)
  {
    hide EncodeCodePoint, UnitsOf, IsScalar, Ascii;
    if points == [] {
      AsciiCons([], 0);
    } else {
      MoreBytes(points[1..]);
      AsciiCons(points[1..], points[0]);
      assert points == [points[0]] + points[1..];
      if points[0] < 0x80 {
        ShortPoint(points[0]);
      } else {
        LongPoint(points[0]);
      }
    }
  }

  lemma AsciiCons(rest: seq<Unit>, u: Unit)
    ensures Ascii([]) && (Ascii([u] + rest) <==> u < 0x80 && Ascii(rest))
  {
    var s := [u] + rest;
    assert s[0] == u;
    if Ascii(s) {
      forall i | 0 <= i < |rest| ensures rest[i] < 0x80 {
        assert s[i + 1] == rest[i];
      }
    }
    if u < 0x80 && Ascii(rest) {
      forall i | 0 <= i < |s| ensures s[i] < 0x80 {
        assert i > 0 ==> s[i] == rest[i - 1];
      }
    }
  }

  lemma {:induction false} AsciiBytes(points: seq<Unit>)
    requires Ascii(points)
    ensures EncodePoints(points) == Some(points)
  {
    hide EncodeCodePoint;
    if points != [] {
      ShortPoint(points[0]);
      AsciiBytes(points[1..]);
      assert points == [points[0]] + points[1..];
    }
  }

  lemma {:induction false} AsciiPoints(s: seq<Unit>)
    requires Ascii(s)
    ensures Ucs2Decode(s) == s
  {
    if s != [] {
      AsciiPoints(s[1..]);
    }
  }

  lemma {:induction false} TextLength(s: seq<Unit>)
    requires WellFormed(s)
    ensures Utf8Encode(s).Some? && |Utf8Encode(s).value| >= |s|
    ensures |Utf8Encode(s).value| == |s| <==> Ascii(s)
    ensures Ascii(s) ==> Utf8Encode(s) == Some(s)
  {
    WellFormedUnits(s);
    WellFormedScalars(s);
    Ucs2RoundTrip(s);
    hide FirstPoint, UnitsOf, IsScalar, WellFormed, EncodeCodePoint;
    MoreBytes(Ucs2Decode(s));
    if Ascii(s) {
      AsciiPoints(s);
      AsciiBytes(s);
    } else if Ascii(Ucs2Decode(s)) {
      AsciiPoints(Ucs2Decode(s));
      AsciiUnits(Ucs2Decode(s));
    }
  }

  lemma {:induction false} AsciiUnits(points: seq<Unit>)
    requires Ascii(points)
    ensures Ucs2Encode(points) == points
  {
    if points != [] {
      AsciiUnits(points[1..]);
    }
  }

  // ------------------------------------------------------------------
  // A text is never read from itself followed by something ASCII.

  /** While every point so far is long, twice as many bytes are. */
  lemma {:induction false} LongBlocks(points: seq<Unit>, k: nat)
    requires Scalars(points) && k <= |points| && forall i :: 0 <= i < k ==> points[i] >= 0x80
    ensures EncodePoints(points).Some? && |EncodePoints(points).value| >= 2 * k
    ensures forall j :: 0 <= j < 2 * k ==> EncodePoints(points).value[j] >= 0x80
    decreases k
  {
    hide EncodeCodePoint, UnitsOf, IsScalar;
    MoreBytes(points);
    if k > 0 {
      LongPoint(points[0]);
      LongBlocks(points[1..], k - 1);
      var first, rest := EncodeCodePoint(points[0]).value, EncodePoints(points[1..]).value;
      forall j | 0 <= j < 2 * k ensures (first + rest)[j] >= 0x80 {
        if j >= |first| {
          assert (first + rest)[j] == rest[j - |first|];
        }
      }
    }
  }

  /** When long bytes stand only where the points are long, the byte after as many as there are points is long. */
  lemma {:induction false} LongTail(points: seq<Unit>, k: nat)
    requires Scalars(points) && 1 <= k <= |points| && forall i :: 0 <= i < k ==> points[i] >= 0x80
    requires EncodePoints(points).Some? && |EncodePoints(points).value| > |points|
    requires forall i :: 0 <= i < |points| && EncodePoints(points).value[i] >= 0x80 ==> points[i] >= 0x80
    ensures EncodePoints(points).value[|points|] >= 0x80
    decreases |points| - k
  {
    hide EncodePoints, IsScalar;
    LongBlocks(points, k);
    if k < |points| {
      assert EncodePoints(points).value[k] >= 0x80;
      LongTail(points, k + 1);
    }
  }

  lemma {:induction false} ByteAfterPoints(points: seq<Unit>)
    requires Scalars(points) && !Ascii(points)
    requires EncodePoints(points).Some? && |EncodePoints(points).value| > |points|
    requires forall i :: 0 <= i < |points| && EncodePoints(points).value[i] >= 0x80 ==> points[i] >= 0x80
    ensures EncodePoints(points).value[|points|] >= 0x80
    decreases |points|
  {
    hide EncodeCodePoint, IsScalar;
    if points[0] >= 0x80 {
      LongTail(points, 1);
    } else {
      ShortPoint(points[0]);
      var rest := EncodePoints(points[1..]).value;
      assert EncodePoints(points).value == [points[0]] + rest;
      forall i | 0 <= i < |points| - 1 && rest[i] >= 0x80 ensures points[1..][i] >= 0x80 {
        assert EncodePoints(points).value[i + 1] == rest[i];
      }
      ByteAfterPoints(points[1..]);
    }
  }

  /** Only strings without surrogate pairs have as many code points as units. */
  lemma {:induction false} PointCount(s: seq<Unit>)
    ensures |Ucs2Decode(s)| <= |s|
    ensures |Ucs2Decode(s)| == |s| ==> Ucs2Decode(s) == s
    decreases |s|
  {
    hide Combine;
    if s != [] {
      PointCount(s[FirstPoint(s).1..]);
    }
  }

  lemma PairIsWide(h: Unit, l: Unit)
    requires IsHigh(h) && 0xDC00 <= l <= 0xDFFF
    ensures Combine(h, l) != h && (l & 0xFC00) == 0xDC00
  {
  }

  lemma {:induction false} NoPairs(t: seq<Unit>, x: seq<Unit>)
    requires WellFormed(t) && Ucs2Decode(t + x) == t + x
    ensures Ucs2Decode(t) == t
    decreases |t|
  {
    hide Combine;
    if t != [] {
      var s := t + x;
      assert Ucs2Decode(s)[0] == FirstPoint(s).0 && s[0] == t[0];
      if IsHigh(t[0]) {
        PairIsWide(t[0], t[1]);
      } else {
        assert s[1..] == t[1..] + x;
        assert Ucs2Decode(s)[1..] == Ucs2Decode(s[1..]);
        NoPairs(t[1..], x);
      }
    }
  }

  /** If a text were read from itself and more, its encoding would be the low bytes of its units and of what follows. */
  lemma {:induction false} LowBytes(t: seq<Unit>, x: seq<Unit>)
    requires WellFormed(t) && x != [] && Utf8Decode(t + x) == Some(t)
    requires Utf8Encode(t).Some? && |Utf8Encode(t).value| == |t| + |x|
    ensures Scalars(t) && Utf8Encode(t) == EncodePoints(t) == Some(Mask(t + x))
  {
    hide FirstPoint, UnitsOf, EncodePoints, DecodePoints;
    WellFormedUnits(t);
    WellFormedScalars(t);
    hide WellFormed, IsScalar;
    DecodedBytes(t + x);
    PointCount(t + x);
    NoPairs(t, x);
  }

  /** The message a client cuts out for a text that is not ASCII runs into the next frame, and does not decode to
      the text. */
  lemma {:induction false} NotItsOwnPrefix(t: seq<Unit>, x: seq<Unit>)
    requires WellFormed(t) && !Ascii(t) && x != [] && x[0] < 0x80
    requires Utf8Encode(t).Some? && |Utf8Encode(t).value| == |t| + |x|
    ensures Utf8Decode(t + x) != Some(t)
  {
    if Utf8Decode(t + x) == Some(t) {
      LowBytes(t, x);
      hide FirstPoint, UnitsOf, EncodePoints, DecodePoints, Ucs2Decode, WellFormed, IsScalar;
      var bytes := EncodePoints(t).value;
      forall i | 0 <= i < |t| && bytes[i] >= 0x80 ensures t[i] >= 0x80 {
        MaskByte(t[i]);
        assert bytes[i] == t[i] & 0xFF;
      }
      MaskByte(x[0]);
      assert bytes[|t|] == x[0] & 0xFF;
      ByteAfterPoints(t);
    }
  }

  // ------------------------------------------------------------------
  // The text of a body.

  /** A packet as the client's string shows it: the digit of its type and its text. */
  function Shown(p: TextPacket): seq<Unit>
    requires ValidText(p)
  {
    [DigitUnit(p.kind)] + p.text
  }

  /** The length the server writes: of the packet's bytes. */
  function FrameLength(p: TextPacket): nat
    requires ValidText(p)
  {
    |EncodePacket(BytesOf(p))|
  }

  /** `responseText`: the lengths count bytes, the texts are in units. */
  function ResponseText(ts: seq<TextPacket>): seq<Unit>
    requires AllValid(ts)
  {
    if ts == [] then []
    else IntToString(FrameLength(ts[0])) + [COLON] + Shown(ts[0]) + ResponseText(ts[1..])
  }

  /** A well-formed string starts with the same code point whatever follows it. */
  lemma {:induction false} FirstOfConcat(a: seq<Unit>, b: seq<Unit>)
    requires a != [] && WellFormed(a)
    ensures FirstPoint(a + b) == FirstPoint(a) && FirstPoint(a).1 == if IsHigh(a[0]) then 2 else 1
    ensures WellFormed(a[FirstPoint(a).1..])
  {
    hide Combine, IsSurrogate;
    if IsHigh(a[0]) {
      PairIsWide(a[0], a[1]);
    }
  }

  lemma {:induction false} ExtendWellFormed(a: seq<Unit>, b: seq<Unit>)
    requires a != [] && WellFormed(a) && WellFormed(a[FirstPoint(a).1..] + b)
    ensures WellFormed(a + b)
  {
    FirstOfConcat(a, b);
    hide Combine, FirstPoint, IsSurrogate;
    var n := FirstPoint(a).1;
    assert (a + b)[n..] == a[n..] + b;
  }

  lemma {:induction false} WellFormedConcat(a: seq<Unit>, b: seq<Unit>)
    requires WellFormed(a) && WellFormed(b)
    ensures WellFormed(a + b) && Ucs2Decode(a + b) == Ucs2Decode(a) + Ucs2Decode(b)
    decreases |a|
  {
    hide FirstPoint, WellFormed;
    if a == [] {
      assert a + b == b;
    } else {
      FirstOfConcat(a, b);
      var n := FirstPoint(a).1;
      assert (a + b)[n..] == a[n..] + b;
      WellFormedConcat(a[n..], b);
      ExtendWellFormed(a, b);
      assert Ucs2Decode(a + b) == [FirstPoint(a).0] + Ucs2Decode(a[n..] + b);
    }
  }

  lemma {:induction false} EncodeConcat(p: seq<Unit>, q: seq<Unit>)
    requires EncodePoints(p).Some? && EncodePoints(q).Some?
    ensures EncodePoints(p + q) == Some(EncodePoints(p).value + EncodePoints(q).value)
    decreases |p|
  {
    hide EncodeCodePoint;
    if p == [] {
      assert p + q == q;
      assert [] + EncodePoints(q).value == EncodePoints(q).value;
    } else {
      assert (p + q)[1..] == p[1..] + q;
      EncodeConcat(p[1..], q);
      var first, rest := EncodeCodePoint(p[0]).value, EncodePoints(p[1..]).value;
      assert first + (rest + EncodePoints(q).value) == (first + rest) + EncodePoints(q).value;
    }
  }

  lemma {:induction false} ConcatText(a: seq<Unit>, b: seq<Unit>)
    requires WellFormed(a) && WellFormed(b)
    ensures WellFormed(a + b) && Utf8Encode(a).Some? && Utf8Encode(b).Some?
    ensures Utf8Encode(a + b) == Some(Utf8Encode(a).value + Utf8Encode(b).value)
  {
    WellFormedConcat(a, b);
    TextLength(a);
    TextLength(b);
    hide EncodePoints, Ucs2Decode, WellFormed;
    EncodeConcat(Ucs2Decode(a), Ucs2Decode(b));
  }

  lemma {:induction false} AsciiText(s: seq<Unit>)
    requires Ascii(s)
    ensures WellFormed(s) && Utf8Encode(s) == Some(s)
  {
    AsciiPoints(s);
    AsciiBytes(s);
    AsciiWellFormed(s);
  }

  lemma {:induction false} AsciiWellFormed(s: seq<Unit>)
    requires Ascii(s)
    ensures WellFormed(s)
  {
    if s != [] {
      AsciiWellFormed(s[1..]);
      AsciiNotSurrogate(s[0]);
      AsciiIsScalar(s[0]);
    }
  }

  lemma IntIsAscii(n: nat)
    ensures Ascii(IntToString(n)) && IntToString(n) != [] && Ascii([COLON])
  {
    NumberOfInt(n);
    var t := IntToString(n);
    hide IntToString, Number;
    forall i | 0 <= i < |t| ensures t[i] < 0x80 {
      NumberHasDigits(t, i);
    }
  }

  /** What the server writes for one packet is the UTF-8 form of what the client is to see. */
  lemma ShownBytes(p: TextPacket)
    requires ValidText(p)
    ensures WellFormed(Shown(p)) && Utf8Encode(Shown(p)) == Some(EncodePacket(BytesOf(p)))
    ensures Ascii(Shown(p)) <==> Ascii(p.text)
  {
    OneDigit(p.kind);
    DigitUnits(p.kind);
    Payloads.AsciiFirst(DigitUnit(p.kind), p.text);
    AsciiCons(p.text, DigitUnit(p.kind));
    hide IntToString, DigitUnit, UnitDigit, Utf8Encode, WellFormed, Ascii;
  }

  lemma {:induction false} ResponseBytes(ts: seq<TextPacket>)
    requires AllValid(ts)
    ensures WellFormed(ResponseText(ts)) && Utf8Encode(ResponseText(ts)) == Some(EncodePayload(AllBytes(ts)))
  {
    hide IntToString, EncodePacket, Utf8Encode, Shown, BytesOf, Ascii, WellFormed;
    if ts == [] {
      AsciiText([]);
      AsciiCons([], 0);
    } else {
      var packet, rest := BytesOf(ts[0]), ResponseText(ts[1..]);
      var number := IntToString(FrameLength(ts[0]));
      ResponseBytes(ts[1..]);
      ShownBytes(ts[0]);
      IntIsAscii(FrameLength(ts[0]));
      AsciiText(number);
      AsciiText([COLON]);
      ConcatText(number, [COLON]);
      ConcatText(number + [COLON], Shown(ts[0]));
      ConcatText(number + [COLON] + Shown(ts[0]), rest);
      assert AllBytes(ts)[0] == packet && AllBytes(ts)[1..] == AllBytes(ts[1..]);
    }
  }

  lemma {:induction false} BodyIsText(ts: seq<TextPacket>)
    requires AllValid(ts)
    ensures Utf8Decode(EncodePayload(AllBytes(ts))) == Some(ResponseText(ts))
  {
    hide IntToString, EncodePayload, Utf8Encode, Utf8Decode, ResponseText, WellFormed;
    ResponseBytes(ts);
    WellFormedUnits(ResponseText(ts));
    EncodeDecode(ResponseText(ts));
  }

  // ------------------------------------------------------------------
  // What the client gets.

  /** A frame whose text is ASCII is cut out whole. */
  lemma {:induction false} AsciiFrame(p: TextPacket, rest: seq<Unit>)
    requires ValidText(p) && Ascii(p.text)
    ensures FrameLength(p) == |Shown(p)|
    ensures var d := Deliver(Split(rest, []));
            Deliver(Split(IntToString(|Shown(p)|) + [COLON] + Shown(p) + rest, [])) == After([Payloads.Received(p)], d)
  {
    ShownBytes(p);
    TextLength(Shown(p));
    ClientReads(p);
    var f := Split(rest, []);
    OneFrame(Shown(p), rest);
    hide IntToString, EncodePacket, BytesOf, Utf8Encode, Split, Deliver, ClientDecodePacket, WellFormed, Ascii;
    FirstMessage(Shown(p), f);
  }

  lemma DigitIsItsUnit(u: Unit, d: nat)
    requires d < 10 && UnitDigit(u) == Some(d)
    ensures u == DigitUnit(d)
  {
  }

  /** A message that reads as a packet with a text is the packet's own string after decoding. */
  lemma ReadsAs(msg: seq<Unit>, p: TextPacket)
    requires ValidText(p) && p.text != [] && ClientDecodePacket(msg) == Payloads.Received(p)
    ensures Utf8Decode(msg) == Some(Shown(p))
  {
    hide Utf8Decode, UnitDigit, DigitUnit, ValidText;
    var text := Utf8Decode(msg).value;
    assert IsValidPacketType(p.kind);
    DigitIsItsUnit(text[0], p.kind);
    assert text == [text[0]] + text[1..];
  }

  /** A frame whose text is not ASCII is cut too long: the string ends too early, or a wrong message comes out. */
  lemma LongFrame(p: TextPacket, rest: seq<Unit>, n: nat)
    requires ValidText(p) && !Ascii(p.text) && (rest != [] ==> rest[0] < 0x80)
    requires n == FrameLength(p)
    ensures n > |Shown(p)|
    ensures n <= |Shown(p)| + |rest| ==> ClientDecodePacket((Shown(p) + rest)[..n]) != Payloads.Received(p)
  {
    ShownBytes(p);
    TextLength(Shown(p));
    hide EncodePacket, BytesOf, Utf8Encode, WellFormed, Ascii, Utf8Decode, ClientDecodePacket;
    if n <= |Shown(p)| + |rest| {
      var x := rest[..n - |Shown(p)|];
      assert (Shown(p) + rest)[..n] == Shown(p) + x;
      NotItsOwnPrefix(Shown(p), x);
      EmptyIsAscii();
      if ClientDecodePacket(Shown(p) + x) == Payloads.Received(p) {
        ReadsAs(Shown(p) + x, p);
      }
    }
  }

  lemma EmptyIsAscii()
    ensures Ascii([])
  {
  }

  /** The client's loop at the colon after a length. */
  lemma {:induction false} AtColon(n: nat, digits: seq<Unit>, s: seq<Unit>)
    requires n > 0 && Number(digits) == Some(n)
    ensures n > |s| ==> Split([COLON] + s, digits) == Frames([], true)
    ensures n <= |s| ==>
              var f := Split(s[n..], []);
              Split([COLON] + s, digits) == f.(messages := [s[..n]] + f.messages)
  {
    hide Number;
    var c := [COLON] + s;
    assert c[1..] == s;
    if n <= |s| {
      assert c[1..1 + n] == s[..n] && c[1 + n..] == s[n..];
    }
  }

  /** The first step of the client's loop. */
  lemma {:induction false} CutFrame(n: nat, s: seq<Unit>)
    requires n > 0
    ensures n > |s| ==> Split(IntToString(n) + [COLON] + s, []) == Frames([], true)
    ensures n <= |s| ==>
              var f := Split(s[n..], []);
              Split(IntToString(n) + [COLON] + s, []) == f.(messages := [s[..n]] + f.messages)
  {
    hide Number, IntToString, Split;
    var t := IntToString(n);
    NumberOfInt(n);
    assert t + [COLON] + s == t + ([COLON] + s);
    LengthText(t, [COLON] + s, []);
    assert [] + t == t;
    AtColon(n, t, s);
  }

  /** A wrong first message shows in the outcome. */
  lemma {:induction false} WrongFirst(f: Frames, p: TextPacket, others: seq<ClientPacket>)
    requires f.messages != [] && ClientDecodePacket(f.messages[0]) != Payloads.Received(p)
    ensures Deliver(f) != Outcome([Payloads.Received(p)] + others, false)
  {
    hide ClientDecodePacket, Payloads.Received;
    assert ([Payloads.Received(p)] + others)[0] == Payloads.Received(p);
  }

  lemma {:induction false} FirstUnitIsDigit(ts: seq<TextPacket>)
    requires AllValid(ts)
    ensures ResponseText(ts) != [] ==> ResponseText(ts)[0] < 0x80
  {
    hide FrameLength, IntToString;
    if ts != [] {
      IntIsAscii(FrameLength(ts[0]));
    }
  }

  lemma {:induction false} NonAsciiFails(ts: seq<TextPacket>)
    requires AllValid(ts) && !AllAscii(ts)
    ensures Deliver(Split(ResponseText(ts), [])) != Outcome(AllReceived(ts), false)
  {
    hide FrameLength, IntToString, Split, Deliver, Shown, Ascii, ValidText, Payloads.Received;
    var p, rest := ts[0], ResponseText(ts[1..]);
    var n := FrameLength(p);
    if Ascii(p.text) {
      AsciiFrame(p, rest);
      NonAsciiFails(ts[1..]);
      assert AllReceived(ts)[1..] == AllReceived(ts[1..]);
      var d := Deliver(Split(rest, []));
      assert ([Payloads.Received(p)] + d.packets)[1..] == d.packets;
    } else {
      FirstUnitIsDigit(ts[1..]);
      LongFrame(p, rest, n);
      var s := Shown(p) + rest;
      assert IntToString(n) + [COLON] + Shown(p) + rest == IntToString(n) + [COLON] + s;
      CutFrame(n, s);
      if n <= |s| {
        WrongFirst(Split(ResponseText(ts), []), p, AllReceived(ts[1..]));
      } else {
        NothingDelivered();
      }
    }
  }

  lemma NothingDelivered()
    ensures Deliver(Frames([], true)) == Outcome([], true)
  {
  }

  lemma {:induction false} AsciiDelivers(ts: seq<TextPacket>)
    requires AllValid(ts) && AllAscii(ts)
    ensures Deliver(Split(ResponseText(ts), [])) == Outcome(AllReceived(ts), false)
  {
    hide FrameLength, IntToString, Shown, Ascii, ValidText, Payloads.Received, ClientDecodePacket;
    if ts != [] {
      AsciiFrame(ts[0], ResponseText(ts[1..]));
      AsciiDelivers(ts[1..]);
    }
  }

  /** The client of a text poll gets exactly the types and texts sent if and only if all of them are ASCII. */
  lemma {:induction false} TextPollExact(ts: seq<TextPacket>)
    requires ts != [] && AllValid(ts)
    ensures ReadText(EncodePayload(AllBytes(ts))).Some?
    ensures ReadText(EncodePayload(AllBytes(ts))) == Some(Outcome(AllReceived(ts), false)) <==> AllAscii(ts)
  {
    hide FrameLength, IntToString, Split, Deliver, Shown, Ascii, ValidText, AllReceived, Utf8Decode,
      EncodePayload;
    BodyIsText(ts);
    IntIsAscii(FrameLength(ts[0]));
    assert ResponseText(ts) != [];
    hide AllAscii, ResponseText;
    if AllAscii(ts) {
      AsciiDelivers(ts);
    } else {
      NonAsciiFails(ts);
    }
  }

  /** One letter beyond ASCII: the body is `3:4` and the two bytes of U+00E9, the client sees `3:4` and one unit. */
  lemma OneAccentFails()
    ensures var ts := [TextPacket(4, [0xE9])];
            && AllValid(ts) && EncodePayload(AllBytes(ts)) == [51, 58, 52, 0xC3, 0xA9]
            && ReadText(EncodePayload(AllBytes(ts))) == Some(Outcome([], true))
  {
    hide Utf8Encode, Utf8Decode, IntToString, WellFormed, Split, Deliver, DecodePayload;
    var p := OneAccent();
    BodyIsText([p]);
    CutFrame(3, Shown(p) + []);
    NothingDelivered();
    OneAccentText(p);
    assert [51] + [COLON] + (Shown(p) + []) == ResponseText([p]);
    NotEmpty(ResponseText([p]));
  }

  lemma {:induction false} NotEmpty(s: seq<Unit>)
    requires s != []
    ensures DecodePayload(s) == Deliver(Split(s, []))
  {
  }

  lemma OneAccent() returns (p: TextPacket)
    ensures p == TextPacket(4, [0xE9]) && ValidText(p) && EncodePacket(BytesOf(p)) == [52, 0xC3, 0xA9]
    ensures IntToString(3) == [51]
  {
    p := TextPacket(4, [0xE9]);
    OneAccentBytes();
    OneDigit(3);
    OneDigit(4);
    hide Utf8Encode, IntToString, WellFormed;
  }

  lemma {:induction false} OneAccentText(p: TextPacket)
    requires ValidText(p) && EncodePacket(BytesOf(p)) == [52, 0xC3, 0xA9] && IntToString(3) == [51]
    ensures AllValid([p]) && EncodePayload(AllBytes([p])) == [51, 58, 52, 0xC3, 0xA9]
    ensures ResponseText([p]) == [51] + [COLON] + Shown(p)
  {
    hide EncodePacket, IntToString, BytesOf, Shown;
    assert [p][1..] == [] && [BytesOf(p)][1..] == [];
    assert AllBytes([p]) == [BytesOf(p)];
    assert ResponseText([p]) == [51] + [COLON] + Shown(p) + [];
  }

  lemma OneAccentBytes()
    ensures Units16([0xE9]) && WellFormed([0xE9]) && Utf8Encode([0xE9]) == Some([0xC3, 0xA9])
  {
    var s: seq<Unit> := [0xE9];
    assert s[1..] == [] && !IsHigh(s[0]) && !IsSurrogate(s[0]);
    assert WellFormed(s[1..]) && Units16(s);
    assert Ucs2Decode(s) == [0xE9] + Ucs2Decode([]) == [0xE9];
    assert EncodeCodePoint(0xE9) == Some([0xC3, 0xA9]);
    assert [0xC3 as Unit, 0xA9] + [] == [0xC3, 0xA9];
    assert EncodePoints(s[1..]) == Some([]);
  }
}
