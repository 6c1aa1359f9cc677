/** The `utf8` module of the client: UTF-16 strings to and from byte strings with one unit per byte (section 3 of
    RFC 3629).  An exception is a missing result. */
module Utf8 {
  import opened Options

  /** A 16-bit code unit, a byte or a code point: JavaScript numbers under 32-bit operators. */
  type Unit = bv32

  predicate Units16(s: seq<Unit>) {
    forall i :: 0 <= i < |s| ==> s[i] <= 0xFFFF
  }

  predicate Bytes8(s: seq<Unit>) {
    forall i :: 0 <= i < |s| ==> s[i] <= 0xFF
  }

  // ------------------------------------------------------------------
  // UTF-16.

  predicate IsHigh(u: Unit) {
    0xD800 <= u <= 0xDBFF
  }

  function Combine(value: Unit, extra: Unit): Unit {
    ((value & 0x3FF) << 10) + (extra & 0x3FF) + 0x10000
  }

  /** The first code point of a non-empty string, and the number of units it takes. */
  function FirstPoint(s: seq<Unit>): (r: (Unit, nat))
    requires s != []
    ensures 1 <= r.1 <= |s|
  {
    if IsHigh(s[0]) && |s| > 1 && (s[1] & 0xFC00) == 0xDC00 then (Combine(s[0], s[1]), 2) else (s[0], 1)
  }

  function Ucs2Decode(s: seq<Unit>): seq<Unit>
    decreases |s|
  {
    if s == [] then [] else [FirstPoint(s).0] + Ucs2Decode(s[FirstPoint(s).1..])
  }

  function HighOf(v: Unit): Unit {
    ((v >> 10) & 0x3FF) | 0xD800
  }

  function LowOf(v: Unit): Unit {
    0xDC00 | (v & 0x3FF)
  }

  function UnitsOf(value: Unit): (u: seq<Unit>)
    ensures 1 <= |u| <= 2
  {
    if value > 0xFFFF then [HighOf(value - 0x10000), LowOf(value - 0x10000)] else [value]
  }

  function Ucs2Encode(points: seq<Unit>): seq<Unit> {
    if points == [] then [] else UnitsOf(points[0]) + Ucs2Encode(points[1..])
  }

  predicate IsSurrogate(u: Unit) {
    0xD800 <= u <= 0xDFFF
  }

  /** A Unicode scalar value. */
  predicate IsScalar(cp: Unit) {
    cp <= 0x10FFFF && !IsSurrogate(cp)
  }

  predicate Scalars(points: seq<Unit>) {
    forall i :: 0 <= i < |points| ==> IsScalar(points[i])
  }

  /** Well-formed UTF-16: surrogates come in pairs, high before low. */
  predicate WellFormed(s: seq<Unit>)
    decreases |s|
  {
    if s == [] then true
    else if IsHigh(s[0]) then |s| > 1 && 0xDC00 <= s[1] <= 0xDFFF && WellFormed(s[2..])
    else s[0] <= 0xFFFF && !IsSurrogate(s[0]) && WellFormed(s[1..])
  }

  lemma LowTest(u: Unit)
    requires u <= 0xFFFF
    ensures (u & 0xFC00) == 0xDC00 <==> 0xDC00 <= u <= 0xDFFF
  {
  }

  lemma PairRoundTrip(h: Unit, l: Unit)
    requires IsHigh(h) && 0xDC00 <= l <= 0xDFFF
    ensures UnitsOf(Combine(h, l)) == [h, l] && 0x10000 <= Combine(h, l) <= 0x10FFFF
  {
  }

  lemma Halves(v: Unit)
    requires v < 0x100000
    ensures var h, l := ((v >> 10) & 0x3FF) | 0xD800, 0xDC00 | (v & 0x3FF);
            0xD800 <= h <= 0xDBFF && 0xDC00 <= l <= 0xDFFF && (l & 0xFC00) == 0xDC00
            && ((h & 0x3FF) << 10) + (l & 0x3FF) == v
  {
  }

  predicate IsLow(u: Unit) {
    0xDC00 <= u <= 0xDFFF && (u & 0xFC00) == 0xDC00
  }

  lemma SplitPoint(v: Unit, cp: Unit)
    requires v < 0x100000 && v + 0x10000 == cp
    ensures IsHigh(HighOf(v)) && IsLow(LowOf(v)) && Combine(HighOf(v), LowOf(v)) == cp
  {
    Halves(v);
  }

  lemma Lowered(cp: Unit) returns (v: Unit)
    requires 0x10000 <= cp <= 0x10FFFF
    ensures v < 0x100000
    ensures v + 0x10000 == cp
  {
    v := cp - 0x10000;
  }

  lemma Raised(cp: Unit, v: Unit)
    requires v < 0x100000
    requires v + 0x10000 == cp
    ensures cp > 0xFFFF && v == cp - 0x10000
  {
  }

  lemma UnitsOfPair(cp: Unit, v: Unit)
    requires cp > 0xFFFF && v == cp - 0x10000
    ensures UnitsOf(cp) == [HighOf(v), LowOf(v)]
  {
    hide HighOf, LowOf;
  }

  lemma PairSurvives(cp: Unit, v: Unit)
    requires UnitsOf(cp) == [HighOf(v), LowOf(v)]
    requires IsHigh(HighOf(v)) && IsLow(LowOf(v)) && Combine(HighOf(v), LowOf(v)) == cp
    ensures var u := UnitsOf(cp);
            |u| == 2 && IsHigh(u[0]) && IsLow(u[1]) && Combine(u[0], u[1]) == cp
  {
    hide *;
  }

  lemma PointRoundTrip(cp: Unit)
    requires 0x10000 <= cp <= 0x10FFFF
    ensures var u := UnitsOf(cp);
            |u| == 2 && IsHigh(u[0]) && IsLow(u[1]) && Combine(u[0], u[1]) == cp
  {
    hide *;
    var v := Lowered(cp);
    Raised(cp, v);
    UnitsOfPair(cp, v);
    SplitPoint(v, cp);
    PairSurvives(cp, v);
  }

  /** For every 16-bit string, lone surrogates included, encoding the decoded code points restores it. */
  lemma {:induction false} Ucs2RoundTrip(s: seq<Unit>)
    requires Units16(s)
    ensures Ucs2Encode(Ucs2Decode(s)) == s
    decreases |s|
  {
    hide Combine, UnitsOf;
    if s != [] {
      var n := FirstPoint(s).1;
      FirstUnits(s);
      Ucs2RoundTrip(s[n..]);
      var ps := Ucs2Decode(s);
      assert ps[1..] == Ucs2Decode(s[n..]);
      assert s == s[..n] + s[n..];
    }
  }

  lemma FirstUnits(s: seq<Unit>)
    requires s != [] && Units16(s)
    ensures UnitsOf(FirstPoint(s).0) == s[..FirstPoint(s).1]
  {
    hide Combine;
    if FirstPoint(s).1 == 2 {
      LowTest(s[1]);
      PairRoundTrip(s[0], s[1]);
      assert s[..2] == [s[0], s[1]];
    } else {
      assert s[..1] == [s[0]];
    }
  }

  /** Scalar values survive the way back. */
  lemma {:induction false} PointsRoundTrip(points: seq<Unit>)
    requires Scalars(points)
    ensures Ucs2Decode(Ucs2Encode(points)) == points
    ensures WellFormed(Ucs2Encode(points))
  {
    if points != [] {
      var cp, rest := points[0], Ucs2Encode(points[1..]);
      PointsRoundTrip(points[1..]);
      FirstOfEncoded(cp, rest);
      assert (UnitsOf(cp) + rest)[|UnitsOf(cp)|..] == rest;
    }
  }

  lemma {:induction false} FirstOfEncoded(cp: Unit, rest: seq<Unit>)
    requires IsScalar(cp)
    ensures FirstPoint(UnitsOf(cp) + rest) == (cp, |UnitsOf(cp)|)
    ensures WellFormed(rest) ==> WellFormed(UnitsOf(cp) + rest)
  {
    if cp > 0xFFFF {
      PointRoundTrip(cp);
      hide Combine, UnitsOf;
      assert (UnitsOf(cp) + rest)[2..] == rest;
    } else {
      assert (UnitsOf(cp) + rest)[1..] == rest;
    }
  }

  /** A string decodes to scalar values exactly if it is well-formed. */
  lemma {:induction false} WellFormedScalars(s: seq<Unit>)
    requires Units16(s)
    ensures WellFormed(s) <==> Scalars(Ucs2Decode(s))
    decreases |s|
  {
    hide Combine;
    if s != [] {
      var n := FirstPoint(s).1;
      WellFormedScalars(s[n..]);
      var ps := Ucs2Decode(s);
      assert ps[1..] == Ucs2Decode(s[n..]);
      assert Scalars(ps) <==> IsScalar(ps[0]) && Scalars(ps[1..]);
      if |s| > 1 {
        LowTest(s[1]);
      }
      if n == 2 {
        PairRoundTrip(s[0], s[1]);
      }
    }
  }

  lemma {:induction false} Ucs2OfBytes(s: seq<Unit>)
    requires Bytes8(s)
    ensures Ucs2Decode(s) == s
    decreases |s|
  {
    if s != [] {
      Ucs2OfBytes(s[1..]);
    }
  }

  // ------------------------------------------------------------------
  // Encoding.

  predicate Fits7(cp: Unit) {
    (cp & 0xFFFFFF80) == 0
  }

  predicate Fits11(cp: Unit) {
    (cp & 0xFFFFF800) == 0
  }

  predicate Fits16(cp: Unit) {
    (cp & 0xFFFF0000) == 0
  }

  predicate Fits21(cp: Unit) {
    (cp & 0xFFE00000) == 0
  }

  function Lead2(cp: Unit): Unit {
    ((cp >> 6) & 0x1F) | 0xC0
  }

  function Lead3(cp: Unit): Unit {
    ((cp >> 12) & 0x0F) | 0xE0
  }

  function Lead4(cp: Unit): Unit {
    ((cp >> 18) & 0x07) | 0xF0
  }

  /** `createByte`, of the code point shifted by 12, by 6 or not at all. */
  function CreateByte(shifted: Unit): Unit {
    (shifted & 0x3F) | 0x80
  }

  function EncodeCodePoint(cp: Unit): Option<seq<Unit>> {
    if Fits7(cp) then Some([cp])
    else if Fits11(cp) then Some([Lead2(cp), CreateByte(cp)])
    else if Fits16(cp) then
      if IsSurrogate(cp) then None else Some([Lead3(cp), CreateByte(cp >> 6), CreateByte(cp)])
    else if Fits21(cp) then
      Some([Lead4(cp), CreateByte(cp >> 12), CreateByte(cp >> 6), CreateByte(cp)])
    else Some([CreateByte(cp)])
  }

  function EncodePoints(points: seq<Unit>): Option<seq<Unit>> {
    if points == [] then Some([])
    else
      var first := EncodeCodePoint(points[0]);
      var rest := EncodePoints(points[1..]);
      if first.Some? && rest.Some? then Some(first.value + rest.value) else None
  }

  function Utf8Encode(s: seq<Unit>): Option<seq<Unit>> {
    EncodePoints(Ucs2Decode(s))
  }

  // ------------------------------------------------------------------
  // Decoding.

  datatype Symbol = Symbol(point: Unit, size: nat) | Invalid

  predicate IsContinuation(b: Unit) {
    (b & 0xFF & 0xC0) == 0x80
  }

  predicate IsLead1(b: Unit) {
    (b & 0xFF & 0x80) == 0
  }

  predicate IsLead2(b: Unit) {
    (b & 0xFF & 0xE0) == 0xC0
  }

  predicate IsLead3(b: Unit) {
    (b & 0xFF & 0xF0) == 0xE0
  }

  predicate IsLead4(b: Unit) {
    (b & 0xFF & 0xF8) == 0xF0
  }

  /** The six bits of a continuation byte. */
  function Six(b: Unit): Unit {
    b & 0xFF & 0x3F
  }

  /** The code points of two, three and four bytes, from the first byte and the six bits of each other. */
  function Point2(byte1: Unit, b: Unit): Unit {
    ((byte1 & 0xFF & 0x1F) << 6) | b
  }

  function Point3(byte1: Unit, b: Unit, c: Unit): Unit {
    ((byte1 & 0xFF & 0x0F) << 12) | (b << 6) | c
  }

  function Point4(byte1: Unit, b: Unit, c: Unit, d: Unit): Unit {
    ((byte1 & 0xFF & 0x0F) << 18) | (b << 12) | (c << 6) | d
  }

  function Join2(a: Unit, b: Unit): Unit {
    Point2(a, Six(b))
  }

  function Join3(a: Unit, b: Unit, c: Unit): Unit {
    Point3(a, Six(b), Six(c))
  }

  function Join4(a: Unit, b: Unit, c: Unit, d: Unit): Unit {
    Point4(a, Six(b), Six(c), Six(d))
  }

  /** The rest of `decodeSymbol` after a first byte of each kind. */
  function Symbol2(s: seq<Unit>): (r: Symbol)
    requires s != []
    ensures r.Symbol? ==> r.size == 2 <= |s|
  {
    if |s| > 1 && IsContinuation(s[1]) && Join2(s[0], s[1]) >= 0x80 then Symbol(Join2(s[0], s[1]), 2) else Invalid
  }

  function Symbol3(s: seq<Unit>): (r: Symbol)
    requires s != []
    ensures r.Symbol? ==> r.size == 3 <= |s|
  {
    if |s| > 2 && IsContinuation(s[1]) && IsContinuation(s[2]) then
      var cp := Join3(s[0], s[1], s[2]);
      if cp >= 0x0800 && !IsSurrogate(cp) then Symbol(cp, 3) else Invalid
    else Invalid
  }

  function Symbol4(s: seq<Unit>): (r: Symbol)
    requires s != []
    ensures r.Symbol? ==> r.size == 4 <= |s|
  {
    if |s| > 3 && IsContinuation(s[1]) && IsContinuation(s[2]) && IsContinuation(s[3]) then
      var cp := Join4(s[0], s[1], s[2], s[3]);
      if 0x010000 <= cp <= 0x10FFFF then Symbol(cp, 4) else Invalid
    else Invalid
  }

  /** One code point from the front of a non-empty byte array. */
  function FirstSymbol(s: seq<Unit>): (r: Symbol)
    requires s != []
    ensures r.Symbol? ==> 1 <= r.size <= |s|
  {
    if IsLead1(s[0]) then Symbol(s[0] & 0xFF, 1)
    else if IsLead2(s[0]) then Symbol2(s)
    else if IsLead3(s[0]) then Symbol3(s)
    else if IsLead4(s[0]) then Symbol4(s)
    else Invalid
  }

  lemma SymbolByLead(s: seq<Unit>)
    requires s != []
    ensures IsLead1(s[0]) ==> FirstSymbol(s) == Symbol(s[0] & 0xFF, 1)
    ensures !IsLead1(s[0]) && IsLead2(s[0]) ==> FirstSymbol(s) == Symbol2(s)
    ensures !IsLead1(s[0]) && !IsLead2(s[0]) && IsLead3(s[0]) ==> FirstSymbol(s) == Symbol3(s)
    ensures !IsLead1(s[0]) && !IsLead2(s[0]) && !IsLead3(s[0]) && IsLead4(s[0]) ==> FirstSymbol(s) == Symbol4(s)
    ensures !IsLead1(s[0]) && !IsLead2(s[0]) && !IsLead3(s[0]) && !IsLead4(s[0]) ==> FirstSymbol(s) == Invalid
  {
  }

  function DecodePoints(s: seq<Unit>): Option<seq<Unit>>
    decreases |s|
  {
    if s == [] then Some([])
    else
      var first := FirstSymbol(s);
      if first.Invalid? then None
      else
        var rest := DecodePoints(s[first.size..]);
        if rest.Some? then Some([first.point] + rest.value) else None
  }

  function Utf8Decode(byteString: seq<Unit>): Option<seq<Unit>> {
    var points := DecodePoints(Ucs2Decode(byteString));
    if points.Some? then Some(Ucs2Encode(points.value)) else None
  }

  // ------------------------------------------------------------------
  // One code point: the four lengths.

  predicate ReadBack(bs: seq<Unit>, cp: Unit) {
    1 <= |bs| <= 4 && Bytes8(bs) && FirstSymbol(bs) == Symbol(cp, |bs|)
  }

  predicate RoundTrips(cp: Unit) {
    EncodeCodePoint(cp).Some? && ReadBack(EncodeCodePoint(cp).value, cp)
  }

  lemma Bits1(cp: Unit)
    requires cp < 0x80
    ensures Fits7(cp) && cp & 0xFF == cp && IsLead1(cp)
  {
  }

  lemma Bits2(cp: Unit)
    requires 0x80 <= cp < 0x800
    ensures !Fits7(cp) && Fits11(cp)
    ensures var a, b := Lead2(cp), CreateByte(cp);
            && a <= 0xFF && b <= 0xFF && !IsLead1(a) && IsLead2(a) && IsContinuation(b) && Join2(a, b) == cp
  {
  }

  lemma RawBits3(cp: Unit)
    requires 0x800 <= cp < 0x10000
    ensures var a, b, c := ((cp >> 12) & 0x0F) | 0xE0, ((cp >> 6) & 0x3F) | 0x80, (cp & 0x3F) | 0x80;
            && a <= 0xFF && b <= 0xFF && c <= 0xFF
            && (a & 0xFF & 0x80) != 0 && (a & 0xFF & 0xE0) != 0xC0 && (a & 0xFF & 0xF0) == 0xE0
            && (b & 0xFF & 0xC0) == 0x80 && (c & 0xFF & 0xC0) == 0x80
            && ((a & 0xFF & 0x0F) << 12) | ((b & 0xFF & 0x3F) << 6) | (c & 0xFF & 0x3F) == cp
  {
  }

  lemma Bits3(cp: Unit)
    requires 0x800 <= cp < 0x10000
    ensures !Fits7(cp) && !Fits11(cp) && Fits16(cp)
    ensures var a, b, c := Lead3(cp), CreateByte(cp >> 6), CreateByte(cp);
            && a <= 0xFF && b <= 0xFF && c <= 0xFF && !IsLead1(a) && !IsLead2(a) && IsLead3(a)
            && IsContinuation(b) && IsContinuation(c) && Join3(a, b, c) == cp
  {
    hide Fits7, Fits11, Fits16, Lead3, CreateByte, IsLead1, IsLead2, IsLead3, IsContinuation, Join3;
    NeedsThree(cp);
    LeadOfThree(cp);
    ContinuationByte(cp >> 6);
    ContinuationByte(cp);
    JoinOfThree(cp);
  }

  lemma NeedsThree(cp: Unit)
    requires 0x800 <= cp < 0x10000
    ensures !Fits7(cp) && !Fits11(cp) && Fits16(cp)
  {
  }

  lemma LeadOfThree(cp: Unit)
    requires 0x800 <= cp < 0x10000
    ensures var a := Lead3(cp); a <= 0xFF && !IsLead1(a) && !IsLead2(a) && IsLead3(a)
  {
  }

  lemma JoinOfThree(cp: Unit)
    requires 0x800 <= cp < 0x10000
    ensures Join3(Lead3(cp), CreateByte(cp >> 6), CreateByte(cp)) == cp
  {
    RawBits3(cp);
  }

  lemma RawBits4(cp: Unit)
    requires 0x10000 <= cp <= 0x10FFFF
    ensures var a, b, c, d := ((cp >> 18) & 0x07) | 0xF0, ((cp >> 12) & 0x3F) | 0x80, ((cp >> 6) & 0x3F) | 0x80,
          (cp & 0x3F) | 0x80;
            && a <= 0xFF && b <= 0xFF && c <= 0xFF && d <= 0xFF
            && (a & 0xFF & 0x80) != 0 && (a & 0xFF & 0xE0) != 0xC0 && (a & 0xFF & 0xF0) != 0xE0
            && (a & 0xFF & 0xF8) == 0xF0
            && (b & 0xFF & 0xC0) == 0x80 && (c & 0xFF & 0xC0) == 0x80 && (d & 0xFF & 0xC0) == 0x80
            && ((a & 0xFF & 0x0F) << 18) | ((b & 0xFF & 0x3F) << 12) | ((c & 0xFF & 0x3F) << 6) | (d & 0xFF & 0x3F)
               == cp
  {
  }

  lemma Bits4(cp: Unit)
    requires 0x10000 <= cp <= 0x10FFFF
    ensures !Fits7(cp) && !Fits11(cp) && !Fits16(cp) && Fits21(cp)
    ensures var a, b, c, d := Lead4(cp), CreateByte(cp >> 12), CreateByte(cp >> 6), CreateByte(cp);
            && a <= 0xFF && b <= 0xFF && c <= 0xFF && d <= 0xFF
            && !IsLead1(a) && !IsLead2(a) && !IsLead3(a) && IsLead4(a)
            && IsContinuation(b) && IsContinuation(c) && IsContinuation(d) && Join4(a, b, c, d) == cp
  {
    hide Fits7, Fits11, Fits16, Fits21, Lead4, CreateByte, IsLead1, IsLead2, IsLead3, IsLead4, IsContinuation, Join4;
    NeedsFour(cp);
    LeadOfFour(cp);
    ContinuationByte(cp >> 12);
    ContinuationByte(cp >> 6);
    ContinuationByte(cp);
    JoinOfFour(cp);
  }

  lemma NeedsFour(cp: Unit)
    requires 0x10000 <= cp <= 0x10FFFF
    ensures !Fits7(cp) && !Fits11(cp) && !Fits16(cp) && Fits21(cp)
  {
  }

  lemma LeadOfFour(cp: Unit)
    requires 0x10000 <= cp <= 0x10FFFF
    ensures var a := Lead4(cp); a <= 0xFF && !IsLead1(a) && !IsLead2(a) && !IsLead3(a) && IsLead4(a)
  {
  }

  lemma ContinuationByte(shifted: Unit)
    ensures CreateByte(shifted) <= 0xFF && IsContinuation(CreateByte(shifted))
  {
  }

  lemma JoinOfFour(cp: Unit)
    requires 0x10000 <= cp <= 0x10FFFF
    ensures Join4(Lead4(cp), CreateByte(cp >> 12), CreateByte(cp >> 6), CreateByte(cp)) == cp
  {
    RawBits4(cp);
  }

  lemma Survives1(cp: Unit)
    requires cp < 0x80
    ensures RoundTrips(cp)
  {
    Bits1(cp);
    hide Fits7, Fits11, Fits16, Fits21, Lead2, Lead3, Lead4, CreateByte;
    hide IsContinuation, IsLead1, IsLead2, IsLead3, IsLead4, Join2, Join3, Join4;
  }

  lemma Survives2(cp: Unit)
    requires 0x80 <= cp < 0x800
    ensures RoundTrips(cp)
  {
    Bits2(cp);
    hide Fits7, Fits11, Fits16, Fits21, Lead2, Lead3, Lead4, CreateByte;
    hide IsContinuation, IsLead1, IsLead2, IsLead3, IsLead4, Join2, Join3, Join4;
  }

  lemma Survives3(cp: Unit)
    requires 0x800 <= cp < 0x10000 && !IsSurrogate(cp)
    ensures RoundTrips(cp)
  {
    hide Fits7, Fits11, Fits16, Fits21, Lead2, Lead3, Lead4, CreateByte;
    hide IsContinuation, IsLead1, IsLead2, IsLead3, IsLead4, Join2, Join3, Join4, IsSurrogate;
    Bits3(cp);
    var s := [Lead3(cp), CreateByte(cp >> 6), CreateByte(cp)];
    assert EncodeCodePoint(cp) == Some(s);
    assert s[0] == Lead3(cp) && s[1] == CreateByte(cp >> 6) && s[2] == CreateByte(cp);
    assert FirstSymbol(s) == Symbol(cp, 3);
  }

  lemma Survives4(cp: Unit)
    requires 0x10000 <= cp <= 0x10FFFF
    ensures RoundTrips(cp)
  {
    hide Fits7, Fits11, Fits16, Fits21, Lead2, Lead3, Lead4, CreateByte;
    hide IsContinuation, IsLead1, IsLead2, IsLead3, IsLead4, Join2, Join3, Join4;
    Bits4(cp);
    var s := [Lead4(cp), CreateByte(cp >> 12), CreateByte(cp >> 6), CreateByte(cp)];
    assert EncodeCodePoint(cp) == Some(s);
    assert s[0] == Lead4(cp) && s[1] == CreateByte(cp >> 12) && s[2] == CreateByte(cp >> 6) && s[3] == CreateByte(cp);
    assert FirstSymbol(s) == Symbol(cp, 4);
  }

  lemma PointSurvives(cp: Unit)
    requires IsScalar(cp)
    ensures RoundTrips(cp)
  {
    hide RoundTrips;
    if cp < 0x80 {
      Survives1(cp);
    } else if cp < 0x800 {
      Survives2(cp);
    } else if cp < 0x10000 {
      Survives3(cp);
    } else {
      Survives4(cp);
    }
  }

  lemma SameFront(s: seq<Unit>, t: seq<Unit>)
    requires s != [] && |t| >= |s| && t[0] == s[0]
    requires |s| > 1 ==> t[1] == s[1]
    requires |s| > 2 ==> t[2] == s[2]
    requires |s| > 3 ==> t[3] == s[3]
    requires FirstSymbol(s).Symbol? && FirstSymbol(s).size == |s|
    ensures FirstSymbol(t) == FirstSymbol(s)
  {
    hide IsContinuation, IsLead1, IsLead2, IsLead3, IsLead4, Join2, Join3, Join4, IsSurrogate;
  }

  /** Only the units of the symbol itself matter. */
  lemma FirstSymbolPrefix(s: seq<Unit>, rest: seq<Unit>)
    requires s != [] && FirstSymbol(s).Symbol? && FirstSymbol(s).size == |s|
    ensures FirstSymbol(s + rest) == FirstSymbol(s)
  {
    hide FirstSymbol;
    SameFront(s, s + rest);
  }

  lemma Bytes1(b: Unit)
    requires b <= 0xFF && IsLead1(b)
    ensures b & 0xFF == b && IsScalar(b) && Fits7(b)
  {
  }

  lemma Bytes2(a: Unit, b: Unit)
    requires a <= 0xFF && b <= 0xFF && IsLead2(a) && IsContinuation(b)
    ensures var cp := Join2(a, b);
            Fits11(cp) && (cp >= 0x80 ==> !Fits7(cp) && IsScalar(cp)) && Lead2(cp) == a && CreateByte(cp) == b
  {
  }

  lemma Bytes3(a: Unit, b: Unit, c: Unit)
    requires a <= 0xFF && b <= 0xFF && c <= 0xFF && IsLead3(a) && IsContinuation(b) && IsContinuation(c)
    ensures var cp := Join3(a, b, c);
            && Fits16(cp) && cp <= 0xFFFF && (cp >= 0x800 ==> !Fits7(cp) && !Fits11(cp))
            && Lead3(cp) == a && CreateByte(cp >> 6) == b && CreateByte(cp) == c
  {
  }

  lemma Bytes4(a: Unit, b: Unit, c: Unit, d: Unit)
    requires a <= 0xFF && b <= 0xFF && c <= 0xFF && d <= 0xFF && IsLead4(a)
    requires IsContinuation(b) && IsContinuation(c) && IsContinuation(d)
    ensures var cp := Join4(a, b, c, d);
            && (0x10000 <= cp <= 0x10FFFF ==> !Fits7(cp) && !Fits11(cp) && !Fits16(cp) && Fits21(cp))
            && Lead4(cp) == a && CreateByte(cp >> 12) == b && CreateByte(cp >> 6) == c && CreateByte(cp) == d
  {
  }

  lemma AboveSurrogates(cp: Unit)
    requires 0x10000 <= cp <= 0x10FFFF
    ensures IsScalar(cp)
  {
  }

  lemma Encodes(cp: Unit, n: nat)
    ensures n == 1 && Fits7(cp) ==> EncodeCodePoint(cp) == Some([cp])
    ensures n == 2 && !Fits7(cp) && Fits11(cp) ==> EncodeCodePoint(cp) == Some([Lead2(cp), CreateByte(cp)])
    ensures n == 3 && !Fits7(cp) && !Fits11(cp) && Fits16(cp) && !IsSurrogate(cp) ==>
              EncodeCodePoint(cp) == Some([Lead3(cp), CreateByte(cp >> 6), CreateByte(cp)])
    ensures n == 4 && !Fits7(cp) && !Fits11(cp) && !Fits16(cp) && Fits21(cp) ==>
              EncodeCodePoint(cp) == Some([Lead4(cp), CreateByte(cp >> 12), CreateByte(cp >> 6), CreateByte(cp)])
  {
  }

  /** What a decoded symbol says about its bytes. */
  lemma SymbolShape(s: seq<Unit>)
    requires s != [] && FirstSymbol(s).Symbol?
    ensures var f := FirstSymbol(s);
            || (f.size == 1 && IsLead1(s[0]) && f.point == s[0] & 0xFF)
            || (f.size == 2 && IsLead2(s[0]) && IsContinuation(s[1]) && f.point == Join2(s[0], s[1]) && f.point >= 0x80)
            || (f.size == 3 && IsLead3(s[0]) && IsContinuation(s[1]) && IsContinuation(s[2])
                && f.point == Join3(s[0], s[1], s[2]) && f.point >= 0x800 && !IsSurrogate(f.point))
            || (f.size == 4 && IsLead4(s[0]) && IsContinuation(s[1]) && IsContinuation(s[2]) && IsContinuation(s[3])
                && f.point == Join4(s[0], s[1], s[2], s[3]) && 0x10000 <= f.point <= 0x10FFFF)
  {
    hide IsContinuation, IsLead1, IsLead2, IsLead3, IsLead4, Join2, Join3, Join4, IsSurrogate;
  }

  lemma SymbolSurvives2(a: Unit, b: Unit)
    requires a <= 0xFF && b <= 0xFF && IsLead2(a) && IsContinuation(b) && Join2(a, b) >= 0x80
    ensures IsScalar(Join2(a, b)) && EncodeCodePoint(Join2(a, b)) == Some([a, b])
  {
    hide Fits7, Fits11, Fits16, Fits21, Lead2, Lead3, Lead4, CreateByte;
    hide IsContinuation, IsLead1, IsLead2, IsLead3, IsLead4, Join2, Join3, Join4, IsSurrogate, EncodeCodePoint;
    Bytes2(a, b);
    Encodes(Join2(a, b), 2);
  }

  lemma SymbolSurvives3(a: Unit, b: Unit, c: Unit)
    requires a <= 0xFF && b <= 0xFF && c <= 0xFF && IsLead3(a) && IsContinuation(b) && IsContinuation(c)
    requires Join3(a, b, c) >= 0x800 && !IsSurrogate(Join3(a, b, c))
    ensures IsScalar(Join3(a, b, c)) && EncodeCodePoint(Join3(a, b, c)) == Some([a, b, c])
  {
    hide Fits7, Fits11, Fits16, Fits21, Lead2, Lead3, Lead4, CreateByte;
    hide IsContinuation, IsLead1, IsLead2, IsLead3, IsLead4, Join2, Join3, Join4, IsSurrogate, EncodeCodePoint;
    Bytes3(a, b, c);
    NotAbove(Join3(a, b, c));
    Encodes(Join3(a, b, c), 3);
  }

  /** The four bytes of a code point that needs four. */
  predicate FourBytes(cp: Unit, a: Unit, b: Unit, c: Unit, d: Unit) {
    && !Fits7(cp) && !Fits11(cp) && !Fits16(cp) && Fits21(cp)
    && Lead4(cp) == a && CreateByte(cp >> 12) == b && CreateByte(cp >> 6) == c && CreateByte(cp) == d
  }

  lemma JoinedFour(a: Unit, b: Unit, c: Unit, d: Unit, cp: Unit)
    requires a <= 0xFF && b <= 0xFF && c <= 0xFF && d <= 0xFF && IsLead4(a)
    requires IsContinuation(b) && IsContinuation(c) && IsContinuation(d)
    requires cp == Join4(a, b, c, d) && 0x10000 <= cp <= 0x10FFFF
    ensures FourBytes(cp, a, b, c, d)
  {
    hide Fits7, Fits11, Fits16, Fits21, Lead4, CreateByte, IsLead4, IsContinuation, Join4;
    Bytes4(a, b, c, d);
  }

  lemma SymbolSurvives4(a: Unit, b: Unit, c: Unit, d: Unit)
    requires a <= 0xFF && b <= 0xFF && c <= 0xFF && d <= 0xFF && IsLead4(a)
    requires IsContinuation(b) && IsContinuation(c) && IsContinuation(d) && 0x10000 <= Join4(a, b, c, d) <= 0x10FFFF
    ensures IsScalar(Join4(a, b, c, d)) && EncodeCodePoint(Join4(a, b, c, d)) == Some([a, b, c, d])
  {
    hide *;
    var cp := Join4(a, b, c, d);
    JoinedFour(a, b, c, d, cp);
    AboveSurrogates(cp);
    EncodesFour(cp, a, b, c, d);
  }

  lemma EncodesFour(cp: Unit, a: Unit, b: Unit, c: Unit, d: Unit)
    requires FourBytes(cp, a, b, c, d)
    ensures EncodeCodePoint(cp) == Some([a, b, c, d])
  {
    hide Fits7, Fits11, Fits16, Fits21, Lead4, CreateByte;
  }

  lemma SymbolSurvives1(a: Unit)
    requires a <= 0xFF && IsLead1(a)
    ensures a & 0xFF == a && IsScalar(a) && EncodeCodePoint(a) == Some([a])
  {
    Bytes1(a);
    Encodes(a, 1);
  }

  /** A byte sequence that decodes is the encoding of a scalar value: no overlong form, no surrogate. */
  lemma SymbolSurvives(s: seq<Unit>)
    requires s != [] && Bytes8(s) && FirstSymbol(s).Symbol?
    ensures IsScalar(FirstSymbol(s).point)
    ensures EncodeCodePoint(FirstSymbol(s).point) == Some(s[..FirstSymbol(s).size])
  {
    hide Fits7, Fits11, Fits16, Fits21, Lead2, Lead3, Lead4, CreateByte;
    hide IsContinuation, IsLead1, IsLead2, IsLead3, IsLead4, Join2, Join3, Join4, IsScalar, IsSurrogate, FirstSymbol,
          EncodeCodePoint;
    SymbolShape(s);
    match FirstSymbol(s).size
    case 1 =>
      SymbolSurvives1(s[0]);
      assert s[..1] == [s[0]];
    case 2 =>
      SymbolSurvives2(s[0], s[1]);
      assert s[..2] == [s[0], s[1]];
    case 3 =>
      SymbolSurvives3(s[0], s[1], s[2]);
      assert s[..3] == [s[0], s[1], s[2]];
    case _ =>
      SymbolSurvives4(s[0], s[1], s[2], s[3]);
      assert s[..4] == [s[0], s[1], s[2], s[3]];
  }

  lemma NotAbove(cp: Unit)
    requires cp <= 0xFFFF && !IsSurrogate(cp)
    ensures IsScalar(cp)
  {
  }

  // ------------------------------------------------------------------
  // Whole strings.

  lemma {:induction false} PointsSurvive(points: seq<Unit>)
    requires Scalars(points)
    ensures EncodePoints(points).Some? && Bytes8(EncodePoints(points).value)
    ensures DecodePoints(EncodePoints(points).value) == Some(points)
  {
    hide EncodeCodePoint, FirstSymbol;
    if points != [] {
      PointSurvives(points[0]);
      PointsSurvive(points[1..]);
      var bs, rest := EncodeCodePoint(points[0]).value, EncodePoints(points[1..]).value;
      FirstSymbolPrefix(bs, rest);
      assert (bs + rest)[|bs|..] == rest;
      assert points == [points[0]] + points[1..];
    }
  }

  lemma {:induction false} SymbolsSurvive(s: seq<Unit>)
    requires Bytes8(s) && DecodePoints(s).Some?
    ensures Scalars(DecodePoints(s).value) && EncodePoints(DecodePoints(s).value) == Some(s)
    decreases |s|
  {
    hide EncodeCodePoint, FirstSymbol;
    if s != [] {
      var f := FirstSymbol(s);
      SymbolSurvives(s);
      SymbolsSurvive(s[f.size..]);
      var rest := DecodePoints(s[f.size..]).value;
      assert ([f.point] + rest)[1..] == rest;
      assert s == s[..f.size] + s[f.size..];
    }
  }

  /** The encoder throws exactly on strings with a lone surrogate. */
  lemma {:induction false} EncodePointsDefined(points: seq<Unit>)
    requires forall i :: 0 <= i < |points| ==> points[i] <= 0x10FFFF
    ensures EncodePoints(points).Some? <==> Scalars(points)
  {
    hide EncodeCodePoint, IsSurrogate;
    if points != [] {
      var cp := points[0];
      EncodePointsDefined(points[1..]);
      if IsScalar(cp) {
        PointSurvives(cp);
      } else {
        LoneSurrogate(cp);
      }
      assert Scalars(points) <==> IsScalar(cp) && Scalars(points[1..]);
    }
  }

  lemma SurrogateBits(cp: Unit)
    requires IsSurrogate(cp)
    ensures !Fits7(cp) && !Fits11(cp) && Fits16(cp)
  {
  }

  lemma LoneSurrogate(cp: Unit)
    requires IsSurrogate(cp)
    ensures EncodeCodePoint(cp) == None
  {
    SurrogateBits(cp);
    hide Fits7, Fits11, Fits16;
  }

  lemma {:induction false} DecodedRange(s: seq<Unit>)
    requires Units16(s)
    ensures forall i :: 0 <= i < |Ucs2Decode(s)| ==> Ucs2Decode(s)[i] <= 0x10FFFF
    decreases |s|
  {
    hide Combine;
    if s != [] {
      var n := FirstPoint(s).1;
      if n == 2 {
        LowTest(s[1]);
        PairRoundTrip(s[0], s[1]);
      }
      DecodedRange(s[n..]);
    }
  }

  /** Decoding the encoding of a string gives the string back, for exactly the well-formed strings; on the others
      the encoder throws. */
  lemma {:induction false} EncodeDecode(s: seq<Unit>)
    requires Units16(s)
    ensures Utf8Encode(s).Some? <==> WellFormed(s)
    ensures WellFormed(s) ==> Bytes8(Utf8Encode(s).value) && Utf8Decode(Utf8Encode(s).value) == Some(s)
  {
    WellFormedScalars(s);
    DecodedRange(s);
    EncodePointsDefined(Ucs2Decode(s));
    if WellFormed(s) {
      PointsSurvive(Ucs2Decode(s));
      Ucs2OfBytes(Utf8Encode(s).value);
      Ucs2RoundTrip(s);
    }
  }

  /** A byte string that decodes without an error decodes to a well-formed string and re-encodes to itself: overlong
      forms, surrogates and truncated sequences are all rejected. */
  lemma DecodeEncode(bytes: seq<Unit>)
    requires Bytes8(bytes) && Utf8Decode(bytes).Some?
    ensures WellFormed(Utf8Decode(bytes).value) && Utf8Encode(Utf8Decode(bytes).value) == Some(bytes)
  {
    Ucs2OfBytes(bytes);
    SymbolsSurvive(bytes);
    PointsRoundTrip(DecodePoints(bytes).value);
  }

  /** The decoder accepts exactly the byte strings that encode some well-formed string. */
  lemma DecoderAccepts(bytes: seq<Unit>)
    requires Bytes8(bytes)
    ensures Utf8Decode(bytes).Some? <==> (exists s :: Units16(s) && WellFormed(s) && Utf8Encode(s) == Some(bytes))
  {
    if Utf8Decode(bytes).Some? {
      DecodeEncode(bytes);
      WellFormedUnits(Utf8Decode(bytes).value);
    }
    forall s | Units16(s) && WellFormed(s) && Utf8Encode(s) == Some(bytes) ensures Utf8Decode(bytes).Some? {
      EncodeDecode(s);
    }
  }

  lemma {:induction false} WellFormedUnits(s: seq<Unit>)
    requires WellFormed(s)
    ensures Units16(s)
    decreases |s|
  {
    if s != [] {
      if IsHigh(s[0]) {
        WellFormedUnits(s[2..]);
        assert forall i :: 2 <= i < |s| ==> s[i] == s[2..][i - 2];
      } else {
        WellFormedUnits(s[1..]);
        assert forall i :: 1 <= i < |s| ==> s[i] == s[1..][i - 1];
      }
    }
  }

  // ------------------------------------------------------------------
  // The loops.

  method Ucs2DecodeLoop(s: seq<Unit>) returns (output: seq<Unit>)
    ensures output == Ucs2Decode(s)
  {
    hide Combine;
    output := [];
    var counter := 0;
    assert s[0..] == s;
    while counter < |s|
      invariant 0 <= counter <= |s|
      invariant output + Ucs2Decode(s[counter..]) == Ucs2Decode(s)
    {
      ghost var start := counter;
      DecodeStep(s, start, output);
      var value := s[counter];
      counter := counter + 1;
      if 0xD800 <= value <= 0xDBFF && counter < |s| {
        var extra := s[counter];
        counter := counter + 1;
        if (extra & 0xFC00) == 0xDC00 {
          output := output + [Combine(value, extra)];
        } else {
          output := output + [value];
          counter := counter - 1;
        }
      } else {
        output := output + [value];
      }
    }
    assert output + [] == output;
  }

  lemma DecodeStep(s: seq<Unit>, start: nat, output: seq<Unit>)
    requires start < |s|
    ensures var r := FirstPoint(s[start..]);
            output + Ucs2Decode(s[start..]) == (output + [r.0]) + Ucs2Decode(s[start + r.1..])
  {
    hide Combine;
    var r := FirstPoint(s[start..]);
    assert s[start..][r.1..] == s[start + r.1..];
  }

  method Ucs2EncodeLoop(points: seq<Unit>) returns (output: seq<Unit>)
    ensures output == Ucs2Encode(points)
  {
    hide UnitsOf;
    output := [];
    var index := 0;
    assert points[0..] == points;
    while index < |points|
      invariant 0 <= index <= |points|
      invariant output + Ucs2Encode(points[index..]) == Ucs2Encode(points)
    {
      assert points[index..][1..] == points[index + 1..];
      assert output + (UnitsOf(points[index]) + Ucs2Encode(points[index + 1..]))
             == (output + UnitsOf(points[index])) + Ucs2Encode(points[index + 1..]);
      output := AppendPoint(output, points[index]);
      index := index + 1;
    }
    assert output + [] == output;
  }

  /** The body of the loop. */
  method AppendPoint(text: seq<Unit>, point: Unit) returns (output: seq<Unit>)
    ensures output == text + UnitsOf(point)
  {
    hide HighOf, LowOf;
    var value := point;
    output := text;
    if value > 0xFFFF {
      value := value - 0x10000;
      output := output + [HighOf(value)];
      value := LowOf(value);
    }
    output := output + [value];
  }

  method Utf8EncodeLoop(s: seq<Unit>) returns (byteString: Option<seq<Unit>>)
    ensures byteString == Utf8Encode(s)
  {
    hide EncodeCodePoint, Ucs2Decode;
    var codePoints := Ucs2DecodeLoop(s);
    var text: seq<Unit> := [];
    var index := 0;
    assert codePoints[0..] == codePoints;
    PrependNothing(EncodePoints(codePoints));
    while index < |codePoints|
      invariant 0 <= index <= |codePoints|
      invariant EncodePoints(codePoints) == Prepended(text, EncodePoints(codePoints[index..]))
    {
      assert codePoints[index..][1..] == codePoints[index + 1..];
      var symbol := EncodeCodePoint(codePoints[index]);
      if symbol.None? {
        return None;
      }
      PrependTwice(text, symbol.value, EncodePoints(codePoints[index + 1..]));
      text := text + symbol.value;
      index := index + 1;
    }
    assert text + [] == text;
    byteString := Some(text);
  }

  function Prepended(text: seq<Unit>, rest: Option<seq<Unit>>): Option<seq<Unit>> {
    if rest.Some? then Some(text + rest.value) else None
  }

  lemma PrependNothing(rest: Option<seq<Unit>>)
    ensures Prepended([], rest) == rest
  {
    if rest.Some? {
      assert [] + rest.value == rest.value;
    }
  }

  lemma PrependTwice(a: seq<Unit>, b: seq<Unit>, rest: Option<seq<Unit>>)
    ensures Prepended(a, Prepended(b, rest)) == Prepended(a + b, rest)
  {
    if rest.Some? {
      assert a + (b + rest.value) == (a + b) + rest.value;
    }
  }

  /** `byteArray`, `byteCount` and `byteIndex`, which `decodeSymbol` and `readContinuationByte` share. */
  class Decoder {
    var byteArray: seq<Unit>
    var byteIndex: nat

    constructor ()
      ensures byteArray == [] && byteIndex == 0
    {
      byteArray, byteIndex := [], 0;
    }

    method ReadContinuationByte() returns (r: Option<Unit>)
      requires byteIndex <= |byteArray|
      modifies this`byteIndex
      ensures r.Some? <==> old(byteIndex) < |byteArray| && IsContinuation(byteArray[old(byteIndex)])
      ensures r.Some? ==> byteIndex == old(byteIndex) + 1 && r.value == Six(byteArray[old(byteIndex)])
      ensures byteIndex <= |byteArray|
    {
      if byteIndex >= |byteArray| {
        return None;
      }
      var continuationByte := byteArray[byteIndex] & 0xFF;
      byteIndex := byteIndex + 1;
      if (continuationByte & 0xC0) == 0x80 {
        return Some(continuationByte & 0x3F);
      }
      r := None;
    }

    /** The next code point; the caller has checked that there is a byte. */
    method DecodeSymbol() returns (r: Symbol)
      requires byteIndex < |byteArray|
      modifies this`byteIndex
      ensures r == FirstSymbol(byteArray[old(byteIndex)..])
      ensures r.Symbol? ==> byteIndex == old(byteIndex) + r.size
    {
      hide *;
      SymbolByLead(byteArray[byteIndex..]);
      var byte1 := byteArray[byteIndex];
      assert byteArray[byteIndex..][0] == byte1;
      byteIndex := byteIndex + 1;
      if IsLead1(byte1) {
        r := Symbol(byte1 & 0xFF, 1);
      } else if IsLead2(byte1) {
        r := DecodeTwo(byte1);
      } else if IsLead3(byte1) {
        r := DecodeThree(byte1);
      } else if IsLead4(byte1) {
        r := DecodeFour(byte1);
      } else {
        r := Invalid;
      }
    }

    method DecodeTwo(byte1: Unit) returns (r: Symbol)
      requires 0 < byteIndex <= |byteArray| && byteArray[byteIndex - 1] == byte1
      modifies this`byteIndex
      ensures r == Symbol2(byteArray[old(byteIndex) - 1..])
      ensures r.Symbol? ==> byteIndex == old(byteIndex) - 1 + r.size
    {
      hide IsContinuation, Point2, Six;
      ghost var s := byteArray[byteIndex - 1..];
      Window(byteArray, byteIndex - 1);
      var byte2 := ReadContinuationByte();
      if byte2.None? {
        return Invalid;
      }
      var codePoint := Point2(byte1, byte2.value);
      if codePoint >= 0x80 {
        return Symbol(codePoint, 2);
      }
      r := Invalid;
    }

    method DecodeThree(byte1: Unit) returns (r: Symbol)
      requires 0 < byteIndex <= |byteArray| && byteArray[byteIndex - 1] == byte1
      modifies this`byteIndex
      ensures r == Symbol3(byteArray[old(byteIndex) - 1..])
      ensures r.Symbol? ==> byteIndex == old(byteIndex) - 1 + r.size
    {
      hide IsContinuation, IsSurrogate, Point3, Six;
      Window(byteArray, byteIndex - 1);
      var byte2 := ReadContinuationByte();
      if byte2.None? {
        return Invalid;
      }
      var byte3 := ReadContinuationByte();
      if byte3.None? {
        return Invalid;
      }
      var codePoint := Point3(byte1, byte2.value, byte3.value);
      if codePoint >= 0x0800 && !IsSurrogate(codePoint) {
        return Symbol(codePoint, 3);
      }
      r := Invalid;
    }

    method DecodeFour(byte1: Unit) returns (r: Symbol)
      requires 0 < byteIndex <= |byteArray| && byteArray[byteIndex - 1] == byte1
      modifies this`byteIndex
      ensures r == Symbol4(byteArray[old(byteIndex) - 1..])
      ensures r.Symbol? ==> byteIndex == old(byteIndex) - 1 + r.size
    {
      hide IsContinuation, Point4, Six;
      Window(byteArray, byteIndex - 1);
      var byte2 := ReadContinuationByte();
      if byte2.None? {
        return Invalid;
      }
      var byte3 := ReadContinuationByte();
      if byte3.None? {
        return Invalid;
      }
      var byte4 := ReadContinuationByte();
      if byte4.None? {
        return Invalid;
      }
      var codePoint := Point4(byte1, byte2.value, byte3.value, byte4.value);
      if 0x010000 <= codePoint <= 0x10FFFF {
        return Symbol(codePoint, 4);
      }
      r := Invalid;
    }

    /** The bytes after an index, as the bytes of the rest of the array. */
    static lemma Window(a: seq<Unit>, start: nat)
      requires start < |a|
      ensures var s := a[start..];
              |s| == |a| - start && forall k :: 0 <= k < |s| ==> s[k] == a[start + k]
    {
    }

    method Decode(byteString: seq<Unit>) returns (r: Option<seq<Unit>>)
      modifies this
      ensures r == Utf8Decode(byteString)
    {
      hide FirstSymbol, Ucs2Decode, Ucs2Encode;
      byteArray := Ucs2DecodeLoop(byteString);
      byteIndex := 0;
      var codePoints: seq<Unit> := [];
      assert byteArray[0..] == byteArray;
      PrependNothing(DecodePoints(byteArray));
      while byteIndex < |byteArray|
        invariant byteIndex <= |byteArray| && byteArray == Ucs2Decode(byteString)
        invariant DecodePoints(byteArray) == Prepended(codePoints, DecodePoints(byteArray[byteIndex..]))
        decreases |byteArray| - byteIndex
      {
        ghost var s := byteArray[byteIndex..];
        var tmp := DecodeSymbol();
        if tmp.Invalid? {
          return None;
        }
        assert s[tmp.size..] == byteArray[byteIndex..];
        PrependTwice(codePoints, [tmp.point], DecodePoints(byteArray[byteIndex..]));
        codePoints := codePoints + [tmp.point];
      }
      assert codePoints + [] == codePoints;
      var text := Ucs2EncodeLoop(codePoints);
      r := Some(text);
    }
  }

  // ------------------------------------------------------------------
  // The tables of the standards.

  predicate Trails(b: Unit) {
    0x80 <= b <= 0xBF
  }

  /** The bytes of a scalar value, by the ranges of its lead byte and the six bits of each other byte: the table of
      section 3 of RFC 3629. */
  predicate Layout(cp: Unit, bs: seq<Unit>) {
    if cp < 0x80 then bs == [cp]
    else if cp < 0x800 then
      |bs| == 2 && 0xC2 <= bs[0] <= 0xDF && Trails(bs[1]) && cp == (bs[0] - 0xC0) * 64 + (bs[1] - 0x80)
    else if cp < 0x10000 then
      |bs| == 3 && 0xE0 <= bs[0] <= 0xEF && Trails(bs[1]) && Trails(bs[2])
      && cp == (bs[0] - 0xE0) * 4096 + (bs[1] - 0x80) * 64 + (bs[2] - 0x80)
    else
      |bs| == 4 && 0xF0 <= bs[0] <= 0xF4 && Trails(bs[1]) && Trails(bs[2]) && Trails(bs[3])
      && cp == (bs[0] - 0xF0) * 262144 + (bs[1] - 0x80) * 4096 + (bs[2] - 0x80) * 64 + (bs[3] - 0x80)
  }

  lemma Layout2(cp: Unit)
    requires 0x80 <= cp < 0x800
    ensures Layout(cp, [Lead2(cp), CreateByte(cp)])
  {
  }

  lemma Layout3(cp: Unit)
    requires 0x800 <= cp < 0x10000
    ensures Layout(cp, [Lead3(cp), CreateByte(cp >> 6), CreateByte(cp)])
  {
  }

  lemma Layout4(cp: Unit)
    requires 0x10000 <= cp <= 0x10FFFF
    ensures Layout(cp, [Lead4(cp), CreateByte(cp >> 12), CreateByte(cp >> 6), CreateByte(cp)])
  {
  }

  /** Every scalar value is encoded as the standard's table says. */
  lemma LayoutExact(cp: Unit)
    requires IsScalar(cp)
    ensures EncodeCodePoint(cp).Some? && Layout(cp, EncodeCodePoint(cp).value)
  {
    hide Layout, Fits7, Fits11, Fits16, Fits21, Lead2, Lead3, Lead4, CreateByte;
    if cp < 0x80 {
      Bits1(cp);
      Layout1(cp);
    } else if cp < 0x800 {
      Bits2(cp);
      Layout2(cp);
    } else if cp < 0x10000 {
      NeedsThree(cp);
      Layout3(cp);
    } else {
      NeedsFour(cp);
      NoSurrogate(cp);
      Layout4(cp);
    }
  }

  lemma Layout1(cp: Unit)
    requires cp < 0x80
    ensures Layout(cp, [cp])
  {
  }

  lemma NoSurrogate(cp: Unit)
    requires cp >= 0x10000
    ensures !IsSurrogate(cp)
  {
  }

  /** A pair of surrogates, which share the 20 low bits of a code point after 0x10000 is taken off (section 2.1 of RFC
      2781). */
  predicate PairOf(cp: Unit, h: Unit, l: Unit) {
    && 0xD800 <= h <= 0xDBFF && 0xDC00 <= l <= 0xDFFF
    && cp == 0x10000 + (h - 0xD800) * 1024 + (l - 0xDC00)
  }

  /** A scalar value beyond 16 bits is such a pair; any other is itself. */
  lemma PairExact(cp: Unit)
    requires IsScalar(cp)
    ensures var u := UnitsOf(cp);
            if cp <= 0xFFFF then u == [cp] else |u| == 2 && PairOf(cp, u[0], u[1])
  {
    if cp > 0xFFFF {
      PairPoint(cp);
    } else {
      hide HighOf, LowOf, PairOf;
    }
  }

  lemma PairPoint(cp: Unit)
    requires 0x10000 <= cp <= 0x10FFFF
    ensures |UnitsOf(cp)| == 2 && PairOf(cp, UnitsOf(cp)[0], UnitsOf(cp)[1])
  {
    hide *;
    var v := Lowered(cp);
    Raised(cp, v);
    UnitsOfPair(cp, v);
    PairValue(cp, v);
  }

  lemma PairValue(cp: Unit, v: Unit)
    requires v < 0x100000 && v + 0x10000 == cp
    ensures PairOf(cp, HighOf(v), LowOf(v))
  {
  }
}
