/** `base64_encode` and `base64_decode`, on unsigned 8-bit characters (section 4 of RFC 4648). */
module Base64 {

  /** `base64_chars`: A-Z, a-z, 0-9, + and /. */
  function Char64(i: bv8): bv8
    requires i < 64
  {
    if i < 26 then i + 65 else if i < 52 then i + 71 else if i < 62 then i - 4 else if i == 62 then 43 else 47
  }

  /** `base64_chars.find`, whose "not found" becomes 255 in an unsigned char. */
  function Find(c: bv8): bv8 {
    if 65 <= c <= 90 then c - 65 else if 97 <= c <= 122 then c - 71 else if 48 <= c <= 57 then c + 4
    else if c == 43 then 62 else if c == 47 then 63 else 255
  }

  predicate IsBase64(c: bv8) {
    65 <= c <= 90 || 97 <= c <= 122 || 48 <= c <= 57 || c == 43 || c == 47
  }

  /** '='. */
  const PAD: bv8 := 61

  /** Four characters from three bytes. */
  function Quad(a: bv8, b: bv8, c: bv8): (q: seq<bv8>)
    ensures |q| == 4
  {
    [Char64((a & 0xfc) >> 2),
     Char64(((a & 0x03) << 4) + ((b & 0xf0) >> 4)),
     Char64(((b & 0x0f) << 2) + ((c & 0xc0) >> 6)),
     Char64(c & 0x3f)]
  }

  /** Three bytes from four characters. */
  function Triple(a: bv8, b: bv8, c: bv8, d: bv8): (t: seq<bv8>)
    ensures |t| == 3
  {
    [(Find(a) << 2) + ((Find(b) & 0x30) >> 4),
     ((Find(b) & 0xf) << 4) + ((Find(c) & 0x3c) >> 2),
     ((Find(c) & 0x3) << 6) + Find(d)]
  }

  function Encode(x: seq<bv8>): seq<bv8>
    decreases |x|
  {
    if |x| >= 3 then Quad(x[0], x[1], x[2]) + Encode(x[3..])
    else if |x| == 2 then Quad(x[0], x[1], 0)[..3] + [PAD]
    else if |x| == 1 then Quad(x[0], 0, 0)[..2] + [PAD, PAD]
    else []
  }

  /** The characters before the first one that is not in the alphabet. */
  function Prefix(s: seq<bv8>): seq<bv8> {
    if s == [] || !IsBase64(s[0]) then [] else [s[0]] + Prefix(s[1..])
  }

  /** Whole groups give three bytes; a last group of k characters, filled up with zeros, gives k - 1. */
  function DecodeChars(p: seq<bv8>): seq<bv8>
    decreases |p|
  {
    if |p| >= 4 then Triple(p[0], p[1], p[2], p[3]) + DecodeChars(p[4..])
    else if |p| == 3 then Triple(p[0], p[1], p[2], 0)[..2]
    else if |p| == 2 then Triple(p[0], p[1], 0, 0)[..1]
    else []
  }

  function Decode(s: seq<bv8>): seq<bv8> {
    DecodeChars(Prefix(s))
  }

  // ------------------------------------------------------------------
  // One group.

  lemma CharFound(i: bv8)
    requires i < 64
    ensures IsBase64(Char64(i)) && Find(Char64(i)) == i
  {
  }

  lemma FoundChar(c: bv8)
    requires IsBase64(c)
    ensures Find(c) < 64 && Char64(Find(c)) == c
  {
  }

  lemma SixBits(a: bv8, b: bv8, c: bv8)
    ensures (a & 0xfc) >> 2 < 64 && ((a & 0x03) << 4) + ((b & 0xf0) >> 4) < 64
    ensures ((b & 0x0f) << 2) + ((c & 0xc0) >> 6) < 64 && c & 0x3f < 64
  {
  }

  lemma QuadChars(a: bv8, b: bv8, c: bv8)
    ensures var q := Quad(a, b, c);
            && IsBase64(q[0]) && IsBase64(q[1]) && IsBase64(q[2]) && IsBase64(q[3])
            && Find(q[0]) == (a & 0xfc) >> 2
            && Find(q[1]) == ((a & 0x03) << 4) + ((b & 0xf0) >> 4)
            && Find(q[2]) == ((b & 0x0f) << 2) + ((c & 0xc0) >> 6)
            && Find(q[3]) == c & 0x3f
  {
    SixBits(a, b, c);
    CharFound((a & 0xfc) >> 2);
    CharFound(((a & 0x03) << 4) + ((b & 0xf0) >> 4));
    CharFound(((b & 0x0f) << 2) + ((c & 0xc0) >> 6));
    CharFound(c & 0x3f);
  }

  lemma JoinBits(a: bv8, b: bv8, c: bv8)
    ensures var (v0, v1, v2, v3) := ((a & 0xfc) >> 2, ((a & 0x03) << 4) + ((b & 0xf0) >> 4),
                                  ((b & 0x0f) << 2) + ((c & 0xc0) >> 6), c & 0x3f);
            (v0 << 2) + ((v1 & 0x30) >> 4) == a && ((v1 & 0xf) << 4) + ((v2 & 0x3c) >> 2) == b
            && ((v2 & 0x3) << 6) + v3 == c
  {
  }

  lemma SplitBits(v0: bv8, v1: bv8, v2: bv8, v3: bv8)
    requires v0 < 64 && v1 < 64 && v2 < 64 && v3 < 64
    ensures var (a, b, c) := ((v0 << 2) + ((v1 & 0x30) >> 4), ((v1 & 0xf) << 4) + ((v2 & 0x3c) >> 2),
                                ((v2 & 0x3) << 6) + v3);
            && (a & 0xfc) >> 2 == v0 && ((a & 0x03) << 4) + ((b & 0xf0) >> 4) == v1
            && ((b & 0x0f) << 2) + ((c & 0xc0) >> 6) == v2 && c & 0x3f == v3
  {
  }

  /** A group of bytes survives. */
  lemma GroupRoundTrip(a: bv8, b: bv8, c: bv8)
    ensures var q := Quad(a, b, c); Triple(q[0], q[1], q[2], q[3]) == [a, b, c]
  {
    QuadChars(a, b, c);
    JoinBits(a, b, c);
  }

  /** A group of characters survives. */
  lemma CharsRoundTrip(a: bv8, b: bv8, c: bv8, d: bv8)
    requires IsBase64(a) && IsBase64(b) && IsBase64(c) && IsBase64(d)
    ensures var t := Triple(a, b, c, d); Quad(t[0], t[1], t[2]) == [a, b, c, d]
  {
    FoundChar(a);
    FoundChar(b);
    FoundChar(c);
    FoundChar(d);
    SplitBits(Find(a), Find(b), Find(c), Find(d));
  }

  // ------------------------------------------------------------------
  // Decoding what was encoded.

  lemma {:induction false} PrefixConcat(s: seq<bv8>, t: seq<bv8>)
    requires forall i :: 0 <= i < |s| ==> IsBase64(s[i])
    ensures Prefix(s + t) == s + Prefix(t)
  {
    if s == [] {
      assert s + t == t;
    } else {
      assert (s + t)[1..] == s[1..] + t;
      PrefixConcat(s[1..], t);
    }
  }

  /** The partial groups: the bits of the filled-up zeros, or of the 255 that `find` makes of them, are not used. */
  lemma LastGroup(a: bv8, b: bv8)
    ensures var q := Quad(a, b, 0); Triple(q[0], q[1], q[2], 0)[..2] == [a, b]
    ensures var q := Quad(a, 0, 0); Triple(q[0], q[1], 0, 0)[..1] == [a]
  {
    QuadChars(a, b, 0);
    JoinBits(a, b, 0);
    QuadChars(a, 0, 0);
    JoinBits(a, 0, 0);
  }

  lemma TailRoundTrip2(a: bv8, b: bv8)
    ensures Decode(Encode([a, b])) == [a, b]
  {
    hide Triple, Quad, IsBase64, Find;
    var q := Quad(a, b, 0);
    QuadChars(a, b, 0);
    LastGroup(a, b);
    PadEnds([]);
    PrefixConcat(q[..3], [PAD]);
    assert q[..3] + [] == q[..3] == [q[0], q[1], q[2]];
    assert [PAD] + [] == [PAD];
  }

  lemma TailRoundTrip1(a: bv8)
    ensures Decode(Encode([a])) == [a]
  {
    hide Triple, Quad, IsBase64, Find;
    var q := Quad(a, 0, 0);
    QuadChars(a, 0, 0);
    LastGroup(a, 0);
    PadEnds([PAD]);
    PrefixConcat(q[..2], [PAD, PAD]);
    assert [PAD] + [PAD] == [PAD, PAD];
    assert q[..2] + [] == q[..2] == [q[0], q[1]];
  }

  /** Decoding undoes encoding, for every byte string. */
  lemma {:induction false} RoundTrip(x: seq<bv8>)
    ensures Decode(Encode(x)) == x
    decreases |x|
  {
    hide Triple, Quad, IsBase64, Find;
    if |x| >= 3 {
      var q := Quad(x[0], x[1], x[2]);
      RoundTrip(x[3..]);
      GroupRoundTrip(x[0], x[1], x[2]);
      QuadChars(x[0], x[1], x[2]);
      PrefixConcat(q, Encode(x[3..]));
      assert (q + Prefix(Encode(x[3..])))[4..] == Prefix(Encode(x[3..]));
      assert x == [x[0], x[1], x[2]] + x[3..];
    } else if |x| == 2 {
      TailRoundTrip2(x[0], x[1]);
      assert x == [x[0], x[1]];
    } else if |x| == 1 {
      TailRoundTrip1(x[0]);
      assert x == [x[0]];
    }
  }

  lemma {:induction false} PadEnds(rest: seq<bv8>)
    ensures Prefix([PAD] + rest) == []
  {
  }

  // ------------------------------------------------------------------
  // Encoding what was decoded.

  /** The last group may be padded, and its unused bits are zero. */
  predicate CanonicalLast(s: seq<bv8>)
    requires |s| == 4
  {
    && IsBase64(s[0]) && IsBase64(s[1])
    && (|| (IsBase64(s[2]) && IsBase64(s[3]))
        || (IsBase64(s[2]) && s[3] == PAD && Find(s[2]) & 0x3 == 0)
        || (s[2] == PAD && s[3] == PAD && Find(s[1]) & 0xf == 0))
  }

  /** Canonical text: whole groups of alphabet characters, padding at the very end only. */
  predicate Canonical(s: seq<bv8>)
    decreases |s|
  {
    if s == [] then true
    else if |s| < 4 then false
    else if |s| == 4 then CanonicalLast(s)
    else IsBase64(s[0]) && IsBase64(s[1]) && IsBase64(s[2]) && IsBase64(s[3]) && Canonical(s[4..])
  }

  lemma ZeroBits(a: bv8, b: bv8)
    ensures (((b & 0x0f) << 2) + ((0 & 0xc0) >> 6)) & 0x3 == 0
    ensures (((a & 0x03) << 4) + ((0 & 0xf0) >> 4)) & 0xf == 0
  {
  }

  /** Encoding produces canonical text only. */
  lemma {:induction false} EncodeCanonical(x: seq<bv8>)
    ensures Canonical(Encode(x))
    decreases |x|
  {
    hide Quad, IsBase64, Find;
    if |x| >= 3 {
      var q := Quad(x[0], x[1], x[2]);
      QuadChars(x[0], x[1], x[2]);
      EncodeCanonical(x[3..]);
      assert (q + Encode(x[3..]))[4..] == Encode(x[3..]);
    } else if |x| == 2 {
      QuadChars(x[0], x[1], 0);
      ZeroBits(0, x[1]);
    } else if |x| == 1 {
      QuadChars(x[0], 0, 0);
      ZeroBits(x[0], 0);
    }
  }

  lemma PadIsNotBase64()
    ensures !IsBase64(PAD)
  {
  }

  lemma LastChars3(a: bv8, b: bv8, c: bv8)
    requires IsBase64(a) && IsBase64(b) && IsBase64(c) && Find(c) & 0x3 == 0
    ensures var t := Triple(a, b, c, 0); Quad(t[0], t[1], 0)[..3] == [a, b, c]
  {
    FoundChar(a);
    FoundChar(b);
    FoundChar(c);
    LastBits3(Find(a), Find(b), Find(c));
    hide Find, IsBase64, Char64;
  }

  lemma LastChars2(a: bv8, b: bv8)
    requires IsBase64(a) && IsBase64(b) && Find(b) & 0xf == 0
    ensures var t := Triple(a, b, 0, 0); Quad(t[0], 0, 0)[..2] == [a, b]
  {
    FoundChar(a);
    FoundChar(b);
    LastBits2(Find(a), Find(b));
    hide Find, IsBase64, Char64;
  }

  lemma LastBits3(v0: bv8, v1: bv8, v2: bv8)
    requires v0 < 64 && v1 < 64 && v2 < 64 && v2 & 0x3 == 0
    ensures var (a, b) := ((v0 << 2) + ((v1 & 0x30) >> 4), ((v1 & 0xf) << 4) + ((v2 & 0x3c) >> 2));
            && (a & 0xfc) >> 2 == v0 && ((a & 0x03) << 4) + ((b & 0xf0) >> 4) == v1
            && ((b & 0x0f) << 2) + ((0 & 0xc0) >> 6) == v2
  {
  }

  lemma LastBits2(v0: bv8, v1: bv8)
    requires v0 < 64 && v1 < 64 && v1 & 0xf == 0
    ensures var a := (v0 << 2) + ((v1 & 0x30) >> 4);
            (a & 0xfc) >> 2 == v0 && ((a & 0x03) << 4) + ((0 & 0xf0) >> 4) == v1
  {
  }

  lemma WholeLast(s: seq<bv8>)
    requires |s| == 4 && CanonicalLast(s) && IsBase64(s[3])
    ensures Encode(Decode(s)) == s
  {
    hide Quad, Triple, IsBase64, Find;
    PadIsNotBase64();
    CharsRoundTrip(s[0], s[1], s[2], s[3]);
    PrefixConcat(s, []);
    assert s + [] == s;
    var t := Triple(s[0], s[1], s[2], s[3]);
    assert DecodeChars(s[4..]) == [] && t + [] == t && t[3..] == [];
    assert s == [s[0], s[1], s[2], s[3]];
  }

  lemma OnePadLast(s: seq<bv8>)
    requires |s| == 4 && CanonicalLast(s) && IsBase64(s[2]) && !IsBase64(s[3])
    ensures Encode(Decode(s)) == s
  {
    hide Quad, Triple, IsBase64, Find;
    LastChars3(s[0], s[1], s[2]);
    PadEnds([]);
    PrefixConcat(s[..3], [PAD]);
    assert s == s[..3] + [PAD];
    var t := Triple(s[0], s[1], s[2], 0);
    assert s[..3] + [] == s[..3] == [s[0], s[1], s[2]];
    assert t[..2] == [t[0], t[1]];
  }

  lemma TwoPadsLast(s: seq<bv8>)
    requires |s| == 4 && CanonicalLast(s) && !IsBase64(s[2]) && !IsBase64(s[3])
    ensures Encode(Decode(s)) == s
  {
    hide Quad, Triple, IsBase64, Find;
    LastChars2(s[0], s[1]);
    PadEnds([PAD]);
    PrefixConcat(s[..2], [PAD, PAD]);
    assert [PAD] + [PAD] == [PAD, PAD];
    assert s == s[..2] + [PAD, PAD];
    var t := Triple(s[0], s[1], 0, 0);
    assert s[..2] + [] == s[..2] == [s[0], s[1]];
    assert t[..1] == [t[0]];
  }

  lemma CanonicalLastRoundTrip(s: seq<bv8>)
    requires |s| == 4 && CanonicalLast(s)
    ensures Encode(Decode(s)) == s
  {
    hide Find, IsBase64, Encode, Decode;
    PadIsNotBase64();
    if IsBase64(s[3]) {
      WholeLast(s);
    } else if IsBase64(s[2]) {
      OnePadLast(s);
    } else {
      TwoPadsLast(s);
    }
  }

  lemma DecodeFirst(s: seq<bv8>)
    requires |s| > 4 && IsBase64(s[0]) && IsBase64(s[1]) && IsBase64(s[2]) && IsBase64(s[3])
    ensures Decode(s) == Triple(s[0], s[1], s[2], s[3]) + Decode(s[4..])
  {
    hide Triple, IsBase64, Find;
    var q := s[..4];
    PrefixConcat(q, s[4..]);
    assert s == q + s[4..];
    assert (q + Prefix(s[4..]))[4..] == Prefix(s[4..]);
  }

  lemma {:induction false} EncodeFirst(t: seq<bv8>, rest: seq<bv8>)
    requires |t| == 3
    ensures Encode(t + rest) == Quad(t[0], t[1], t[2]) + Encode(rest)
  {
    hide Quad;
    assert (t + rest)[3..] == rest;
  }

  lemma {:induction false} CanonicalRoundTrip(s: seq<bv8>)
    requires Canonical(s)
    ensures Encode(Decode(s)) == s
    decreases |s|
  {
    hide Quad, Triple, IsBase64, Find, CanonicalLast, Encode, Decode;
    if s == [] {
      NothingCanonical();
    } else if |s| == 4 {
      CanonicalLastRoundTrip(s);
    } else {
      CharsRoundTrip(s[0], s[1], s[2], s[3]);
      CanonicalRoundTrip(s[4..]);
      DecodeFirst(s);
      EncodeFirst(Triple(s[0], s[1], s[2], s[3]), Decode(s[4..]));
      assert s == [s[0], s[1], s[2], s[3]] + s[4..];
    }
  }

  lemma NothingCanonical()
    ensures Encode(Decode([])) == []
  {
  }

  /** Encoding undoes decoding for exactly the canonical texts. */
  lemma {:induction false} CanonicalExact(s: seq<bv8>)
    ensures Encode(Decode(s)) == s <==> Canonical(s)
  {
    if Canonical(s) {
      CanonicalRoundTrip(s);
    }
    EncodeCanonical(Decode(s));
  }

  lemma {:induction false} EncodedSize(x: seq<bv8>)
    ensures |Encode(x)| == 4 * ((|x| + 2) / 3)
    decreases |x|
  {
    hide Quad;
    if |x| >= 3 {
      EncodedSize(x[3..]);
    }
  }

  /** How many characters of padding end an encoding. */
  function Pads(len: nat): nat {
    (3 - len % 3) % 3
  }

  /** Padding at the places from n - k on and nowhere else. */
  predicate PaddedAt(s: seq<bv8>, k: nat) {
    forall i :: 0 <= i < |s| ==> (s[i] == PAD <==> i >= |s| - k)
  }

  lemma PaddedConcat(q: seq<bv8>, rest: seq<bv8>, k: nat)
    requires PaddedAt(rest, k) && k <= |rest| && forall i :: 0 <= i < |q| ==> q[i] != PAD
    ensures PaddedAt(q + rest, k)
  {
  }

  lemma {:induction false} PaddingAtEnd(x: seq<bv8>)
    ensures PaddedAt(Encode(x), Pads(|x|)) && Pads(|x|) <= |Encode(x)|
    decreases |x|
  {
    hide Quad, IsBase64, Find, Pads, PaddedAt;
    PadIsNotBase64();
    ShortPads(|x|);
    if |x| >= 3 {
      QuadChars(x[0], x[1], x[2]);
      PaddingAtEnd(x[3..]);
      PaddedConcat(Quad(x[0], x[1], x[2]), Encode(x[3..]), Pads(|x| - 3));
    } else if |x| == 2 {
      QuadChars(x[0], x[1], 0);
      PaddedTail(Quad(x[0], x[1], 0)[..3], 1);
    } else if |x| == 1 {
      QuadChars(x[0], 0, 0);
      PaddedTail(Quad(x[0], 0, 0)[..2], 2);
    } else {
      NothingPadded();
    }
  }

  lemma ShortPads(len: nat)
    ensures Pads(0) == 0 && Pads(1) == 2 && Pads(2) == 1 && (len >= 3 ==> Pads(len) == Pads(len - 3))
  {
  }

  lemma PaddedTail(q: seq<bv8>, k: nat)
    requires forall i :: 0 <= i < |q| ==> q[i] != PAD
    ensures k == 1 ==> PaddedAt(q + [PAD], 1)
    ensures k == 2 ==> PaddedAt(q + [PAD, PAD], 2)
  {
  }

  lemma NothingPadded()
    ensures PaddedAt([], 0)
  {
  }

  /** Four characters for every three bytes begun, padded to a whole group at the end and nowhere else. */
  lemma {:induction false} EncodedLength(x: seq<bv8>)
    ensures |Encode(x)| == 4 * ((|x| + 2) / 3)
    ensures var pads := (3 - |x| % 3) % 3; var n := |Encode(x)|;
            forall i :: 0 <= i < n ==> (Encode(x)[i] == PAD <==> i >= n - pads)
  {
    hide Encode;
    EncodedSize(x);
    PaddingAtEnd(x);
  }

  // ------------------------------------------------------------------
  // The bits.

  /** Table 1 of RFC 4648: 0 to 25 are A to Z, 26 to 51 a to z, 52 to 61 the digits, 62 is + and 63 is /. */
  lemma AlphabetExact(i: bv8)
    requires i < 64
    ensures Char64(0) == 65 && Char64(25) == 90 && Char64(26) == 97 && Char64(51) == 122
    ensures Char64(52) == 48 && Char64(61) == 57 && Char64(62) == 43 && Char64(63) == 47
    ensures i < 61 && i != 25 && i != 51 ==> Char64(i + 1) == Char64(i) + 1
    ensures forall c: bv8 :: Find(c) == i <==> c == Char64(i)
  {
    CharFound(i);
    forall c: bv8 ensures Find(c) == i <==> c == Char64(i) {
      if IsBase64(c) {
        FoundChar(c);
      }
    }
  }

  function Octet(b: bv8): seq<bool> {
    [b & 128 != 0, b & 64 != 0, b & 32 != 0, b & 16 != 0, b & 8 != 0, b & 4 != 0, b & 2 != 0, b & 1 != 0]
  }

  function Sextet(v: bv8): seq<bool> {
    [v & 32 != 0, v & 16 != 0, v & 8 != 0, v & 4 != 0, v & 2 != 0, v & 1 != 0]
  }

  /** The bits of a byte string, most significant first. */
  function Octets(x: seq<bv8>): seq<bool> {
    if x == [] then [] else Octet(x[0]) + Octets(x[1..])
  }

  /** The six bits of each character. */
  function Sextets(p: seq<bv8>): seq<bool> {
    if p == [] then [] else Sextet(Find(p[0])) + Sextets(p[1..])
  }

  lemma {:induction false} OctetsLength(x: seq<bv8>)
    ensures |Octets(x)| == 8 * |x|
  {
    if x != [] {
      OctetsLength(x[1..]);
    }
  }

  lemma {:induction false} SextetsLength(p: seq<bv8>)
    ensures |Sextets(p)| == 6 * |p|
  {
    hide Find;
    if p != [] {
      SextetsLength(p[1..]);
    }
  }

  lemma FirstByte(v0: bv8, v1: bv8)
    requires v0 < 64 && v1 < 64
    ensures Octet((v0 << 2) + ((v1 & 0x30) >> 4)) == Sextet(v0) + Sextet(v1)[..2]
  {
  }

  lemma SecondByte(v1: bv8, v2: bv8)
    requires v1 < 64 && v2 < 64
    ensures Octet(((v1 & 0xf) << 4) + ((v2 & 0x3c) >> 2)) == Sextet(v1)[2..] + Sextet(v2)[..4]
  {
  }

  lemma ThirdByte(v2: bv8, v3: bv8)
    requires v2 < 64 && v3 < 64
    ensures Octet(((v2 & 0x3) << 6) + v3) == Sextet(v2)[4..] + Sextet(v3)
  {
    hide Octet, Sextet;
    ThirdParts(v2, v3);
    OctetParts(((v2 & 0x3) << 6) + v3);
    LastTwo(v2);
  }

  lemma ThirdParts(v2: bv8, v3: bv8)
    requires v2 < 64 && v3 < 64
    ensures var w := ((v2 & 0x3) << 6) + v3;
            w & 0x3f == v3 && (w & 128 != 0 <==> v2 & 2 != 0) && (w & 64 != 0 <==> v2 & 1 != 0)
  {
  }

  lemma OctetParts(w: bv8)
    ensures Octet(w) == [w & 128 != 0, w & 64 != 0] + Sextet(w & 0x3f)
  {
  }

  lemma LastTwo(v: bv8)
    ensures Sextet(v)[4..] == [v & 2 != 0, v & 1 != 0]
  {
  }

  lemma {:induction false} FourSextets(p: seq<bv8>)
    requires |p| >= 4
    ensures Sextets(p) == Sextet(Find(p[0])) + Sextet(Find(p[1])) + Sextet(Find(p[2])) + Sextet(Find(p[3]))
                          + Sextets(p[4..])
  {
    hide Sextet, Find;
    assert p[1..][1..][1..][1..] == p[4..];
    assert Sextets(p[1..][1..][1..]) == Sextet(Find(p[3])) + Sextets(p[4..]);
    assert Sextets(p[1..][1..]) == Sextet(Find(p[2])) + Sextets(p[1..][1..][1..]);
    assert Sextets(p[1..]) == Sextet(Find(p[1])) + Sextets(p[1..][1..]);
  }

  lemma {:induction false} ThreeOctets(t: seq<bv8>, rest: seq<bv8>)
    requires |t| == 3
    ensures Octets(t + rest) == Octet(t[0]) + Octet(t[1]) + Octet(t[2]) + Octets(rest)
  {
    hide Octet;
    assert (t + rest)[1..][1..][1..] == rest;
    assert Octets((t + rest)[1..][1..]) == Octet(t[2]) + Octets(rest);
    assert Octets((t + rest)[1..]) == Octet(t[1]) + Octets((t + rest)[1..][1..]);
  }

  lemma TripleBits(a: bv8, b: bv8, c: bv8, d: bv8)
    requires IsBase64(a) && IsBase64(b) && IsBase64(c) && IsBase64(d)
    ensures var t := Triple(a, b, c, d);
            Octet(t[0]) + Octet(t[1]) + Octet(t[2])
            == Sextet(Find(a)) + Sextet(Find(b)) + Sextet(Find(c)) + Sextet(Find(d))
  {
    hide Octet, Sextet, Find, IsBase64;
    FoundChar(a);
    FoundChar(b);
    FoundChar(c);
    FoundChar(d);
    FirstByte(Find(a), Find(b));
    SecondByte(Find(b), Find(c));
    ThirdByte(Find(c), Find(d));
    SextetSplits(Find(b));
    SextetSplits(Find(c));
    var t := Triple(a, b, c, d);
    Regrouped(Sextet(Find(a)), Sextet(Find(b)), Sextet(Find(c)), Sextet(Find(d)),
              Octet(t[0]), Octet(t[1]), Octet(t[2]));
  }

  lemma Regrouped(s0: seq<bool>, s1: seq<bool>, s2: seq<bool>, s3: seq<bool>, o0: seq<bool>, o1: seq<bool>,
        o2: seq<bool>)
    requires |s1| == |s2| == 6
    requires o0 == s0 + s1[..2] && o1 == s1[2..] + s2[..4] && o2 == s2[4..] + s3
    ensures o0 + o1 + o2 == s0 + s1 + s2 + s3
  {
  }

  lemma SextetSplits(v: bv8)
    ensures |Sextet(v)| == 6 && Sextet(v)[..2] + Sextet(v)[2..] == Sextet(v) == Sextet(v)[..4] + Sextet(v)[4..]
  {
  }

  lemma {:induction false} CharBits(p: seq<bv8>)
    requires forall i :: 0 <= i < |p| ==> IsBase64(p[i])
    ensures |DecodeChars(p)| == 6 * |p| / 8 && |Sextets(p)| == 6 * |p|
    ensures Octets(DecodeChars(p)) == Sextets(p)[..8 * |DecodeChars(p)|]
    decreases |p|
  {
    hide Triple, Find, Octet, Sextet, IsBase64;
    SextetsLength(p);
    if |p| >= 4 {
      var t := Triple(p[0], p[1], p[2], p[3]);
      CharBits(p[4..]);
      TripleBits(p[0], p[1], p[2], p[3]);
      FourSextets(p);
      ThreeOctets(t, DecodeChars(p[4..]));
      SextetSplits(Find(p[0]));
      SextetSplits(Find(p[1]));
      SextetSplits(Find(p[2]));
      SextetSplits(Find(p[3]));
    } else {
      TailBits(p);
    }
  }

  lemma {:induction false} TailBits(p: seq<bv8>)
    requires |p| < 4 && forall i :: 0 <= i < |p| ==> IsBase64(p[i])
    ensures |DecodeChars(p)| == 6 * |p| / 8 && |Sextets(p)| == 6 * |p|
    ensures Octets(DecodeChars(p)) == Sextets(p)[..8 * |DecodeChars(p)|]
  {
    hide Triple, Find, Octet, Sextet, IsBase64;
    SextetsLength(p);
    if |p| == 3 {
      ThreeSextets(p);
      TwoBytes(p[0], p[1], p[2]);
      SextetSplits(Find(p[0]));
      SextetSplits(Find(p[1]));
      SextetSplits(Find(p[2]));
    } else if |p| == 2 {
      TwoSextets(p);
      OneByte(p[0], p[1]);
      SextetSplits(Find(p[0]));
      SextetSplits(Find(p[1]));
    }
  }

  lemma {:induction false} TwoSextets(p: seq<bv8>)
    requires |p| >= 2
    ensures Sextets(p) == Sextet(Find(p[0])) + Sextet(Find(p[1])) + Sextets(p[2..])
  {
    hide Sextet, Find;
    assert p[1..][1..] == p[2..];
    assert Sextets(p[1..]) == Sextet(Find(p[1])) + Sextets(p[2..]);
  }

  lemma {:induction false} ThreeSextets(p: seq<bv8>)
    requires |p| == 3
    ensures Sextets(p) == Sextet(Find(p[0])) + Sextet(Find(p[1])) + Sextet(Find(p[2]))
  {
    hide Sextet, Find;
    TwoSextets(p);
    assert p[2..][1..] == [] && Sextets(p[2..]) == Sextet(Find(p[2])) + [];
  }

  lemma {:induction false} OneByte(a: bv8, b: bv8)
    requires IsBase64(a) && IsBase64(b)
    ensures Octets(Triple(a, b, 0, 0)[..1]) == Sextet(Find(a)) + Sextet(Find(b))[..2]
  {
    hide Octet, Sextet, Find, IsBase64;
    FoundChar(a);
    FoundChar(b);
    FirstByte(Find(a), Find(b));
    var d := Triple(a, b, 0, 0)[..1];
    assert d[1..] == [] && Octets(d) == Octet(d[0]) + [];
  }

  lemma {:induction false} TwoBytes(a: bv8, b: bv8, c: bv8)
    requires IsBase64(a) && IsBase64(b) && IsBase64(c)
    ensures |Sextet(Find(b))| == 6
    ensures Octets(Triple(a, b, c, 0)[..2]) == Sextet(Find(a)) + Sextet(Find(b)) + Sextet(Find(c))[..4]
  {
    hide Octet, Sextet, Find, IsBase64;
    FoundChar(a);
    FoundChar(b);
    FoundChar(c);
    FirstByte(Find(a), Find(b));
    SecondByte(Find(b), Find(c));
    SextetSplits(Find(b));
    SextetSplits(Find(c));
    var d := Triple(a, b, c, 0)[..2];
    TwoOctets(d);
    RegroupedTwo(Sextet(Find(a)), Sextet(Find(b)), Sextet(Find(c))[..4], Octet(d[0]), Octet(d[1]));
  }

  lemma {:induction false} TwoOctets(d: seq<bv8>)
    requires |d| == 2
    ensures Octets(d) == Octet(d[0]) + Octet(d[1])
  {
    hide Octet;
    assert d[1..][1..] == [] && Octets(d[1..]) == Octet(d[1]) + [];
  }

  lemma RegroupedTwo(s0: seq<bool>, s1: seq<bool>, s2: seq<bool>, o0: seq<bool>, o1: seq<bool>)
    requires |s1| == 6 && o0 == s0 + s1[..2] && o1 == s1[2..] + s2
    ensures o0 + o1 == s0 + s1 + s2
  {
  }

  /** The characters that are decoded: those before the first one outside the alphabet. */
  lemma {:induction false} PrefixExact(s: seq<bv8>)
    ensures Prefix(s) <= s && (forall i :: 0 <= i < |Prefix(s)| ==> IsBase64(Prefix(s)[i]))
    ensures |Prefix(s)| < |s| ==> !IsBase64(s[|Prefix(s)|])
  {
    hide IsBase64;
    if s != [] && IsBase64(s[0]) {
      PrefixExact(s[1..]);
    }
  }

  /** Decoding any string at all is taking whole bytes of the bits of its leading alphabet characters. */
  lemma {:induction false} DecodeBits(s: seq<bv8>)
    ensures |Decode(s)| == 6 * |Prefix(s)| / 8 && |Sextets(Prefix(s))| == 6 * |Prefix(s)|
    ensures Octets(Decode(s)) == Sextets(Prefix(s))[..8 * |Decode(s)|]
  {
    hide IsBase64, Octets, Sextets;
    PrefixExact(s);
    CharBits(Prefix(s));
  }

  // ------------------------------------------------------------------
  // The loops.

  method EncodeGroup(c3: array<bv8>, c4: array<bv8>)
    requires c3.Length == 3 && c4.Length == 4
    modifies c4
    ensures c4[..] == Quad(c3[0], c3[1], c3[2])
  {
    SixBits(c3[0], c3[1], c3[2]);
    c4[0] := Char64((c3[0] & 0xfc) >> 2);
    c4[1] := Char64(((c3[0] & 0x03) << 4) + ((c3[1] & 0xf0) >> 4));
    c4[2] := Char64(((c3[1] & 0x0f) << 2) + ((c3[2] & 0xc0) >> 6));
    c4[3] := Char64(c3[2] & 0x3f);
  }

  method Base64Encode(message: seq<bv8>) returns (ret: seq<bv8>)
    ensures ret == Encode(message)
  {
    hide Quad, Encode;
    ret := [];
    var i := 0;
    var c3, c4 := new bv8[3], new bv8[4];
    var pos := 0;
    ghost var p: seq<bv8> := [];  // the bytes of the group begun
    assert [] + message[0..] == message;
    while pos < |message|
      invariant 0 <= i < 3 && pos <= |message| && c3[..i] == p
      invariant ret + Encode(p + message[pos..]) == Encode(message)
    {
      assert p + message[pos..] == (p + [message[pos]]) + message[pos + 1..];
      c3[i] := message[pos];
      p := p + [message[pos]];
      assert c3[..i + 1] == p;
      i := i + 1;
      pos := pos + 1;
      if i == 3 {
        assert p == [c3[0], c3[1], c3[2]];
        EncodeGroup(c3, c4);
        FirstGroup(p, message[pos..]);
        ghost var t, rest := c4[..], Encode([] + message[pos..]);
        assert (ret + t) + rest == ret + (t + rest);
        ret := ret + c4[..];
        i := 0;
        p := [];
      }
    }
    assert p + message[pos..] == p;
    if i != 0 {
      var tail := EncodeTail(c3, c4, i);
      ret := ret + tail;
    } else {
      NothingLeft();
      assert ret + [] == ret;
    }
  }

  lemma NothingLeft()
    ensures Encode([]) == []
  {
  }

  lemma {:induction false} FirstGroup(p: seq<bv8>, rest: seq<bv8>)
    requires |p| == 3
    ensures Encode(p + rest) == Quad(p[0], p[1], p[2]) + Encode([] + rest)
  {
    hide Quad;
    assert (p + rest)[3..] == rest == [] + rest;
  }

  /** What follows the loop: fill up with zeros, keep i + 1 characters, pad. */
  method EncodeTail(c3: array<bv8>, c4: array<bv8>, left: nat) returns (ret: seq<bv8>)
    requires c3.Length == 3 && c4.Length == 4 && 1 <= left <= 2 && c3 != c4
    modifies c3, c4
    ensures ret == Encode(old(c3[..left]))
  {
    hide Quad;
    ghost var x := c3[..left];
    var j := left;
    while j < 3
      invariant left <= j <= 3 && c3[..left] == x
      invariant forall k :: left <= k < j ==> c3[k] == 0
    {
      c3[j] := 0;
      j := j + 1;
    }
    assert c3[0] == c3[..left][0] && (left == 2 ==> c3[1] == c3[..left][1]);
    EncodeGroup(c3, c4);
    ret := [];
    j := 0;
    while j < left + 1
      invariant 0 <= j <= left + 1 && ret == c4[..j] && c4[..] == Quad(c3[0], c3[1], c3[2])
    {
      ret := ret + [c4[j]];
      j := j + 1;
    }
    var i := left;
    while i < 3
      invariant left <= i <= 3 && ret == c4[..left + 1] + seq(i - left, _ => PAD)
    {
      assert seq(i + 1 - left, _ => PAD) == seq(i - left, _ => PAD) + [PAD];
      ret := ret + [PAD];
      i := i + 1;
    }
    assert c4[..left + 1] == c4[..][..left + 1];
    assert seq(3 - left, _ => PAD) == if left == 1 then [PAD, PAD] else [PAD];
  }

  /** The group of `base64_decode`: the characters are replaced by their indices first. */
  method DecodeGroup(c4: array<bv8>, c3: array<bv8>)
    requires c3.Length == 3 && c4.Length == 4 && c3 != c4
    modifies c3, c4
    ensures c3[..] == old(Triple(c4[0], c4[1], c4[2], c4[3]))
  {
    ghost var a, b, c, d := c4[0], c4[1], c4[2], c4[3];
    hide Find;
    var i := 0;
    while i < 4
      invariant 0 <= i <= 4
      invariant forall k :: 0 <= k < i ==> c4[k] == Find(old(c4[k]))
      invariant forall k :: i <= k < 4 ==> c4[k] == old(c4[k])
    {
      c4[i] := Find(c4[i]);
      i := i + 1;
    }
    assert c4[0] == Find(a) && c4[1] == Find(b) && c4[2] == Find(c) && c4[3] == Find(d);
    c3[0] := (c4[0] << 2) + ((c4[1] & 0x30) >> 4);
    c3[1] := ((c4[1] & 0xf) << 4) + ((c4[2] & 0x3c) >> 2);
    c3[2] := ((c4[2] & 0x3) << 6) + c4[3];
    assert c3[..] == [c3[0], c3[1], c3[2]];
  }

  method Base64Decode(encoded: seq<bv8>) returns (ret: seq<bv8>)
    ensures ret == Decode(encoded)
  {
    hide Triple, Find, IsBase64, DecodeChars, Prefix;
    ret := [];
    var i := 0;
    var c4, c3 := new bv8[4], new bv8[3];
    var pos := 0;
    ghost var p: seq<bv8> := [];  // the characters of the group begun
    assert encoded[0..] == encoded && [] + Prefix(encoded) == Prefix(encoded);
    while pos < |encoded| && encoded[pos] != PAD && IsBase64(encoded[pos])
      invariant 0 <= i < 4 && pos <= |encoded| && c4[..i] == p
      invariant ret + DecodeChars(p + Prefix(encoded[pos..])) == Decode(encoded)
      decreases |encoded| - pos
    {
      PrefixStep(encoded, pos, p);
      c4[i] := encoded[pos];
      p := p + [encoded[pos]];
      assert c4[..i + 1] == p;
      i := i + 1;
      pos := pos + 1;
      if i == 4 {
        assert p == [c4[0], c4[1], c4[2], c4[3]];
        DecodeGroup(c4, c3);
        FirstQuad(p, Prefix(encoded[pos..]));
        ghost var t, rest := c3[..], DecodeChars([] + Prefix(encoded[pos..]));
        assert (ret + t) + rest == ret + (t + rest);
        ret := ret + c3[..];
        i := 0;
        p := [];
      }
    }
    PrefixEnd(encoded, pos);
    assert p + [] == p;
    if i != 0 {
      var tail := DecodeTail(c4, c3, i);
      ret := ret + tail;
    } else {
      NothingDecoded();
      assert ret + [] == ret;
    }
  }

  lemma NothingDecoded()
    ensures DecodeChars([]) == []
  {
  }

  lemma PrefixStep(s: seq<bv8>, pos: nat, p: seq<bv8>)
    requires pos < |s| && IsBase64(s[pos])
    ensures p + Prefix(s[pos..]) == (p + [s[pos]]) + Prefix(s[pos + 1..])
  {
    assert s[pos..][1..] == s[pos + 1..];
  }

  lemma PrefixEnd(s: seq<bv8>, pos: nat)
    requires pos <= |s| && (pos < |s| ==> s[pos] == PAD || !IsBase64(s[pos]))
    ensures Prefix(s[pos..]) == []
  {
  }

  lemma {:induction false} FirstQuad(p: seq<bv8>, rest: seq<bv8>)
    requires |p| == 4
    ensures DecodeChars(p + rest) == Triple(p[0], p[1], p[2], p[3]) + DecodeChars([] + rest)
  {
    hide Triple;
    assert (p + rest)[4..] == rest == [] + rest;
  }

  method DecodeTail(c4: array<bv8>, c3: array<bv8>, left: nat) returns (ret: seq<bv8>)
    requires c3.Length == 3 && c4.Length == 4 && 1 <= left <= 3 && c3 != c4
    modifies c3, c4
    ensures ret == DecodeChars(old(c4[..left]))
  {
    hide Triple, Find;
    ghost var p := c4[..left];
    var j := left;
    while j < 4
      invariant left <= j <= 4 && c4[..left] == p
      invariant forall k :: left <= k < j ==> c4[k] == 0
    {
      c4[j] := 0;
      j := j + 1;
    }
    assert forall k :: 0 <= k < left ==> c4[k] == c4[..left][k];
    DecodeGroup(c4, c3);
    ret := [];
    j := 0;
    while j < left - 1
      invariant 0 <= j <= left - 1 && ret == c3[..j]
    {
      ret := ret + [c3[j]];
      j := j + 1;
    }
    assert c3[..left - 1] == c3[..][..left - 1];
  }
}
