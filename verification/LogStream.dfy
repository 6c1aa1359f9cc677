/** `muduo::LogStream` over a `FixedBuffer`: integers are printed straight into the buffer, back to front, and
    reversed in place. */
module LogStreams {
  import opened CInt
  import opened Numerals

  const SMALL_BUFFER := 4000
  const MAX_NUMERIC_SIZE := 32

  /** The characters the digit loop writes, least significant first. */
  function Backward(n: nat, base: Base): (s: string)
    ensures s != []
    decreases n
  {
    if Rest(n, base) == 0 then [DigitChar(Last(n, base))]
    else [DigitChar(Last(n, base))] + Backward(Rest(n, base), base)
  }

  function Reverse(s: string): (r: string)
    ensures |r| == |s|
  {
    if s == [] then [] else Reverse(s[1..]) + [s[0]]
  }

  lemma {:induction false} ReverseAt(s: string, k: nat)
    requires k < |s|
    ensures Reverse(s)[k] == s[|s| - 1 - k]
  {
    if k < |s| - 1 {
      ReverseAt(s[1..], k);
    }
  }

  lemma {:induction false} ReverseConcat(s: string, t: string)
    ensures Reverse(s + t) == Reverse(t) + Reverse(s)
  {
    if s == [] {
      assert s + t == t;
    } else {
      assert (s + t)[1..] == s[1..] + t && (s + t)[0] == s[0];
      ReverseConcat(s[1..], t);
    }
  }

  lemma {:induction false} BackwardIsReversed(n: nat, base: Base)
    ensures Reverse(Backward(n, base)) == Numeral(n, base)
    decreases n
  {
    if Rest(n, base) != 0 {
      BackwardIsReversed(Rest(n, base), base);
      var c := [DigitChar(Last(n, base))];
      ReverseConcat(c, Backward(Rest(n, base), base));
      assert Reverse(c) == c by { assert c[1..] == []; }
    }
  }

  /** `digits` and `zero`: indexable from -9 to 9, so that a truncated remainder needs no sign test. */
  const DIGITS := "9876543210123456789"

  function Zero(lsd: int): char
    requires -9 <= lsd <= 9
  {
    DIGITS[9 + lsd]
  }

  lemma ZeroTable(lsd: int)
    requires -9 <= lsd <= 9
    ensures Zero(lsd) == DigitChar(if lsd < 0 then -lsd else lsd)
  {
    assert DIGITS[0] == '9' && DIGITS[1] == '8' && DIGITS[2] == '7' && DIGITS[3] == '6' && DIGITS[4] == '5';
    assert DIGITS[5] == '4' && DIGITS[6] == '3' && DIGITS[7] == '2' && DIGITS[8] == '1' && DIGITS[9] == '0';
    assert DIGITS[10] == '1' && DIGITS[11] == '2' && DIGITS[12] == '3' && DIGITS[13] == '4' && DIGITS[14] == '5';
    assert DIGITS[15] == '6' && DIGITS[16] == '7' && DIGITS[17] == '8' && DIGITS[18] == '9';
    var k := 9 + lsd;
    assert k in {0, 1, 2, 3, 4, 5, 6, 7, 8, 9, 10, 11, 12, 13, 14, 15, 16, 17, 18};
  }

  function Abs(i: int): nat {
    if i < 0 then -i else i
  }

  /** A truncated division by ten works on the magnitude. */
  lemma TruncatedStep(i: int)
    ensures Abs(Rem(i, 10)) == Last(Abs(i), Ten) && Abs(Quot(i, 10)) == Rest(Abs(i), Ten)
    ensures -9 <= Rem(i, 10) <= 9
  {
    if i < 0 {
      var n := -i;
      assert n == 10 * (n / 10) + n % 10;
    }
  }

  /** `std::reverse` of a[lo..hi]. */
  method ReverseRange(a: array<char>, lo: nat, hi: nat)
    requires lo <= hi <= a.Length
    modifies a
    ensures a[..] == old(a[..lo]) + Reverse(old(a[lo..hi])) + old(a[hi..])
  {
    ghost var before := a[..];
    var i := 0;
    while i < (hi - lo) / 2
      invariant 0 <= i <= (hi - lo) / 2
      invariant forall k :: 0 <= k < a.Length ==>
                  a[k] == before[if lo <= k < lo + i || hi - i <= k < hi then lo + hi - 1 - k else k]
    {
      var j, l := lo + i, hi - 1 - i;
      a[j], a[l] := a[l], a[j];
      i := i + 1;
    }
    Mirrored(before, a[..], lo, hi);
  }

  lemma Mirrored(before: string, after: string, lo: nat, hi: nat)
    requires lo <= hi <= |before| == |after|
    requires forall k :: 0 <= k < |after| ==> after[k] == before[if lo <= k < hi then lo + hi - 1 - k else k]
    ensures after == before[..lo] + Reverse(before[lo..hi]) + before[hi..]
  {
    var s := before[lo..hi];
    forall k | 0 <= k < |s| ensures after[lo + k] == Reverse(s)[k] {
      ReverseAt(s, k);
    }
    assert after[..lo] == before[..lo] && after[lo..hi] == Reverse(s) && after[hi..] == before[hi..];
    assert after == after[..lo] + after[lo..hi] + after[hi..];
  }

  /** `convert`: the decimal text of a signed or unsigned value, terminated, and nothing else changed. */
  method Convert(buf: array<char>, at: nat, value: int) returns (len: nat)
    requires at + |Decimal(value)| < buf.Length
    modifies buf
    ensures len == |Decimal(value)|
    ensures buf[..at] == old(buf[..at]) && buf[at..at + len] == Decimal(value) && buf[at + len] == '\0'
  {
    BackwardIsReversed(Abs(value), Ten);
    SignedText(value);
    ghost var digits := Backward(Abs(value), Ten);
    assert digits + "" == digits;
    hide Decimal, Numeral, Backward, Reverse;
    var p := ConvertDigits(buf, at, value);
    ghost var text := digits;
    if value < 0 {
      ghost var start := buf[..];
      buf[p] := '-';
      assert buf[..][..p] == start[..p];
      Extends(start, buf[..], at, p, digits, "-");
      p := p + 1;
      text := digits + "-";
    }
    Terminate(buf, at, p);
    len := p - at;
  }

  /** The terminator, and `std::reverse` of what was written. */
  method Terminate(buf: array<char>, at: nat, p: nat)
    requires at <= p < buf.Length
    modifies buf
    ensures buf[..at] == old(buf[..at]) && buf[at..p] == Reverse(old(buf[at..p])) && buf[p] == '\0'
  {
    ghost var start := buf[..];
    buf[p] := '\0';
    ghost var before := buf[..];
    assert before[..p] == start[..p];
    assert before[at..p] == before[..p][at..] == start[..p][at..] == start[at..p];
    assert before[..at] == before[..p][..at] == start[..p][..at] == start[..at];
    hide Reverse;
    ReverseRange(buf, at, p);
    ReverseLength(before[at..p]);
    Spliced(before[..at], Reverse(before[at..p]), before[p..], buf[..]);
    assert buf[..][p..][0] == before[p..][0] == '\0';
  }

  lemma {:induction false} ReverseLength(s: string)
    ensures |Reverse(s)| == |s|
  {
  }

  /** What stands before, in and behind the middle of a string put together from three parts. */
  lemma Spliced(a: string, b: string, c: string, whole: string)
    requires whole == a + b + c
    ensures whole[..|a|] == a && whole[|a|..|a| + |b|] == b && whole[|a| + |b|..] == c
  {
  }

  /** Text written directly behind text. */
  lemma Extends(before: string, after: string, at: nat, p: nat, text: string, more: string)
    requires at <= p && p + |more| <= |after| == |before|
    requires before[at..p] == text && after[..p] == before[..p] && after[p..p + |more|] == more
    ensures after[at..p + |more|] == text + more
  {
    assert after[at..p] == after[..p][at..] == before[..p][at..] == before[at..p];
    assert after[at..p + |more|] == after[at..p] + after[p..p + |more|];
  }

  /** The loop's digits and the sign, reversed, are the decimal text. */
  lemma SignedText(value: int)
    ensures Reverse(Backward(Abs(value), Ten) + (if value < 0 then "-" else "")) == Decimal(value)
    ensures |Backward(Abs(value), Ten)| + (if value < 0 then 1 else 0) == |Decimal(value)|
  {
    var n := Abs(value);
    BackwardIsReversed(n, Ten);
    if value < 0 {
      ReverseConcat(Backward(n, Ten), "-");
      assert Reverse("-") == "-" by { assert "-"[1..] == ""; }
    } else {
      assert Backward(n, Ten) + "" == Backward(n, Ten);
    }
  }

  /** The do-while loop. */
  method ConvertDigits(buf: array<char>, at: nat, value: int) returns (p: nat)
    requires at + |Decimal(value)| < buf.Length
    modifies buf
    ensures p == at + |Backward(Abs(value), Ten)| && p + (if value < 0 then 1 else 0) < buf.Length
    ensures buf[..at] == old(buf[..at]) && buf[at..p] == Backward(Abs(value), Ten)
  {
    ghost var all := Backward(Abs(value), Ten);
    BackwardIsReversed(Abs(value), Ten);
    assert at + |all| + (if value < 0 then 1 else 0) < buf.Length;
    hide Decimal, Quot, Rem, Zero, Numeral, Reverse, Backward;
    var i := value;
    ghost var written: string := [];
    p := at;
    while true
      invariant p == at + |written| && written + Backward(Abs(i), Ten) == all
      invariant buf[..at] == old(buf[..at]) && buf[at..p] == written
      decreases Abs(i)
    {
      DigitStep(written, i);
      TruncatedStep(i);
      var lsd := Rem(i, 10);
      i := Quot(i, 10);
      buf[p] := Zero(lsd);
      assert buf[at..p + 1] == buf[at..p] + [Zero(lsd)];
      written := written + [Zero(lsd)];
      p := p + 1;
      if i == 0 {
        break;
      }
    }
  }

  /** One turn of the digit loop takes the first of the characters still to come. */
  lemma DigitStep(written: string, i: int)
    ensures -9 <= Rem(i, 10) <= 9 && (Quot(i, 10) != 0 ==> Abs(Quot(i, 10)) < Abs(i))
    ensures var c, next := [Zero(Rem(i, 10))], Quot(i, 10);
            written + Backward(Abs(i), Ten) == (written + c) + (if next == 0 then [] else Backward(Abs(next), Ten))
  {
    TruncatedStep(i);
    ZeroTable(Rem(i, 10));
    hide Zero, Quot, Rem, Last, DigitChar;
    var c, next := [Zero(Rem(i, 10))], Quot(i, 10);
    assert Backward(Abs(i), Ten) == c + (if next == 0 then [] else Backward(Abs(next), Ten));
  }

  /** `convertHex`. */
  method ConvertHex(buf: array<char>, at: nat, value: nat) returns (len: nat)
    requires at + |Numeral(value, Sixteen)| < buf.Length
    modifies buf
    ensures len == |Numeral(value, Sixteen)|
    ensures buf[..at] == old(buf[..at]) && buf[at..at + len] == Numeral(value, Sixteen) && buf[at + len] == '\0'
  {
    ghost var all := Backward(value, Sixteen);
    BackwardIsReversed(value, Sixteen);
    assert |all| == |Numeral(value, Sixteen)|;
    var p := HexDigits(buf, at, value);
    buf[p] := '\0';
    assert buf[at..p] == all;
    ghost var before := buf[..];
    ReverseRange(buf, at, p);
    assert buf[..][..at] == before[..at];
    assert buf[..][at..p] == Reverse(all);
    len := p - at;
  }

  method HexDigits(buf: array<char>, at: nat, value: nat) returns (p: nat)
    requires at + |Backward(value, Sixteen)| < buf.Length
    modifies buf
    ensures p == at + |Backward(value, Sixteen)|
    ensures buf[..at] == old(buf[..at]) && buf[at..p] == Backward(value, Sixteen)
  {
    ghost var all := Backward(value, Sixteen);
    hide Backward, DigitChar;
    var i := value;
    ghost var written: string := [];
    p := at;
    while true
      invariant p == at + |written| && written + Backward(i, Sixteen) == all
      invariant buf[..at] == old(buf[..at]) && buf[at..p] == written
      decreases i
    {
      HexStep(written, i);
      var lsd := i % 16;
      i := i / 16;
      buf[p] := DigitChar(lsd);
      assert buf[at..p + 1] == buf[at..p] + [DigitChar(lsd)];
      written := written + [DigitChar(lsd)];
      p := p + 1;
      if i == 0 {
        break;
      }
    }
  }

  lemma {:induction false} HexStep(written: string, i: nat)
    ensures var c, next := [DigitChar(i % 16)], i / 16;
            written + Backward(i, Sixteen) == (written + c) + (if next == 0 then [] else Backward(next, Sixteen))
  {
    var c, next := [DigitChar(i % 16)], i / 16;
    assert Backward(i, Sixteen) == c + (if next == 0 then [] else Backward(next, Sixteen));
  }

  // ------------------------------------------------------------------
  // The buffer and the stream.

  class FixedBuffer {
    const data: array<char>
    var cur: nat

    /** The cursor is inside, so a terminator fits behind the content. */
    ghost predicate Valid()
      reads this
    {
      cur < data.Length
    }

    ghost function Contents(): string
      reads this, data
      requires Valid()
    {
      data[..cur]
    }

    constructor (size: nat)
      requires size > 0
      ensures Valid() && Contents() == "" && data.Length == size && fresh(data)
    {
      data := new char[size](_ => '\0');
      cur := 0;
    }

    function Avail(): int
      reads this
    {
      data.Length - cur
    }

    /** All of the text if it leaves a free character, nothing otherwise. */
    method Append(text: string)
      requires Valid()
      modifies this, data
      ensures Valid()
      ensures Contents() == if old(Avail()) > |text| then old(Contents()) + text else old(Contents())
    {
      if Avail() > |text| {
        ghost var before := data[..cur];
        var i := 0;
        while i < |text|
          invariant 0 <= i <= |text| && cur == old(cur)
          invariant data[..cur] == before && data[cur..cur + i] == text[..i]
        {
          data[cur + i] := text[i];
          assert data[cur..cur + i + 1] == data[cur..cur + i] + [text[i]];
          i := i + 1;
        }
        assert data[..cur + |text|] == data[..cur] + data[cur..cur + |text|];
        cur := cur + |text|;
      }
    }

    method Reset()
      requires Valid()
      modifies this
      ensures Valid() && Contents() == ""
    {
      cur := 0;
    }

    /** `debugString`: the write of the terminator is in bounds. */
    method DebugString() returns (s: string)
      requires Valid()
      modifies data
      ensures s == old(Contents()) && Valid() && Contents() == old(Contents())
    {
      data[cur] := '\0';
      s := data[..cur];
    }
  }

  /** What can be inserted.  A double comes with the text `snprintf` writes for it into 32 bytes; a `Fmt` is a
      string. */
  datatype Item = Integer(value: int) | Pointer(address: nat) | Double(text: string) | Str(text: string)

  predicate Printable(item: Item) {
    match item
    case Integer(v) => Fits64(v)
    case Pointer(a) => Fits64(a)
    case Double(t) => |t| < MAX_NUMERIC_SIZE
    case Str(_) => true
  }

  function TextOf(item: Item): string {
    match item
    case Integer(v) => Decimal(v)
    case Pointer(a) => "0x" + Numeral(a, Sixteen)
    case Double(t) => t
    case Str(t) => t
  }

  /** Numbers want 32 characters free, strings one more than their length. */
  predicate FitsIn(item: Item, avail: int) {
    if item.Str? then avail > |item.text| else avail >= MAX_NUMERIC_SIZE
  }

  function Inserted(content: string, item: Item): string {
    if FitsIn(item, SMALL_BUFFER - |content|) then content + TextOf(item) else content
  }

  function InsertedAll(content: string, items: seq<Item>): string {
    if items == [] then content else Inserted(InsertedAll(content, items[..|items| - 1]), items[|items| - 1])
  }

  /** An insertion adds the whole text or nothing: a number exactly if 32 of the 4000 characters are free, whatever
      its length, and a string exactly if it leaves one free. */
  lemma InsertedExactly(content: string, item: Item)
    ensures Inserted(content, item)
            == if item.Str? && |content| + |item.text| < 4000 then content + item.text
               else if !item.Str? && |content| <= 3968 then content + TextOf(item)
               else content
  {
  }

  lemma {:induction false} PointerText(content: string, p: nat)
    ensures Inserted(content, Pointer(p))
            == if SMALL_BUFFER - |content| >= MAX_NUMERIC_SIZE then (content + "0x") + Numeral(p, Sixteen) else content
  {
    hide Numeral;
  }

  class LogStream {
    const buffer: FixedBuffer

    ghost predicate Valid()
      reads this, buffer
    {
      buffer.Valid() && buffer.data.Length == SMALL_BUFFER
    }

    constructor ()
      ensures Valid() && fresh(buffer) && fresh(buffer.data) && buffer.Contents() == ""
    {
      buffer := new FixedBuffer(SMALL_BUFFER);
    }

    /** `formatInteger`: the guard of 32 characters covers the digits, the sign and the terminator of any 64-bit
        value. */
    method FormatInteger(v: int)
      requires Valid() && Fits64(v)
      modifies buffer, buffer.data
      ensures Valid() && buffer.Contents() == Inserted(old(buffer.Contents()), Integer(v))
    {
      if buffer.Avail() >= MAX_NUMERIC_SIZE {
        TextFits(v);
        hide Decimal, Fits64;
        var at := buffer.cur;
        ghost var before := buffer.data[..];
        var len := Convert(buffer.data, at, v);
        assert buffer.data[..][..at] == before[..at];
        Extends(before, buffer.data[..], 0, at, before[..at], Decimal(v));
        buffer.cur := at + len;
      }
    }

    method FormatPointer(p: nat)
      requires Valid() && Fits64(p)
      modifies buffer, buffer.data
      ensures Valid() && buffer.Contents() == Inserted(old(buffer.Contents()), Pointer(p))
    {
      if buffer.Avail() >= MAX_NUMERIC_SIZE {
        TextFits(p);
        hide Numeral, Fits64, Inserted;
        ghost var content := buffer.Contents();
        var at := buffer.cur;
        PutPrefix();
        ghost var before := buffer.data[..];
        var len := ConvertHex(buffer.data, at + 2, p);
        assert buffer.data[..][..at + 2] == before[..at + 2];
        Extends(before, buffer.data[..], 0, at + 2, content + "0x", Numeral(p, Sixteen));
        PointerText(content, p);
        buffer.cur := at + len + 2;
      } else {
        PointerText(buffer.Contents(), p);
      }
    }

    method PutPrefix()
      requires Valid() && buffer.Avail() > 2
      modifies buffer.data
      ensures buffer.data[..buffer.cur + 2] == old(buffer.Contents()) + "0x"
    {
      buffer.data[buffer.cur] := '0';
      buffer.data[buffer.cur + 1] := 'x';
    }

    /** Any sequence of insertions: the cursor and every terminator stay inside, and the content is that of the
        model. */
    method InsertAll(items: seq<Item>)
      requires Valid() && forall i :: 0 <= i < |items| ==> Printable(items[i])
      modifies buffer, buffer.data
      ensures Valid() && buffer.Contents() == InsertedAll(old(buffer.Contents()), items)
    {
      hide Inserted;
      var i := 0;
      while i < |items|
        invariant 0 <= i <= |items| && Valid()
        invariant buffer.Contents() == InsertedAll(old(buffer.Contents()), items[..i])
      {
        assert items[..i + 1][..i] == items[..i];
        assert Printable(items[i]);
        Insert(items[i]);
        i := i + 1;
      }
      assert items[..i] == items;
    }

    method Insert(item: Item)
      requires Valid() && Printable(item)
      modifies buffer, buffer.data
      ensures Valid() && buffer.Contents() == Inserted(old(buffer.Contents()), item)
    {
      match item
      case Integer(v) => FormatInteger(v);
      case Pointer(p) => FormatPointer(p);
      case Double(t) =>
        if buffer.Avail() >= MAX_NUMERIC_SIZE {
          buffer.Append(t);
        }
      case Str(t) => buffer.Append(t);
    }
  }

  /** A value that was inserted with room for it can be read back from the content. */
  lemma InsertedInteger(content: string, v: int)
    requires |content| + MAX_NUMERIC_SIZE <= SMALL_BUFFER && Fits64(v)
    ensures var r := Inserted(content, Integer(v));
            content <= r && Parse(r[|content|..]) == v && CanonicalDecimal(r[|content|..]) && |r| <= |content| + 20
  {
    DecimalRoundTrip(v);
    TextFits(v);
    assert (content + Decimal(v))[|content|..] == Decimal(v);
  }
}
