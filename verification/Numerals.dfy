/** Decimal and hexadecimal numerals. */
module Numerals {

  datatype Base = Ten | Sixteen

  function Last(n: nat, base: Base): (d: nat)
    ensures d < if base.Ten? then 10 else 16
  {
    if base.Ten? then n % 10 else n % 16
  }

  function Rest(n: nat, base: Base): (r: nat)
    ensures n > 0 ==> r < n
  {
    if base.Ten? then n / 10 else n / 16
  }

  function DigitChar(d: nat): char
    requires d < 16
  {
    if d < 10 then ('0' as int + d) as char else ('A' as int + d - 10) as char
  }

  /** The value of a digit, if it is one. */
  function DigitValue(c: char): nat {
    if '0' <= c <= '9' then (c as int) - ('0' as int)
    else if 'A' <= c <= 'F' then (c as int) - ('A' as int) + 10
    else 16
  }

  /** The digits of base sixteen, as `digitsHex` lists them. */
  lemma DigitChars(d: nat)
    requires d < 16
    ensures DigitChar(d) == "0123456789ABCDEF"[d] && DigitValue(DigitChar(d)) == d
  {
    assert d in {0, 1, 2, 3, 4, 5, 6, 7, 8, 9, 10, 11, 12, 13, 14, 15};
  }

  predicate IsDigit(c: char, base: Base) {
    DigitValue(c) < if base.Ten? then 10 else 16
  }

  /** The numeral of n, most significant digit first. */
  function Numeral(n: nat, base: Base): (s: string)
    ensures s != []
    decreases n
  {
    if Rest(n, base) == 0 then [DigitChar(Last(n, base))]
    else Numeral(Rest(n, base), base) + [DigitChar(Last(n, base))]
  }

  /** Reading a string of digits, by Horner's rule. */
  function Value(s: string, base: Base): nat {
    if s == [] then 0
    else (if base.Ten? then 10 * Value(s[..|s| - 1], base) else 16 * Value(s[..|s| - 1], base)) + DigitValue(s[|s| - 1])
  }

  /** Digits only, and no leading zero unless the numeral is zero itself. */
  predicate CanonicalNumeral(s: string, base: Base) {
    && s != []
    && (forall i :: 0 <= i < |s| ==> IsDigit(s[i], base))
    && (|s| > 1 ==> s[0] != '0')
  }

  lemma {:induction false} NumeralIsCanonical(n: nat, base: Base)
    ensures CanonicalNumeral(Numeral(n, base), base) && Value(Numeral(n, base), base) == n
    ensures n > 0 ==> Numeral(n, base)[0] != '0'
    decreases n
  {
    var s := Numeral(n, base);
    var d := Last(n, base);
    assert DigitValue(DigitChar(d)) == d;
    if Rest(n, base) != 0 {
      NumeralIsCanonical(Rest(n, base), base);
      assert s[..|s| - 1] == Numeral(Rest(n, base), base);
    }
  }

  lemma HornerStep(v: nat, d: nat, base: Base)
    requires d < if base.Ten? then 10 else 16
    ensures var u := (if base.Ten? then 10 * v else 16 * v) + d;
            Rest(u, base) == v && Last(u, base) == d
  {
  }

  /** Canonical numerals are unique: each is the numeral of its value. */
  lemma {:induction false} CanonicalIsNumeral(s: string, base: Base)
    requires CanonicalNumeral(s, base)
    ensures Numeral(Value(s, base), base) == s
    ensures s[0] != '0' ==> Value(s, base) > 0
    decreases |s|
  {
    var n := |s| - 1;
    var d := DigitValue(s[n]);
    assert IsDigit(s[n], base);
    assert DigitChar(d) == s[n];
    if n == 0 {
      assert s[..n] == [];
      assert s == [s[0]];
    } else {
      var p := s[..n];
      assert p[0] == s[0];
      CanonicalIsNumeral(p, base);
      var v := Value(p, base);
      HornerStep(v, d, base);
      assert s == p + [s[n]];
    }
  }

  function Pow(base: Base, k: nat): (p: nat)
    ensures p > 0
  {
    if k == 0 then 1 else if base.Ten? then 10 * Pow(base, k - 1) else 16 * Pow(base, k - 1)
  }

  /** A numeral has at most k digits exactly when the number is below the k-th power of the base. */
  lemma {:induction false} NumeralLength(n: nat, base: Base, k: nat)
    requires k > 0
    ensures |Numeral(n, base)| <= k <==> n < Pow(base, k)
    decreases k
  {
    if k == 1 {
      assert Pow(base, 1) == if base.Ten? then 10 else 16;
    } else if Rest(n, base) != 0 {
      NumeralLength(Rest(n, base), base, k - 1);
    } else {
      assert Pow(base, k) >= Pow(base, 1) by { PowGrows(base, k); }
    }
  }

  lemma {:induction false} PowGrows(base: Base, k: nat)
    requires k > 0
    ensures Pow(base, k) >= Pow(base, 1)
  {
    if k > 1 {
      PowGrows(base, k - 1);
    }
  }

  /** The text of an integer. */
  function Decimal(x: int): (s: string)
    ensures s != []
  {
    if x < 0 then "-" + Numeral(-x, Ten) else Numeral(x, Ten)
  }

  /** An optional minus sign and a canonical numeral, but not minus zero. */
  predicate CanonicalDecimal(s: string) {
    if s != [] && s[0] == '-' then CanonicalNumeral(s[1..], Ten) && s[1] != '0' else CanonicalNumeral(s, Ten)
  }

  function Parse(s: string): int {
    if s != [] && s[0] == '-' then -(Value(s[1..], Ten) as int) else Value(s, Ten) as int
  }

  lemma DecimalRoundTrip(x: int)
    ensures CanonicalDecimal(Decimal(x)) && Parse(Decimal(x)) == x
  {
    var n := if x < 0 then -x else x;
    NumeralIsCanonical(n, Ten);
    assert IsDigit(Numeral(n, Ten)[0], Ten);
    if x < 0 {
      assert Decimal(x)[1..] == Numeral(n, Ten);
    }
  }

  lemma CanonicalDecimalRoundTrip(s: string)
    requires CanonicalDecimal(s)
    ensures Decimal(Parse(s)) == s
  {
    if s[0] == '-' {
      CanonicalIsNumeral(s[1..], Ten);
      assert s == "-" + s[1..];
    } else {
      CanonicalIsNumeral(s, Ten);
    }
  }

  /** A signed or an unsigned 64-bit value. */
  predicate Fits64(x: int) {
    -0x8000_0000_0000_0000 <= x < 0x1_0000_0000_0000_0000
  }

  lemma {:induction false} PowersOfTen()
    ensures Pow(Ten, 19) == 1_0000_0000_0000_0000_000 && Pow(Ten, 20) == 1_0000_0000_0000_0000_0000
    ensures Pow(Sixteen, 16) == 0x1_0000_0000_0000_0000
  {
    assert Pow(Ten, 4) == 10000;
    assert Pow(Ten, 8) == 10000_0000;
    assert Pow(Ten, 12) == 10000_0000_0000;
    assert Pow(Ten, 16) == 10000_0000_0000_0000;
    assert Pow(Sixteen, 4) == 0x1_0000;
    assert Pow(Sixteen, 8) == 0x1_0000_0000;
    assert Pow(Sixteen, 12) == 0x1_0000_0000_0000;
  }

  /** No 64-bit value needs more than 20 characters, nor a pointer more than 16 hexadecimal digits. */
  lemma {:induction false} TextFits(x: int)
    requires Fits64(x)
    ensures |Decimal(x)| <= 20
    ensures x >= 0 ==> |Numeral(x, Sixteen)| <= 16
  {
    PowersOfTen();
    if x < 0 {
      NumeralLength(-x, Ten, 19);
    } else {
      NumeralLength(x, Ten, 20);
      NumeralLength(x, Sixteen, 16);
    }
  }
}
