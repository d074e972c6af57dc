/** The size bound for a printed integer: three decimal digits for every nine bits, and two characters more. */
module StrMaxChars {

  /** Room for the text of an `n`-byte integer and its terminator. */
  function StrMaxChars(n: nat): nat {
    (n * 8 + 8) / 9 * 3 + 2
  }

  function Digit(d: nat): char
    requires d < 16
  {
    if d < 10 then '0' + d as char else 'a' + (d - 10) as char
  }

  function Render(v: nat, base: nat): (s: string)
    requires 2 <= base <= 16
    ensures s != ""
  {
    if v < base then [Digit(v)] else Render(v / base, base) + [Digit(v % base)]
  }

  function Decimal(v: int): string {
    if v < 0 then "-" + Render(-v, 10) else Render(v, 10)
  }

  function Hexadecimal(v: nat): string {
    "0x" + Render(v, 16)
  }

  function Octal(v: nat): string {
    "0" + Render(v, 8)
  }

  function Pow(base: nat, e: nat): nat {
    if e == 0 then 1 else base * Pow(base, e - 1)
  }

  /** What a digit stands for. */
  function DigitValue(c: char): nat {
    if '0' <= c <= '9' then c as int - '0' as int
    else if 'a' <= c <= 'f' then c as int - 'a' as int + 10
    else 0
  }

  function ReadBack(s: string, base: nat): nat {
    if s == "" then 0 else base * ReadBack(s[..|s| - 1], base) + DigitValue(s[|s| - 1])
  }

  /** The text of a number is made of digits of its base, reads back as the number, and has no zero in
      front. */
  lemma {:induction false} RenderReadsBack(v: nat, base: nat)
    requires 2 <= base <= 16
    ensures ReadBack(Render(v, base), base) == v
    ensures forall i :: 0 <= i < |Render(v, base)| ==> DigitValue(Render(v, base)[i]) < base
    ensures v > 0 ==> Render(v, base)[0] != '0'
  {
    RenderEnds(v, base);
    DigitOf(v % base);
    hide Render, Digit, DigitValue, ReadBack;
    if v < base {
      ReadBackGrows("", Digit(v), base);
      EmptyReadsZero(base);
      assert "" + [Digit(v)] == [Digit(v)];
    } else {
      RenderReadsBack(v / base, base);
      ReadBackGrows(Render(v / base, base), Digit(v % base), base);
    }
  }

  lemma RenderEnds(v: nat, base: nat)
    requires 2 <= base <= 16
    ensures v < base ==> Render(v, base) == [Digit(v)] && v % base == v
    ensures v >= base ==> Render(v, base) == Render(v / base, base) + [Digit(v % base)] && 0 < v / base < v
    ensures v == base * (v / base) + v % base
  {
    Quotient(v, base);
  }

  lemma Quotient(v: nat, base: nat)
    requires base >= 2
    ensures v == base * (v / base) + v % base && 0 <= v % base < base
    ensures v < base ==> v % base == v
    ensures v >= base ==> 0 < v / base < v
  {
    var q := v / base;
    if v >= base {
      assert q > 0;
      TimesGrows(q, 2, base);
    }
  }

  lemma EmptyReadsZero(base: nat)
    ensures ReadBack("", base) == 0
  {
  }

  lemma DigitOf(d: nat)
    requires d < 16
    ensures DigitValue(Digit(d)) == d && (d > 0 ==> Digit(d) != '0')
  {
  }

  lemma ReadBackGrows(s: string, c: char, base: nat)
    ensures ReadBack(s + [c], base) == base * ReadBack(s, base) + DigitValue(c)
  {
    assert (s + [c])[..|s|] == s;
  }

  lemma TimesGrows(base: nat, a: nat, b: nat)
    requires a <= b
    ensures base * a <= base * b
  {
  }

  lemma QuotientBelow(v: nat, base: nat, bound: nat)
    requires base > 0 && v < base * bound
    ensures v / base < bound
  {
    if v / base >= bound {
      TimesGrows(base, bound, v / base);
      assert false;
    }
  }

  lemma {:induction false} RenderLength(v: nat, base: nat, k: nat)
    requires 2 <= base <= 16 && k > 0 && v < Pow(base, k)
    ensures |Render(v, base)| <= k
    decreases k
  {
    if v >= base {
      QuotientBelow(v, base, Pow(base, k - 1));
      RenderLength(v / base, base, k - 1);
    }
  }

  lemma {:induction false} Pow2Monotone(e: nat, f: nat)
    requires e <= f
    ensures 0 < Pow(2, e) <= Pow(2, f)
    decreases f
  {
    if e < f {
      Pow2Monotone(e, f - 1);
    } else if e > 0 {
      Pow2Monotone(e - 1, f - 1);
    }
  }

  lemma Pow3(base: nat, e: nat)
    ensures Pow(base, e + 3) == base * (base * (base * Pow(base, e)))
  {
    assert Pow(base, e + 1) == base * Pow(base, e);
    assert Pow(base, e + 2) == base * Pow(base, e + 1);
  }

  /** Nine bits are fewer than a thousand values, and exactly three octal digits. */
  lemma {:induction false} NineBits(m: nat)
    ensures Pow(2, 9 * m) <= Pow(10, 3 * m)
    ensures Pow(2, 9 * m) == Pow(8, 3 * m)
  {
    if m > 0 {
      NineBits(m - 1);
      var e, d := 9 * (m - 1), 3 * (m - 1);
      Pow3(2, e);
      Pow3(2, e + 3);
      Pow3(2, e + 6);
      assert Pow(2, 9 * m) == 512 * Pow(2, e);
      Pow3(10, d);
      Pow3(8, d);
      assert 3 * m == d + 3;
    }
  }

  lemma {:induction false} FourBits(m: nat)
    ensures Pow(2, 4 * m) == Pow(16, m)
  {
    if m > 0 {
      FourBits(m - 1);
      var e := 4 * (m - 1);
      Pow3(2, e);
      assert Pow(2, e + 4) == 2 * Pow(2, e + 3);
    }
  }

  /** A value of some `n`-byte integer type, signed or unsigned. */
  ghost predicate SignedOrUnsigned(n: nat, v: int)
    requires n >= 1
  {
    0 - Pow(2, 8 * n - 1) <= v < Pow(2, 8 * n)
  }

  lemma ValueFits(n: nat, v: nat)
    requires n >= 1 && v < Pow(2, 8 * n)
    ensures var m := (n * 8 + 8) / 9;
      m > 0 && v < Pow(10, 3 * m) && v < Pow(8, 3 * m) && v < Pow(16, 2 * n)
  {
    var m := (n * 8 + 8) / 9;
    Pow2Monotone(8 * n, 9 * m);
    NineBits(m);
    FourBits(2 * n);
  }

  /** Signed decimal, 0x-prefixed hexadecimal and 0-prefixed octal all fit, with the terminator. */
  lemma PrintedValueFits(n: nat, v: int)
    requires n >= 1
    ensures SignedOrUnsigned(n, v) ==> |Decimal(v)| + 1 <= StrMaxChars(n)
    ensures 0 <= v < Pow(2, 8 * n) ==> |Hexadecimal(v)| + 1 <= StrMaxChars(n)
    ensures 0 <= v < Pow(2, 8 * n) ==> |Octal(v)| + 1 <= StrMaxChars(n)
  {
    if SignedOrUnsigned(n, v) {
      var m := (n * 8 + 8) / 9;
      var magnitude := if v < 0 then -v else v;
      Pow2Monotone(8 * n - 1, 8 * n);
      assert Pow(2, 8 * n) == 2 * Pow(2, 8 * n - 1);
      ValueFits(n, magnitude);
      RenderLength(magnitude, 10, 3 * m);
      RenderLength(magnitude, 8, 3 * m);
      RenderLength(magnitude, 16, 2 * n);
      assert 2 * n + 1 <= 3 * m;
    }
  }

  /** No smaller bound will do for one byte or two: some value takes all the room. */
  lemma BoundIsTight()
    ensures |Decimal(-128)| + 1 == StrMaxChars(1) && |Hexadecimal(255)| + 1 == StrMaxChars(1)
    ensures |Octal(65535)| + 1 == StrMaxChars(2)
  {
    assert |Render(1, 10)| == 1 && |Render(12, 10)| == 2 && |Render(128, 10)| == 3;
    assert |Render(15, 16)| == 1 && |Render(255, 16)| == 2;
    assert |Render(1, 8)| == 1 && |Render(15, 8)| == 2 && |Render(127, 8)| == 3;
    assert |Render(1023, 8)| == 4 && |Render(8191, 8)| == 5 && |Render(65535, 8)| == 6;
  }
}
