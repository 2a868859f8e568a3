/**
 * Digit strings and their values: the integer values of the digit strings
 * that `float(int(text, 16))`, `float(int(text, 2))` and `float(text)` convert
 * in the lexer's literal rules (lexer.py:30-51), kept exact rather than as
 * floats (the README's "Left out" says what that leaves aside), and the
 * decimal rendering that Python's `str` gives an integer in the parser's
 * messages. Digits are the ASCII characters 0-9 and the upper-case letters A-F.
 */
module Numerals {

  predicate IsDecimalDigit(c: char) { '0' <= c <= '9' }

  predicate IsBinaryDigit(c: char) { c == '0' || c == '1' }

  /** Only upper-case letters: `[0-9A-F]` in the hexadecimal rule. */
  predicate IsHexDigit(c: char) { '0' <= c <= '9' || 'A' <= c <= 'F' }

  /** The value of a digit character; a character that is no digit is never read, and counts as 0. */
  function DigitValue(c: char): (d: nat)
    ensures d < 16
    ensures IsHexDigit(c) ==> (IsDecimalDigit(c) <==> d < 10)
    ensures IsHexDigit(c) ==> (IsBinaryDigit(c) <==> d < 2)
  {
    if '0' <= c <= '9' then c as int - '0' as int
    else if 'A' <= c <= 'F' then c as int - 'A' as int + 10
    else 0
  }

  function DigitChar(d: nat): (c: char)
    requires d < 16
    ensures IsHexDigit(c) && DigitValue(c) == d
  {
    if d < 10 then ('0' as int + d) as char else ('A' as int + d - 10) as char
  }

  lemma DigitCharOfValue(c: char)
    requires IsHexDigit(c)
    ensures DigitChar(DigitValue(c)) == c
  {
  }

  /** Every character of `s` is a digit of the given base. */
  predicate AllDigits(base: nat, s: string)
  {
    forall i :: 0 <= i < |s| ==> IsHexDigit(s[i]) && DigitValue(s[i]) < base
  }

  /** The value of a digit string read most significant digit first: the integer `int(s, base)` gives. */
  function ValueOf(base: nat, s: string): nat
    decreases |s|
  {
    if s == [] then 0 else ValueOf(base, s[..|s| - 1]) * base + DigitValue(s[|s| - 1])
  }

  /** The canonical numeral of `n` in the given base: no leading zero except for 0 itself. */
  function Numeral(base: nat, n: nat): (s: string)
    requires 2 <= base <= 16
    ensures |s| >= 1 && AllDigits(base, s)
    ensures s[0] == '0' <==> n == 0
    ensures n == 0 ==> s == "0"
    decreases n
  {
    if n < base then [DigitChar(n)]
    else
      QuotientSmaller(n, base);
      Numeral(base, n / base) + [DigitChar(n % base)]
  }

  /** A digit string with no leading zero, unless it is the single digit 0. */
  predicate Canonical(base: nat, s: string)
  {
    |s| >= 1 && AllDigits(base, s) && (s[0] == '0' ==> |s| == 1)
  }

  /** Reading a numeral back gives the number it was written from. */
  lemma {:induction false} ValueOfNumeral(base: nat, n: nat)
    requires 2 <= base <= 16
    ensures ValueOf(base, Numeral(base, n)) == n
    decreases n
  {
    var s := Numeral(base, n);
    if n >= base {
      var q, r := n / base, n % base;
      QuotientSmaller(n, base);
      ValueOfNumeral(base, q);
      assert s[..|s| - 1] == Numeral(base, q);
      assert s[|s| - 1] == DigitChar(r);
      assert ValueOf(base, s) == q * base + r;
    }
  }

  lemma DivModOfDigit(base: nat, q: nat, d: nat)
    requires 2 <= base && d < base
    ensures (q * base + d) / base == q && (q * base + d) % base == d
  {
    var n := q * base + d;
    var q', d' := n / base, n % base;
    assert n == q' * base + d' && 0 <= d' < base;
    if q' < q {
      assert (q - q') * base == q * base - q' * base;
      MulAtLeast(q - q', base);
    } else if q < q' {
      assert (q' - q) * base == q' * base - q * base;
      MulAtLeast(q' - q, base);
    }
  }

  lemma QuotientSmaller(n: nat, base: nat)
    requires 2 <= base <= n
    ensures 1 <= n / base < n
    ensures n == (n / base) * base + n % base
  {
    var q, r := n / base, n % base;
    assert n == q * base + r;
    ProductNonNegative(q, base - 2);
    assert q * base == q * (base - 2) + 2 * q;
  }

  lemma ProductNonNegative(a: nat, b: nat)
    ensures a * b >= 0
  {
  }

  lemma MulAtLeast(k: int, b: nat)
    requires k >= 1
    ensures k * b >= b
  {
  }

  /** Dropping the last digit keeps a digit string. */
  lemma FrontDigits(base: nat, s: string)
    requires AllDigits(base, s) && |s| >= 1
    ensures AllDigits(base, s[..|s| - 1])
    ensures ValueOf(base, s) == ValueOf(base, s[..|s| - 1]) * base + DigitValue(s[|s| - 1])
  {
  }

  /** A string whose first digit is not 0 has a positive value. */
  lemma {:induction false} LeadingDigitPositive(base: nat, s: string)
    requires AllDigits(base, s) && |s| >= 1 && s[0] != '0'
    ensures ValueOf(base, s) >= 1
    decreases |s|
  {
    var front := s[..|s| - 1];
    FrontDigits(base, s);
    if |s| > 1 {
      assert front[0] == s[0];
      LeadingDigitPositive(base, front);
      MulAtLeast(ValueOf(base, front), base);
    } else {
      assert ValueOf(base, front) == 0;
      assert DigitValue(s[0]) != 0;
    }
  }

  /** Writing out the value of a canonical digit string gives the string back. */
  lemma {:induction false} NumeralOfValue(base: nat, s: string)
    requires 2 <= base <= 16
    requires Canonical(base, s)
    ensures Numeral(base, ValueOf(base, s)) == s
    decreases |s|
  {
    var c := s[|s| - 1];
    DigitCharOfValue(c);
    FrontDigits(base, s);
    if |s| > 1 {
      var front := s[..|s| - 1];
      assert front[0] == s[0];
      assert Canonical(base, front);
      LeadingDigitPositive(base, front);
      NumeralOfValue(base, front);
      var q, d := ValueOf(base, front), DigitValue(c);
      NumeralStep(base, q, d);
      assert s == front + [c];
    } else {
      assert ValueOf(base, s[..0]) == 0;
    }
  }

  /** The numeral of `q * base + d`, for a positive `q` and a digit `d`, is the numeral of `q` followed by `d`. */
  lemma NumeralStep(base: nat, q: nat, d: nat)
    requires 2 <= base <= 16 && q >= 1 && d < base
    ensures Numeral(base, q * base + d) == Numeral(base, q) + [DigitChar(d)]
  {
    DivModOfDigit(base, q, d);
    MulAtLeast(q, base);
  }
}
