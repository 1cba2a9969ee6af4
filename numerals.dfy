/** The numeric values the symbol-table builder stores for literal lexemes: `int(token)`
    on a string of ASCII digits, and, in place of the binary floating-point `float(token)`,
    the exact decimal value of a `\d+\.\d+` lexeme as a mantissa and a scale. */
module Numerals {
  import opened Lexer

  function DigitValue(c: char): (d: nat)
    requires IsDigit(c)
    ensures d < 10
  {
    (c as int) - ('0' as int)
  }

  function DigitChar(d: nat): (c: char)
    requires d < 10
    ensures IsDigit(c) && DigitValue(c) == d
  {
    ('0' as int + d) as char
  }

  function Pow10(n: nat): (r: nat)
    ensures r >= 1
  {
    if n == 0 then 1 else 10 * Pow10(n - 1)
  }

  /** `int(s)` for a string of digits, read from the left. */
  function ParseNat(s: string): (n: nat)
    requires AllDigits(s)
    decreases |s|
  {
    if s == [] then 0 else ParseNat(s[..|s| - 1]) * 10 + DigitValue(s[|s| - 1])
  }

  /** The decimal digits of `n`, without leading zeros. */
  function ShowNat(n: nat): (s: string)
    ensures IsIntegerLexeme(s)
    decreases n
  {
    if n < 10 then [DigitChar(n)]
    else
      var s := ShowNat(n / 10) + [DigitChar(n % 10)];
      assert forall i :: 0 <= i < |s| - 1 ==> s[i] == ShowNat(n / 10)[i];
      s
  }

  /** Reading back the digits of a number gives the number. */
  lemma {:induction false} ParseShowNat(n: nat)
    ensures ParseNat(ShowNat(n)) == n
    decreases n
  {
    if n >= 10 {
      var s := ShowNat(n);
      assert s[..|s| - 1] == ShowNat(n / 10);
      ParseShowNat(n / 10);
    }
  }

  lemma AllDigitsConcat(a: string, b: string)
    requires AllDigits(a) && AllDigits(b)
    ensures AllDigits(a + b)
  {
    forall i | 0 <= i < |a + b| ensures IsDigit((a + b)[i]) {
      if i < |a| { assert (a + b)[i] == a[i]; } else { assert (a + b)[i] == b[i - |a|]; }
    }
  }

  lemma ShiftStep(x: nat, y: nat, p: nat, d: nat)
    ensures (x * p + y) * 10 + d == x * (10 * p) + (y * 10 + d)
  {
  }

  /** Digits written after others shift them by a power of ten. */
  lemma {:induction false} ParseNatAppend(a: string, b: string)
    requires AllDigits(a) && AllDigits(b)
    ensures AllDigits(a + b)
    ensures ParseNat(a + b) == ParseNat(a) * Pow10(|b|) + ParseNat(b)
    decreases |b|
  {
    AllDigitsConcat(a, b);
    if b == [] {
      assert a + b == a;
    } else {
      var b' := b[..|b| - 1];
      var c := b[|b| - 1];
      assert a + b == (a + b') + [c];
      ParseNatAppend(a, b');
      assert ParseNat(a + b) == ParseNat(a + b') * 10 + DigitValue(c) by {
        assert (a + b)[..|a + b| - 1] == a + b';
      }
      ShiftStep(ParseNat(a), ParseNat(b'), Pow10(|b'|), DigitValue(c));
    }
  }

  /** The value `mantissa / 10^scale`. */
  datatype Decimal = Decimal(mantissa: nat, scale: nat)

  /** Position of the dot of a float lexeme: the end of its leading digit run. */
  lemma FloatDot(s: string)
    requires IsFloatLexeme(s)
    ensures 0 < DigitRunEnd(s, 0) < |s| - 1 && s[DigitRunEnd(s, 0)] == '.'
    ensures AllDigits(s[..DigitRunEnd(s, 0)]) && AllDigits(s[DigitRunEnd(s, 0) + 1..])
  {
    var k :| 0 < k < |s| - 1 && s[k] == '.' && AllDigits(s[..k]) && AllDigits(s[k + 1..]);
    assert s[0..k] == s[..k];
    DigitRunEndAt(s, 0, k);
  }

  /** The exact value of a float lexeme: its digits without the dot, scaled by the
      number of digits after the dot. */
  function ParseDecimal(s: string): (d: Decimal)
    requires IsFloatLexeme(s)
  {
    FloatDot(s);
    var k := DigitRunEnd(s, 0);
    ParseNatAppend(s[..k], s[k + 1..]);
    Decimal(ParseNat(s[..k] + s[k + 1..]), |s| - k - 1)
  }

  /** `a.b` denotes `a + b / 10^|b|`. */
  lemma DecimalParts(a: string, b: string)
    requires IsIntegerLexeme(a) && IsIntegerLexeme(b)
    ensures IsFloatLexeme(a + "." + b)
    ensures ParseDecimal(a + "." + b) == Decimal(ParseNat(a) * Pow10(|b|) + ParseNat(b), |b|)
  {
    var s := a + "." + b;
    var k := |a|;
    assert s[..k] == a;
    assert s[k + 1..] == b;
    assert s[k] == '.';
    assert IsFloatLexeme(s);
    FloatDot(s);
    DigitRunEndAt(s, 0, k);
    ParseNatAppend(a, b);
  }
}
