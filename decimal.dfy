/**
 * Decimal column names: the digit test and integer conversion applied to
 * column names, and the rendering of an integer column id inside a query.
 */
module Decimal {

  predicate IsDigit(c: char) { '0' <= c <= '9' }

  /** A non-empty string made only of ASCII digits. */
  predicate IsDigitString(s: string) {
    |s| > 0 && forall i :: 0 <= i < |s| ==> IsDigit(s[i])
  }

  function DigitValue(c: char): (d: nat)
    requires IsDigit(c)
    ensures d < 10
  {
    c as int - '0' as int
  }

  function DigitChar(d: nat): (c: char)
    requires d < 10
    ensures IsDigit(c) && DigitValue(c) == d
  {
    ('0' as int + d) as char
  }

  /** The integer a digit string denotes; leading zeros are accepted. */
  function Parse(s: string): nat
    requires IsDigitString(s)
    decreases |s|
  {
    if |s| == 1 then DigitValue(s[0])
    else 10 * Parse(s[..|s| - 1]) + DigitValue(s[|s| - 1])
  }

  /** The decimal rendering of a natural number, without leading zeros. */
  function Show(n: nat): (s: string)
    ensures IsDigitString(s)
  {
    if n < 10 then [DigitChar(n)] else Show(n / 10) + [DigitChar(n % 10)]
  }

  /** A digit string as Show produces it: no leading zero unless it is "0". */
  predicate Canonical(s: string) {
    IsDigitString(s) && (|s| == 1 || s[0] != '0')
  }

  /** Reading back a rendered number gives the number. */
  lemma {:induction false} ParseShow(n: nat)
    ensures Parse(Show(n)) == n
  {
    if n >= 10 {
      ParseShow(n / 10);
      var s := Show(n);
      assert s[..|s| - 1] == Show(n / 10);
    }
  }

  lemma {:induction false} ShowIsCanonical(n: nat)
    ensures Canonical(Show(n))
  {
    if n >= 10 {
      ShowIsCanonical(n / 10);
      assert Show(n)[0] == Show(n / 10)[0];
      if n / 10 < 10 {
        assert Show(n / 10) == [DigitChar(n / 10)];
      }
    }
  }

  /** A digit string without a leading zero denotes a positive number. */
  lemma {:induction false} ParsePositive(s: string)
    requires IsDigitString(s) && s[0] != '0'
    ensures Parse(s) >= 1
  {
    if |s| > 1 {
      ParsePositive(s[..|s| - 1]);
    }
  }

  /** Rendering a parsed canonical string gives the string back. */
  lemma {:induction false} ShowParse(s: string)
    requires Canonical(s)
    ensures Show(Parse(s)) == s
  {
    if |s| == 1 {
      assert DigitChar(DigitValue(s[0])) == s[0];
    } else {
      var p := s[..|s| - 1];
      ParsePositive(p);
      ShowParse(p);
      var n := Parse(s);
      assert n / 10 == Parse(p) && n % 10 == DigitValue(s[|s| - 1]);
      assert DigitChar(DigitValue(s[|s| - 1])) == s[|s| - 1];
      assert s == p + [s[|s| - 1]];
    }
  }
}
