/**
 * Decimal text of non-negative integers, as JavaScript's `String(n)` and
 * template-string interpolation print them (no sign, no padding), and the
 * civil-date triple from which every date key of the application is built.
 */
module DateText {

  /** A calendar day as JavaScript's `Date` getters report it:
      `getFullYear()`, `getMonth()` (0-based) and `getDate()`. */
  datatype CivilDate = CivilDate(year: nat, month0: nat, day: nat)

  predicate ValidDate(d: CivilDate) {
    d.month0 < 12 && 1 <= d.day <= 31
  }

  predicate IsDigit(c: char) {
    '0' <= c <= '9'
  }

  predicate AllDigits(s: string) {
    forall i :: 0 <= i < |s| ==> IsDigit(s[i])
  }

  function DigitValue(c: char): nat
    requires IsDigit(c)
  {
    c as int - '0' as int
  }

  function DigitChar(d: nat): (c: char)
    requires d < 10
    ensures IsDigit(c) && DigitValue(c) == d
  {
    ('0' as int + d) as char
  }

  /** Reads a string of decimal digits back as a number. */
  function ParseDecimal(s: string): nat
    requires AllDigits(s)
  {
    if s == [] then 0 else ParseDecimal(s[..|s| - 1]) * 10 + DigitValue(s[|s| - 1])
  }

  /** The decimal text of `n`: at least one digit, no leading zero, and it
      reads back as `n`. */
  function DecimalString(n: nat): (s: string)
    ensures 1 <= |s| && AllDigits(s)
    ensures |s| == 1 <==> n < 10
    ensures s[0] == '0' ==> n == 0
    ensures ParseDecimal(s) == n
  {
    if n < 10 then [DigitChar(n)]
    else
      var front := DecimalString(n / 10);
      var s := front + [DigitChar(n % 10)];
      assert s[..|s| - 1] == front;
      s
  }

  lemma DecimalStringInjective(m: nat, n: nat)
    ensures DecimalString(m) == DecimalString(n) ==> m == n
  {
  }

  lemma {:induction false} DecimalLengthTwo(n: nat)
    requires 10 <= n < 100
    ensures |DecimalString(n)| == 2
  {
    assert DecimalString(n) == DecimalString(n / 10) + [DigitChar(n % 10)];
  }

  lemma {:induction false} DecimalLengthFour(n: nat)
    requires 1000 <= n < 10000
    ensures |DecimalString(n)| == 4
  {
    assert DecimalString(n) == DecimalString(n / 10) + [DigitChar(n % 10)];
    assert DecimalString(n / 10) == DecimalString(n / 100) + [DigitChar((n / 10) % 10)];
    assert DecimalString(n / 100) == DecimalString(n / 1000) + [DigitChar((n / 100) % 10)];
  }

  /** A leading `'0'` does not change the value a digit string reads as. */
  lemma {:induction false} ParseLeadingZero(s: string)
    requires AllDigits(s)
    ensures AllDigits("0" + s) && ParseDecimal("0" + s) == ParseDecimal(s)
  {
    var t := "0" + s;
    if s != [] {
      assert t[..|t| - 1] == "0" + s[..|s| - 1];
      ParseLeadingZero(s[..|s| - 1]);
    }
  }

  /** Two strings of the form `x + [sep] + r` whose leading fields contain no
      `sep` are equal only when their fields are. */
  lemma SplitAtSeparator(x1: string, r1: string, x2: string, r2: string, sep: char)
    requires sep !in x1 && sep !in x2
    requires x1 + [sep] + r1 == x2 + [sep] + r2
    ensures x1 == x2 && r1 == r2
  {
    var k := x1 + [sep] + r1;
    if |x1| < |x2| {
      SeparatorAt(x1, r1, sep, |x1|);
      SeparatorAt(x2, r2, sep, |x1|);
      assert false;
    } else if |x2| < |x1| {
      SeparatorAt(x1, r1, sep, |x2|);
      SeparatorAt(x2, r2, sep, |x2|);
      assert false;
    }
    assert x1 == k[..|x1|] == x2;
    assert r1 == k[|x1| + 1..] == r2;
  }

  lemma SeparatorAt(x: string, r: string, sep: char, i: int)
    ensures 0 <= i < |x| ==> (x + [sep] + r)[i] == x[i] && x[i] in x
    ensures i == |x| ==> (x + [sep] + r)[i] == sep
  {
  }

  lemma DigitsHaveNoSeparator(s: string, sep: char)
    requires AllDigits(s) && !IsDigit(sep)
    ensures sep !in s
  {
  }
}
