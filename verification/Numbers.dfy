/** Decimal numbers as text. */
module Numbers {
  import opened Text
  import opened Wrappers

  predicate IsDigit(c: char) {
    '0' <= c <= '9'
  }

  function DigitRun(s: string): (n: nat)
    ensures n <= |s| && (forall i | 0 <= i < n :: IsDigit(s[i])) && (n < |s| ==> !IsDigit(s[n]))
  {
    if s == "" || !IsDigit(s[0]) then 0 else 1 + DigitRun(s[1..])
  }

  function Digit(d: nat): (c: char)
    requires d < 10
    ensures IsDigit(c) && DigitValue(c) == d
  {
    '0' + d as char
  }

  function Decimal(n: nat): (s: string)
    ensures s != "" && DigitRun(s) == |s|
  {
    if n < 10 then [Digit(n)]
    else
      var high := Decimal(n / 10);
      DigitsAppend(high, Digit(n % 10));
      high + [Digit(n % 10)]
  }

  function DigitValue(c: char): nat
    requires IsDigit(c)
  {
    c as int - '0' as int
  }

  function Value(digits: string): nat
    requires forall i | 0 <= i < |digits| :: IsDigit(digits[i])
  {
    if digits == "" then 0
    else 10 * Value(digits[..|digits| - 1]) + DigitValue(digits[|digits| - 1])
  }

  /** How a number is written in a template string. */
  function IntText(n: int): string {
    if n < 0 then "-" + Decimal(-n) else Decimal(n)
  }

  /** `Number.parseInt(s, 10)`; None for NaN. */
  function ParseInt(s: string): Option<int> {
    var t := TrimStart(s);
    var signed := t != "" && (t[0] == '-' || t[0] == '+');
    var digits := if signed then t[1..] else t;
    var n := DigitRun(digits);
    if n == 0 then None
    else
      var v: int := Value(digits[..n]);
      Some(if signed && t[0] == '-' then -v else v)
  }

  lemma {:induction false} DigitsAppend(s: string, c: char)
    requires DigitRun(s) == |s| && IsDigit(c)
    ensures DigitRun(s + [c]) == |s| + 1
  {
    if s != "" {
      DigitsAppend(s[1..], c);
      assert (s + [c])[1..] == s[1..] + [c];
    }
  }

  lemma {:induction false} ValueOfDecimal(n: nat)
    ensures Value(Decimal(n)) == n
  {
    if n >= 10 {
      var s := Decimal(n);
      assert s[..|s| - 1] == Decimal(n / 10);
      ValueOfDecimal(n / 10);
    } else {
      assert Decimal(n)[..0] == "";
    }
  }

  /** What is written down is read back. */
  lemma ParseIntText(n: int)
    ensures ParseInt(IntText(n)) == Some(n)
  {
    hide Decimal, Value;
    var digits := Decimal(if n < 0 then -n else n);
    ValueOfDecimal(if n < 0 then -n else n);
    assert digits[..|digits|] == digits;
    assert IsDigit(digits[0]);
    var s := IntText(n);
    assert LeadingSpaces(s) == 0;
    if n < 0 {
      assert s[1..] == digits;
    }
  }

  lemma NumberHasNo(n: int, c: char)
    requires !IsDigit(c) && c != '-'
    ensures c !in IntText(n)
  {
    var digits := Decimal(if n < 0 then -n else n);
    assert forall i | 0 <= i < |digits| :: IsDigit(digits[i]);
  }
}
