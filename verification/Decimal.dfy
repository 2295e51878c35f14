/** Decimal numerals, as std::to_string and printf's %d and %02d write them. */
module Decimal {

  predicate IsDigit(c: char) { '0' <= c <= '9' }

  function Digit(d: nat): (c: char)
    requires d < 10
    ensures IsDigit(c) && DigitValue(c) == d
  {
    ('0' as int + d) as char
  }

  function DigitValue(c: char): (d: nat)
    requires IsDigit(c)
    ensures d < 10
  {
    c as int - '0' as int
  }

  ghost predicate IsNumeral(s: string) {
    forall i :: 0 <= i < |s| ==> IsDigit(s[i])
  }

  function Dec(n: nat): (s: string)
    ensures s != [] && IsNumeral(s) && Value(s) == n
  {
    if n < 10 then [Digit(n)]
    else
      ValueOfSnoc(Dec(n / 10), Digit(n % 10));
      Dec(n / 10) + [Digit(n % 10)]
  }

  function Dec2(n: nat): (s: string)
    ensures s != [] && IsNumeral(s) && Value(s) == n
    ensures n < 100 ==> |s| == 2
  {
    if n < 10 then
      ValueOfSnoc([Digit(0)], Digit(n));
      [Digit(0)] + [Digit(n)]
    else
      TwoDigits(n);
      Dec(n)
  }

  lemma ValueOfSnoc(s: string, c: char)
    requires IsNumeral(s) && IsDigit(c)
    ensures IsNumeral(s + [c]) && Value(s + [c]) == 10 * Value(s) + DigitValue(c)
  {
    assert (s + [c])[..|s|] == s;
  }

  lemma TwoDigits(n: nat)
    requires 10 <= n
    ensures n < 100 ==> |Dec(n)| == 2
  {
  }

  function Value(s: string): nat
    requires IsNumeral(s)
  {
    if s == [] then 0 else 10 * Value(s[..|s| - 1]) + DigitValue(s[|s| - 1])
  }

  /** Different numbers have different numerals. */
  lemma DecInjective(m: nat, n: nat)
    requires Dec(m) == Dec(n)
    ensures m == n
  {
    assert Value(Dec(m)) == Value(Dec(n));
  }

  /** Two more digits. */
  lemma ValueOfPair(s: string, t: string)
    requires IsNumeral(s) && IsNumeral(t) && |t| == 2
    ensures IsNumeral(s + t) && Value(s + t) == 100 * Value(s) + Value(t)
  {
    var c, d := t[0], t[1];
    TwoMore(s, c, d);
    TwoMore([], c, d);
    assert t == [] + [c] + [d] && s + t == s + [c] + [d];
  }

  lemma TwoMore(s: string, c: char, d: char)
    requires IsNumeral(s) && IsDigit(c) && IsDigit(d)
    ensures IsNumeral(s + [c] + [d]) && Value(s + [c] + [d]) == 100 * Value(s) + 10 * DigitValue(c) + DigitValue(d)
  {
    ValueOfSnoc(s, c);
    ValueOfSnoc(s + [c], d);
  }

  /** Each digit counts ten times what follows it. */
  lemma ValueInNumbers(s: string, c: char)
    requires IsNumeral(s) && '0' <= c <= '9'
    ensures IsNumeral(s + [c]) && Value([]) == 0 && Value(s + [c]) == 10 * Value(s) + (c as int - 48)
  {
    ValueOfSnoc(s, c);
  }

  lemma {:induction false} NoLeadingZero(n: nat)
    ensures |Dec(n)| == 1 || Dec(n)[0] != '0'
    ensures n > 0 ==> Dec(n)[0] != '0'
  {
    if n >= 10 {
      NoLeadingZero(n / 10);
    }
  }

  lemma {:induction false} PositiveValue(s: string)
    requires IsNumeral(s) && s != [] && s[0] != '0'
    ensures Value(s) > 0
  {
    if |s| > 1 {
      PositiveValue(s[..|s| - 1]);
    }
  }

  /** The numeral of a number is the only one of its value that has no leading zero. */
  lemma {:induction false} OnlyNumeral(s: string)
    requires IsNumeral(s) && s != [] && (|s| == 1 || s[0] != '0')
    ensures Dec(Value(s)) == s
  {
    var front, c := s[..|s| - 1], s[|s| - 1];
    assert s == front + [c];
    ValueOfSnoc(front, c);
    if front != [] {
      PositiveValue(front);
      OnlyNumeral(front);
    }
  }

  /** Below one hundred, two digits are printed, the first a zero if need be. */
  lemma TwoDigitNumeral(n: nat)
    requires n < 100
    ensures |Dec2(n)| == 2 && 10 * (Dec2(n)[0] as int - 48) + (Dec2(n)[1] as int - 48) == n
    ensures Dec2(n) == if n < 10 then "0" + Dec(n) else Dec(n)
  {
    var s := Dec2(n);
    assert s == [] + [s[0]] + [s[1]];
    TwoMore([], s[0], s[1]);
  }
}
