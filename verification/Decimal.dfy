/** Decimal notation: what `format!("{n}")` prints, and what reading it back gives. */
module Decimal {

  predicate IsDigit(c: char) {
    '0' <= c <= '9'
  }

  predicate AllDigits(s: string) {
    forall k :: 0 <= k < |s| ==> IsDigit(s[k])
  }

  function DigitValue(c: char): nat
    requires IsDigit(c)
  {
    c as int - '0' as int
  }

  function DigitChar(d: nat): char
    requires d < 10
  {
    ('0' as int + d) as char
  }

  lemma DigitsInOrder(d: nat)
    requires d < 10
    ensures DigitChar(d) == "0123456789"[d] && DigitValue("0123456789"[d]) == d
  {
  }

  function Print(n: nat): (s: string)
    ensures s != "" && AllDigits(s)
  {
    if n < 10 then [DigitChar(n)] else Print(n / 10) + [DigitChar(n % 10)]
  }

  function Value(s: string): nat
    requires AllDigits(s)
  {
    if s == "" then 0 else 10 * Value(s[..|s| - 1]) + DigitValue(s[|s| - 1])
  }

  /** At least one digit and no superfluous leading zero. */
  predicate Canonical(s: string) {
    s != "" && AllDigits(s) && (|s| > 1 ==> s[0] != '0')
  }

  lemma {:induction false} ValueOfPrint(n: nat)
    ensures Canonical(Print(n)) && Value(Print(n)) == n
    ensures n > 0 ==> Print(n)[0] != '0'
  {
    if n >= 10 {
      ValueOfPrint(n / 10);
      assert Print(n)[..|Print(n)| - 1] == Print(n / 10);
    }
  }

  lemma {:induction false} CanonicalIsPositive(s: string)
    requires AllDigits(s) && s != "" && s[0] != '0'
    ensures Value(s) > 0
  {
    if |s| > 1 {
      CanonicalIsPositive(s[..|s| - 1]);
    }
  }

  /** A canonical numeral is the printed form of its value, so notation is unique. */
  lemma {:induction false} PrintOfValue(s: string)
    requires Canonical(s)
    ensures Print(Value(s)) == s
  {
    if |s| > 1 {
      var init := s[..|s| - 1];
      CanonicalIsPositive(init);
      PrintOfValue(init);
      assert s == init + [s[|s| - 1]];
    } else {
      assert s[..|s| - 1] == "";
      assert s == [s[0]];
    }
  }

  lemma PrintInjective(a: nat, b: nat)
    requires Print(a) == Print(b)
    ensures a == b
  {
    ValueOfPrint(a);
    ValueOfPrint(b);
  }

  /** The first position from `i` on that holds no ASCII digit. */
  function DigitsEnd(b: string, i: nat): (e: nat)
    requires i <= |b|
    ensures i <= e <= |b| && AllDigits(b[i..e])
    ensures e < |b| ==> !IsDigit(b[e])
    decreases |b| - i
  {
    if i < |b| && IsDigit(b[i]) then
      var e := DigitsEnd(b, i + 1);
      assert b[i..e] == [b[i]] + b[i + 1..e];
      e
    else i
  }

  lemma {:induction false} DigitsEndIs(b: string, i: nat, e: nat)
    requires i <= e <= |b| && AllDigits(b[i..e]) && (e < |b| ==> !IsDigit(b[e]))
    ensures DigitsEnd(b, i) == e
    decreases e - i
  {
    if i < e {
      assert b[i] == b[i..e][0];
      assert b[i + 1..e] == b[i..e][1..];
      DigitsEndIs(b, i + 1, e);
    }
  }
}
