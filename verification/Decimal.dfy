/** Decimal numerals: the canonical sequences of the launch envelope and the
    sizes the sidecar prints. */
module Decimal {

  predicate IsDigit(c: char) { '0' <= c <= '9' }

  function Digit(n: nat): char
    requires n < 10
  {
    ('0' as int + n) as char
  }

  function DigitValue(c: char): (d: nat)
    requires IsDigit(c)
    ensures d < 10 && Digit(d) == c
  {
    c as int - '0' as int
  }

  ghost predicate AllDigits(s: string) { forall c :: c in s ==> IsDigit(c) }

  lemma DigitsAt(s: string)
    requires AllDigits(s)
    ensures forall i :: 0 <= i < |s| ==> IsDigit(s[i])
  {
  }

  function Value(s: string): nat
    requires AllDigits(s)
  {
    if s == [] then 0 else 10 * Value(s[..|s| - 1]) + DigitValue(s[|s| - 1])
  }

  /** `strconv.Itoa` of a number that is not negative. */
  function Print(n: nat): (s: string)
    ensures s != [] && AllDigits(s)
    ensures if n == 0 then s == "0" else s[0] != '0'
  {
    if n < 10 then [Digit(n)] else Print(n / 10) + [Digit(n % 10)]
  }

  /** No leading zero: the shape `^(0|[1-9][0-9]*)$`. */
  ghost predicate Canonical(s: string) {
    s != [] && AllDigits(s) && (s[0] == '0' ==> s == "0")
  }

  lemma {:induction false} ValueOfPrint(n: nat)
    ensures Value(Print(n)) == n
  {
    if n >= 10 {
      ValueOfPrint(n / 10);
      assert Print(n)[..|Print(n)| - 1] == Print(n / 10);
    } else {
      assert Print(n)[..0] == [];
    }
  }

  lemma {:induction false} ValuePositive(s: string)
    requires s != [] && AllDigits(s) && s[0] != '0'
    ensures Value(s) > 0
  {
    if |s| > 1 {
      ValuePositive(s[..|s| - 1]);
    }
  }

  lemma {:induction false} PrintOfValue(s: string)
    requires Canonical(s)
    ensures Print(Value(s)) == s
  {
    var front := s[..|s| - 1];
    if |s| == 1 {
      assert front == [];
    } else {
      assert front[0] == s[0];
      ValuePositive(front);
      PrintOfValue(front);
      var d := DigitValue(s[|s| - 1]);
      assert d < 10 && Value(s) == 10 * Value(front) + d;
      assert Value(s) / 10 == Value(front) && Value(s) % 10 == d;
      assert s == front + [s[|s| - 1]];
    }
  }

  function Power10(k: nat): nat { if k == 0 then 1 else 10 * Power10(k - 1) }

  lemma {:induction false} PrintLength(n: nat, k: nat)
    requires k > 0
    ensures |Print(n)| <= k <==> n < Power10(k)
  {
    if n >= 10 {
      if k == 1 {
        assert Power10(1) == 10 * Power10(0);
      } else {
        PrintLength(n / 10, k - 1);
      }
    } else {
      assert Power10(k - 1) >= 1 by { Power10Positive(k - 1); }
    }
  }

  lemma Power10Positive(k: nat)
    ensures Power10(k) >= 1
  {
  }

  /** Canonical numerals are compared as texts and mean numbers. */
  lemma TextEqualityIsNumeric(s: string, t: string)
    requires Canonical(s) && Canonical(t)
    ensures s == t <==> Value(s) == Value(t)
  {
    PrintOfValue(s);
    PrintOfValue(t);
  }
}
