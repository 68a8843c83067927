/** Atomic amounts: digit strings in the TypeScript, unbounded integers once parsed. */
module Decimal {
  import opened Wrappers

  predicate IsDigit(c: char) {
    '0' <= c <= '9'
  }

  /** The pattern /^\d+$/ that guards every amount. */
  predicate AllDigits(s: string) {
    |s| > 0 && forall i :: 0 <= i < |s| ==> IsDigit(s[i])
  }

  function DigitValue(c: char): (d: nat)
    requires IsDigit(c)
    ensures d < 10
  {
    (c - '0') as nat
  }

  function DigitChar(d: nat): (c: char)
    requires d < 10
    ensures IsDigit(c) && DigitValue(c) == d
  {
    '0' + d as char
  }

  /** The integer a run of digits denotes; the empty run denotes 0. */
  function ValueOf(s: string): nat
    requires forall i :: 0 <= i < |s| ==> IsDigit(s[i])
  {
    if |s| == 0 then 0
    else 10 * ValueOf(s[..|s| - 1]) + DigitValue(s[|s| - 1])
  }

  lemma NextDigit(s: string, k: nat)
    requires k < |s| && forall i :: 0 <= i < |s| ==> IsDigit(s[i])
    ensures ValueOf(s[..k + 1]) == 10 * ValueOf(s[..k]) + DigitValue(s[k])
  {
    assert s[..k + 1][..k] == s[..k];
  }

  /** parseAtomic: digits only, everything else is refused rather than coerced. */
  function ParseAtomic(s: string): Option<nat> {
    if AllDigits(s) then Some(ValueOf(s)) else None
  }

  /** BigInt.prototype.toString. */
  function Print(n: nat): string {
    if n < 10 then [DigitChar(n)] else Print(n / 10) + [DigitChar(n % 10)]
  }

  lemma {:induction false} ParsePrint(n: nat)
    ensures AllDigits(Print(n)) && ValueOf(Print(n)) == n
    ensures ParseAtomic(Print(n)) == Some(n)
  {
    if n >= 10 {
      ParsePrint(n / 10);
      assert Print(n)[..|Print(n)| - 1] == Print(n / 10);
    }
  }

  predicate HasLeadingZero(s: string) {
    |s| > 1 && s[0] == '0'
  }

  /** Printing undoes parsing exactly on the digit strings without a leading zero. */
  lemma {:induction false} PrintParse(s: string)
    requires AllDigits(s)
    ensures Print(ValueOf(s)) == s <==> !HasLeadingZero(s)
  {
    if HasLeadingZero(s) {
      PrintHasNoLeadingZero(ValueOf(s));
    } else {
      PrintParseCanonical(s);
    }
  }

  lemma {:induction false} PrintHasNoLeadingZero(n: nat)
    ensures |Print(n)| > 0 && (Print(n)[0] == '0' ==> n == 0)
    ensures !HasLeadingZero(Print(n))
  {
    if n >= 10 {
      PrintHasNoLeadingZero(n / 10);
    }
  }

  lemma {:induction false} PrintParseCanonical(s: string)
    requires AllDigits(s) && !HasLeadingZero(s)
    ensures Print(ValueOf(s)) == s
    ensures s[0] != '0' ==> ValueOf(s) > 0
  {
    if |s| > 1 {
      var front := s[..|s| - 1];
      PrintParseCanonical(front);
      assert ValueOf(s) / 10 == ValueOf(front);
      assert s == front + [s[|s| - 1]];
    } else {
      assert s[..0] == "";
    }
  }

  /** At equal length: the digits before n agree, and the first has the smaller digit there. */
  predicate SmallerDigitAt(s: string, t: string, n: nat) {
    n < |s| && n < |t| && s[..n] == t[..n] && s[n] < t[n]
  }

  /** Digit strings of one length denote numbers in the order of their first different digit. */
  lemma {:induction false} ValueOrdersSameLength(s: string, t: string)
    requires |s| == |t|
    requires (forall i :: 0 <= i < |s| ==> IsDigit(s[i])) && forall i :: 0 <= i < |t| ==> IsDigit(t[i])
    ensures ValueOf(s) < ValueOf(t) <==> exists n: nat :: SmallerDigitAt(s, t, n)
    ensures ValueOf(s) == ValueOf(t) <==> s == t
  {
    if s != "" {
      var k := |s| - 1;
      var front, front' := s[..k], t[..k];
      ValueOrdersSameLength(front, front');
      assert s == front + [s[k]] && t == front' + [t[k]];
      if n: nat :| SmallerDigitAt(front, front', n) {
        assert front[..n] == s[..n] && front'[..n] == t[..n];
        assert SmallerDigitAt(s, t, n);
      }
      if front == front' && s[k] < t[k] { assert SmallerDigitAt(s, t, k); }
      if n: nat :| SmallerDigitAt(s, t, n) && n < k {
        assert front[..n] == s[..n] && front'[..n] == t[..n];
        assert SmallerDigitAt(front, front', n);
      }
    }
  }

  lemma {:induction false} LongerIsLarger(s: string, t: string)
    requires (forall i :: 0 <= i < |s| ==> IsDigit(s[i])) && AllDigits(t) && |s| < |t| && t[0] != '0'
    ensures ValueOf(s) < ValueOf(t)
  {
    if s == "" {
      PrintParseCanonical(t);
    } else {
      LongerIsLarger(s[..|s| - 1], t[..|t| - 1]);
    }
  }

  /** Without leading zeros numbers are ordered by length and then by the first different digit. */
  lemma ValueOrders(s: string, t: string)
    requires AllDigits(s) && AllDigits(t) && !HasLeadingZero(s) && !HasLeadingZero(t)
    ensures ValueOf(s) < ValueOf(t) <==> |s| < |t| || (|s| == |t| && exists n: nat :: SmallerDigitAt(s, t, n))
  {
    if |s| == |t| {
      ValueOrdersSameLength(s, t);
    } else if |s| < |t| {
      LongerIsLarger(s, t);
    } else {
      LongerIsLarger(t, s);
    }
  }
}
