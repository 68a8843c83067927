/** JavaScript strings as what they are: sequences of 16-bit code units. */
module JsStrings {
  import opened Decimal
  import opened LexOrders

  type Unit = n: nat | n < 0x1_0000

  type JsString = seq<Unit>

  predicate IsHigh(u: nat) {
    0xD800 <= u < 0xDC00
  }

  predicate IsLow(u: nat) {
    0xDC00 <= u < 0xE000
  }

  predicate IsSurrogate(u: nat) {
    0xD800 <= u < 0xE000
  }

  /** The code point of a surrogate pair. */
  function PairValue(high: nat, low: nat): int {
    0x1_0000 + (high - 0xD800) * 0x400 + (low - 0xDC00)
  }

  /** UTF-16 of one character: itself, or a surrogate pair. */
  function UnitsOfChar(c: char): (s: JsString)
    ensures |s| == 1 || |s| == 2
    ensures |s| == 1 ==> !IsSurrogate(s[0]) && s[0] == c as int
    ensures |s| == 2 ==> IsHigh(s[0]) && IsLow(s[1]) && c as int == PairValue(s[0], s[1])
  {
    var n := c as int;
    if n < 0x1_0000 then [n] else [0xD800 + (n - 0x1_0000) / 0x400, 0xDC00 + (n - 0x1_0000) % 0x400]
  }

  function Js(s: string): JsString {
    if s == "" then [] else UnitsOfChar(s[0]) + Js(s[1..])
  }

  /** Text within the basic plane is its own code units. */
  lemma {:induction false} JsOfPlain(s: string)
    requires forall i :: 0 <= i < |s| ==> s[i] as int < 0x1_0000
    ensures |Js(s)| == |s| && forall i :: 0 <= i < |s| ==> Js(s)[i] == s[i] as int
  {
    if s != "" {
      JsOfPlain(s[1..]);
    }
  }

  lemma {:induction false} JsConcat(s: string, t: string)
    ensures Js(s + t) == Js(s) + Js(t)
  {
    if s == "" {
      assert s + t == t && Js(s) + Js(t) == Js(t);
    } else {
      JsConcat(s[1..], t);
      assert (s + t)[1..] == s[1..] + t && (s + t)[0] == s[0];
      hide UnitsOfChar;
    }
  }

  lemma {:induction false} JsInjective(s: string, t: string)
    requires Js(s) == Js(t)
    ensures s == t
  {
    if s != "" && t != "" {
      var a, b := UnitsOfChar(s[0]), UnitsOfChar(t[0]);
      assert a[0] == Js(s)[0] == Js(t)[0] == b[0];
      if |a| == 2 {
        assert a[1] == Js(s)[1] == Js(t)[1] == b[1];
      }
      assert a == b && s[0] == t[0];
      assert Js(s[1..]) == Js(s)[|a|..] == Js(t)[|a|..] == Js(t[1..]);
      JsInjective(s[1..], t[1..]);
    }
  }

  // ---- Array indices, which objects list before other keys ----

  predicate IsUnitDigit(u: nat) {
    48 <= u <= 57
  }

  function DigitText(s: JsString): string
    requires forall i :: 0 <= i < |s| ==> IsUnitDigit(s[i])
  {
    seq(|s|, i requires 0 <= i < |s| && IsUnitDigit(s[i]) => s[i] as char)
  }

  /** A canonical decimal below 2^32 - 1. */
  predicate IsIndex(s: JsString) {
    s != [] && (forall i :: 0 <= i < |s| ==> IsUnitDigit(s[i])) && (|s| > 1 ==> s[0] != 48)
    && ValueOf(DigitText(s)) < 0xFFFF_FFFF
  }

  function IndexValue(s: JsString): nat
    requires IsIndex(s)
  {
    ValueOf(DigitText(s))
  }

  lemma IndexValueInjective(a: JsString, b: JsString)
    requires IsIndex(a) && IsIndex(b) && IndexValue(a) == IndexValue(b)
    ensures a == b
  {
    var s, t := DigitText(a), DigitText(b);
    PrintParseCanonical(s);
    PrintParseCanonical(t);
    assert s == t;
    forall i | 0 <= i < |a| ensures a[i] == b[i] {
      assert s[i] == t[i];
    }
  }

  /** Index keys compare as texts do, a shorter one first. */
  lemma IndexValueOrders(a: JsString, b: JsString)
    requires IsIndex(a) && IsIndex(b)
    ensures IndexValue(a) < IndexValue(b) <==> |a| < |b| || (|a| == |b| && exists n: nat :: SmallerAt(a, b, n))
  {
    var s, t := DigitText(a), DigitText(b);
    ValueOrders(s, t);
    if |a| == |b| {
      forall n: nat ensures SmallerDigitAt(s, t, n) <==> SmallerAt(a, b, n) {
        DigitTextDiffers(a, b, n);
      }
    }
  }

  lemma DigitTextDiffers(a: JsString, b: JsString, n: nat)
    requires |a| == |b|
    requires (forall i :: 0 <= i < |a| ==> IsUnitDigit(a[i])) && forall i :: 0 <= i < |b| ==> IsUnitDigit(b[i])
    ensures SmallerDigitAt(DigitText(a), DigitText(b), n) <==> SmallerAt(a, b, n)
  {
    var s, t := DigitText(a), DigitText(b);
    if n < |a| {
      if s[..n] == t[..n] {
        forall i | 0 <= i < n ensures a[i] == b[i] { assert s[..n][i] == t[..n][i]; }
      }
      if a[..n] == b[..n] {
        forall i | 0 <= i < n ensures s[i] == t[i] { assert a[..n][i] == b[..n][i]; }
      }
    } else if SmallerAt(a, b, n) {
      assert false;
    }
  }

  const INDEX_LIMIT: string := "4294967295"

  lemma FiveDigits(s: string, k: nat)
    requires k + 5 <= |s| && AllDigits(s)
    ensures ValueOf(s[..k + 5]) == 10_0000 * ValueOf(s[..k])
      + 1_0000 * DigitValue(s[k]) + 1000 * DigitValue(s[k + 1]) + 100 * DigitValue(s[k + 2]) + 10 * DigitValue(s[k + 3])
      + DigitValue(s[k + 4])
  {
    hide ValueOf, DigitValue;
    NextDigit(s, k);
    NextDigit(s, k + 1);
    NextDigit(s, k + 2);
    NextDigit(s, k + 3);
    NextDigit(s, k + 4);
  }

  lemma IndexLimit()
    ensures AllDigits(INDEX_LIMIT) && ValueOf(INDEX_LIMIT) == 0xFFFF_FFFF
  {
    assert INDEX_LIMIT[..0] == "" && INDEX_LIMIT[..10] == INDEX_LIMIT && ValueOf(INDEX_LIMIT[..0]) == 0;
    hide ValueOf;
    FiveDigits(INDEX_LIMIT, 0);
    FiveDigits(INDEX_LIMIT, 5);
  }

  /** Which keys are indices, as texts: decimal digits, no leading zero, before "4294967295". */
  lemma IsIndexMeans(s: JsString)
    ensures IsIndex(s) <==>
      s != [] && (forall i :: 0 <= i < |s| ==> '0' as int <= s[i] <= '9' as int) && (|s| > 1 ==> s[0] != '0' as int)
      && (|s| < 10 || (|s| == 10 && exists n: nat :: SmallerDigitAt(DigitText(s), INDEX_LIMIT, n)))
  {
    IndexLimit();
    if s != [] && (forall i :: 0 <= i < |s| ==> IsUnitDigit(s[i])) && (|s| > 1 ==> s[0] != 48) {
      ValueOrders(DigitText(s), INDEX_LIMIT);
    }
    hide ValueOf;
  }

  /** The order in which an object with sorted insertions lists its keys. */
  predicate KeyBefore(a: JsString, b: JsString) {
    if IsIndex(a) && IsIndex(b) then IndexValue(a) < IndexValue(b)
    else if IsIndex(a) || IsIndex(b) then IsIndex(a)
    else LexLess(a, b)
  }

  lemma KeyBeforeIrreflexive(a: JsString)
    ensures !KeyBefore(a, a)
  {
    LexIrreflexive(a);
  }

  lemma KeyBeforeTransitive(a: JsString, b: JsString, c: JsString)
    requires KeyBefore(a, b) && KeyBefore(b, c)
    ensures KeyBefore(a, c)
  {
    if !IsIndex(a) && !IsIndex(b) && !IsIndex(c) {
      LexTransitive(a, b, c);
    }
  }
}
