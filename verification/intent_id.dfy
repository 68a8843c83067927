/** mintIntentId: a 128-bit buffer written as 26 base-32 characters. */
module IntentIds {
  import opened LexOrders

  type Byte = n: nat | n < 256

  const ALPHABET: string := "0123456789abcdefghijklmnopqrstuv"
  const ROUNDS: nat := 26

  // ---- Positional notation ----

  function Pow(base: nat, k: nat): nat {
    if k == 0 then 1 else base * Pow(base, k - 1)
  }

  predicate InBase(ds: seq<nat>, base: nat) {
    forall i :: 0 <= i < |ds| ==> ds[i] < base
  }

  /** Most significant digit first. */
  function Value(ds: seq<nat>, base: nat): nat {
    if ds == [] then 0 else base * Value(ds[..|ds| - 1], base) + ds[|ds| - 1]
  }

  /** The last k base-32 digits of n. */
  function DigitsOf(n: nat, k: nat): (ds: seq<nat>)
    ensures |ds| == k && InBase(ds, 32)
  {
    if k == 0 then [] else DigitsOf(n / 32, k - 1) + [n % 32]
  }

  lemma DigitStep(base: nat, x: nat, y: nat, c: nat, d: nat)
    requires c < base && d < base
    ensures base * x + c < base * y + d <==> x < y || (x == y && c < d)
  {
    if x < y {
      assert base * (x + 1) <= base * y;
    } else if y < x {
      assert base * (y + 1) <= base * x;
    }
  }

  /** Equally long digit strings compare as the numbers they denote. */
  lemma {:induction false} ValueOrders(a: seq<nat>, b: seq<nat>, base: nat)
    requires |a| == |b| && InBase(a, base) && InBase(b, base)
    ensures LexLess(a, b) <==> Value(a, base) < Value(b, base)
    ensures a == b <==> Value(a, base) == Value(b, base)
  {
    if a != [] {
      var n := |a| - 1;
      ValueOrders(a[..n], b[..n], base);
      assert a == a[..n] + [a[n]] && b == b[..n] + [b[n]];
      LexSnoc(a[..n], b[..n], a[n], b[n]);
      DigitStep(base, Value(a[..n], base), Value(b[..n], base), a[n], b[n]);
      DigitStep(base, Value(b[..n], base), Value(a[..n], base), b[n], a[n]);
    }
  }

  lemma {:induction false} ValueOfDigits(n: nat, k: nat)
    requires n < Pow(32, k)
    ensures Value(DigitsOf(n, k), 32) == n
  {
    if k > 0 {
      ValueOfDigits(n / 32, k - 1);
      assert DigitsOf(n, k)[..k - 1] == DigitsOf(n / 32, k - 1);
    }
  }

  /** The value lies between its leading digit's share and the next power. */
  lemma {:induction false} ValueBounds(ds: seq<nat>, base: nat)
    requires ds != [] && InBase(ds, base)
    ensures ds[0] * Pow(base, |ds| - 1) <= Value(ds, base) < Pow(base, |ds|)
  {
    var n := |ds| - 1;
    if n == 0 {
      assert ds[..0] == [] && Value(ds, base) == ds[0] && Pow(base, 0) == 1 && Pow(base, 1) == base;
    } else {
      ValueBounds(ds[..n], base);
      Bounds(ds[0], Pow(base, n - 1), Value(ds[..n], base), base, ds[n]);
    }
  }

  lemma Bounds(lead: nat, power: nat, value: nat, base: nat, last: nat)
    requires lead * power <= value < base * power && last < base
    ensures lead * (base * power) <= base * value + last < base * (base * power)
  {
    Scale(base, lead * power, value);
    Scale(base, value + 1, base * power);
    Swap(base, lead, power);
    assert base * (value + 1) == base * value + base;
  }

  lemma Scale(base: nat, x: nat, y: nat)
    requires x <= y
    ensures base * x <= base * y
  {
  }

  lemma Swap(x: nat, y: nat, z: nat)
    ensures x * (y * z) == y * (x * z)
  {
    assert x * (y * z) == (x * y) * z && y * (x * z) == (y * x) * z;
  }

  // ---- Ids ----

  function Character(d: nat): (c: char)
    requires d < 32
    ensures '0' <= c <= '9' || 'a' <= c <= 'v'
    ensures d < 8 <==> c <= '7'
  {
    if d < 10 then '0' + d as char else 'a' + (d - 10) as char
  }

  lemma AlphabetIsCharacter(d: nat)
    requires d < 32
    ensures ALPHABET[d] == Character(d)
  {
  }

  function DigitAt(c: char): nat {
    if '0' <= c <= '9' then (c - '0') as nat else if 'a' <= c <= 'v' then (c - 'a') as nat + 10 else 0
  }

  function Written(ds: seq<nat>): (s: string)
    requires InBase(ds, 32)
    ensures |s| == |ds|
  {
    seq(|ds|, i requires 0 <= i < |ds| => Character(ds[i]))
  }

  function Read(s: string): (ds: seq<nat>)
    ensures |ds| == |s|
  {
    seq(|s|, i requires 0 <= i < |s| => DigitAt(s[i]))
  }

  /** The number the buffer's hex spells. */
  function NumberOf(buf: seq<Byte>): nat {
    Value(buf, 256)
  }

  function IdOf(n: nat): string {
    "int_" + Written(DigitsOf(n, ROUNDS))
  }

  /** Reading the 26 characters back as a base-32 number. */
  function Decoded(id: string): nat
    requires |id| >= 4
  {
    Value(Read(id[4..]), 32)
  }

  method MintIntentId(buf: seq<Byte>) returns (id: string)
    requires |buf| == 16
    ensures id == IdOf(NumberOf(buf))
  {
    var n := NumberOf(buf);
    ghost var start := n;
    var out: string := "";
    for i := 0 to ROUNDS
      invariant InBase(DigitsOf(n, ROUNDS - i), 32)
      invariant Written(DigitsOf(start, ROUNDS)) == Written(DigitsOf(n, ROUNDS - i)) + out
    {
      var d := n % 32;
      AlphabetIsCharacter(d);
      WrittenStep(n, ROUNDS - i);
      assert Written(DigitsOf(n / 32, ROUNDS - i - 1)) + [ALPHABET[d]] + out
          == Written(DigitsOf(n / 32, ROUNDS - i - 1)) + ([ALPHABET[d]] + out);
      out := [ALPHABET[d]] + out;
      n := n / 32;
    }
    assert Written(DigitsOf(n, 0)) + out == out;
    id := "int_" + out;
  }

  lemma WrittenStep(n: nat, k: nat)
    requires k > 0
    ensures Written(DigitsOf(n, k)) == Written(DigitsOf(n / 32, k - 1)) + [Character(n % 32)]
  {
    var front := DigitsOf(n / 32, k - 1);
    assert DigitsOf(n, k) == front + [n % 32];
  }

  /** 26 rounds are enough: 2^128 is a quarter of 32^26, and eight times 32^25. */
  lemma RoundsSuffice()
    ensures Pow(256, 16) == 8 * Pow(32, 25) && Pow(256, 16) <= Pow(32, 26)
  {
    assert Pow(32, 5) == 33554432 && Pow(256, 4) == 4294967296;
    PowAdds(256, 4, 4);
    PowAdds(256, 8, 8);
    PowAdds(32, 5, 5);
    PowAdds(32, 10, 10);
    PowAdds(32, 20, 5);
  }

  lemma Regroup(x: nat, y: nat, z: nat)
    ensures x * (y * z) == (x * y) * z
  {
  }

  lemma {:induction false} PowAdds(base: nat, a: nat, b: nat)
    ensures Pow(base, a + b) == Pow(base, a) * Pow(base, b)
  {
    if a > 0 {
      PowAdds(base, a - 1, b);
      Regroup(base, Pow(base, a - 1), Pow(base, b));
    }
  }

  lemma WrittenReads(ds: seq<nat>)
    requires InBase(ds, 32)
    ensures Read(Written(ds)) == ds
  {
  }

  /** The id decodes to the buffer's number, and its first character is at most '7'. */
  lemma IdDecodes(buf: seq<Byte>)
    requires |buf| == 16
    ensures var id := IdOf(NumberOf(buf));
      |id| == 30 && Decoded(id) == NumberOf(buf) && '0' <= id[4] <= '7'
  {
    var n := NumberOf(buf);
    BufferFits(buf);
    ValueOfDigits(n, ROUNDS);
    var ds := DigitsOf(n, ROUNDS);
    WrittenReads(ds);
    ValueBounds(ds, 32);
    assert n < 8 * Pow(32, 25) by {
      ValueBounds(buf, 256);
      RoundsSuffice();
    }
    hide Pow, Value, DigitsOf;
    assert IdOf(n)[4..] == Written(ds);
    LeadFits(ds[0], Pow(32, 25), n);
    assert IdOf(n)[4] == Written(ds)[0] == Character(ds[0]);
  }

  lemma LeadFits(lead: nat, power: nat, n: nat)
    requires lead * power <= n < 8 * power
    ensures lead < 8
  {
    if lead >= 8 {
      Scale(power, 8, lead);
    }
  }

  function Codes(s: string): (cs: seq<int>)
    ensures |cs| == |s|
  {
    seq(|s|, i requires 0 <= i < |s| => s[i] as int)
  }

  lemma CharacterOrders(c: nat, d: nat)
    requires c < 32 && d < 32
    ensures (Character(c) as int) < (Character(d) as int) <==> c < d
    ensures Character(c) == Character(d) <==> c == d
  {
  }

  lemma {:induction false} WrittenOrders(a: seq<nat>, b: seq<nat>)
    requires |a| == |b| && InBase(a, 32) && InBase(b, 32)
    ensures LexLess(Codes(Written(a)), Codes(Written(b))) <==> LexLess(a, b)
  {
    if a != [] {
      WrittenOrders(a[1..], b[1..]);
      CharacterOrders(a[0], b[0]);
      assert Codes(Written(a))[1..] == Codes(Written(a[1..]));
      assert Codes(Written(b))[1..] == Codes(Written(b[1..]));
    }
  }

  /** Ids sort as their buffers do, and different buffers get different ids. */
  lemma IdsOrderAsBuffers(a: seq<Byte>, b: seq<Byte>)
    requires |a| == |b| == 16
    ensures LexLess(Codes(IdOf(NumberOf(a))), Codes(IdOf(NumberOf(b)))) <==> LexLess(a, b)
    ensures IdOf(NumberOf(a)) == IdOf(NumberOf(b)) <==> a == b
  {
    var m, n := NumberOf(a), NumberOf(b);
    ValueOrders(a, b, 256);
    BufferFits(a);
    BufferFits(b);
    ValueOfDigits(m, ROUNDS);
    ValueOfDigits(n, ROUNDS);
    var x, y := DigitsOf(m, ROUNDS), DigitsOf(n, ROUNDS);
    hide Value, DigitsOf, Pow, LexLess;
    ValueOrders(x, y, 32);
    IdsOrderAsDigits(x, y);
    WrittenReads(x);
    WrittenReads(y);
    hide Written, Read, Codes;
    assert IdOf(m)[4..] == Written(x) && IdOf(n)[4..] == Written(y);
  }

  lemma BufferFits(buf: seq<Byte>)
    requires |buf| == 16
    ensures NumberOf(buf) < Pow(32, ROUNDS)
  {
    ValueBounds(buf, 256);
    RoundsSuffice();
    hide Pow, Value;
  }

  lemma IdsOrderAsDigits(x: seq<nat>, y: seq<nat>)
    requires |x| == |y| && InBase(x, 32) && InBase(y, 32)
    ensures LexLess(Codes("int_" + Written(x)), Codes("int_" + Written(y))) <==> LexLess(x, y)
  {
    WrittenOrders(x, y);
    LexAfterPrefix(Codes("int_"), Codes(Written(x)), Codes(Written(y)));
    hide LexLess, Written;
    assert Codes("int_" + Written(x)) == Codes("int_") + Codes(Written(x));
    assert Codes("int_" + Written(y)) == Codes("int_") + Codes(Written(y));
  }
}
