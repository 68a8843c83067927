/**
 * The PAYMENT-SIGNATURE header: JSON text as UTF-8 bytes in base64url without padding
 * (section 5 of RFC 4648), and the schema that the decoder applies.
 */
module PaymentHeader {
  import opened Wrappers
  import opened JsonTrees
  import opened JsStrings
  import opened JsonText
  import opened Canonical
  import opened PolicyRules
  import opened Digests

  type Byte = n: nat | n < 256

  // ---- UTF-8 ----

  function Utf8(t: JsString): seq<Byte> {
    if t == [] then []
    else if IsHigh(t[0]) && |t| > 1 && IsLow(t[1]) then FourBytes(PairValue(t[0], t[1])) + Utf8(t[2..])
    else UnitBytes(t[0]) + Utf8(t[1..])
  }

  /** A lone surrogate becomes the replacement character U+FFFD. */
  function UnitBytes(u: Unit): seq<Byte> {
    if IsSurrogate(u) then [0xEF, 0xBF, 0xBD]
    else if u < 0x80 then [u]
    else if u < 0x800 then [0xC0 + u / 64, 0x80 + u % 64]
    else [0xE0 + u / 4096, 0x80 + u / 64 % 64, 0x80 + u % 64]
  }

  function FourBytes(cp: int): seq<Byte>
    requires 0x1_0000 <= cp < 0x11_0000
  {
    [0xF0 + cp / 262144, 0x80 + cp / 4096 % 64, 0x80 + cp / 64 % 64, 0x80 + cp % 64]
  }

  predicate Continues(b: seq<Byte>, n: nat) {
    |b| > n && forall i :: 1 <= i <= n ==> 0x80 <= b[i] < 0xC0
  }

  function Two(a: int, b: int): int {
    (a - 0xC0) * 64 + (b - 0x80)
  }

  function Three(a: int, b: int, c: int): int {
    (a - 0xE0) * 4096 + (b - 0x80) * 64 + (c - 0x80)
  }

  function Four(a: int, b: int, c: int, d: int): int {
    (a - 0xF0) * 262144 + (b - 0x80) * 4096 + (c - 0x80) * 64 + (d - 0x80)
  }

  /** Strict decoding: ill-formed bytes, which Buffer replaces by U+FFFD, are taken to be a failure. */
  function FromUtf8(b: seq<Byte>): Option<JsString> {
    if b == [] then Some([])
    else if b[0] < 0x80 then Prefix([b[0]], FromUtf8(b[1..]))
    else if 0xC2 <= b[0] < 0xE0 && Continues(b, 1) then
      Prefix([Two(b[0], b[1])], FromUtf8(b[2..]))
    else if 0xE0 <= b[0] < 0xF0 && Continues(b, 2) then
      var cp := Three(b[0], b[1], b[2]);
      if cp < 0x800 || IsSurrogate(cp) then None else Prefix([cp], FromUtf8(b[3..]))
    else if 0xF0 <= b[0] < 0xF5 && Continues(b, 3) then
      var cp := Four(b[0], b[1], b[2], b[3]);
      if cp < 0x1_0000 || cp >= 0x11_0000 then None
      else Prefix([0xD800 + (cp - 0x1_0000) / 0x400, 0xDC00 + (cp - 0x1_0000) % 0x400], FromUtf8(b[4..]))
    else None
  }

  function Prefix(u: JsString, r: Option<JsString>): Option<JsString> {
    match r
    case None => None
    case Some(t) => Some(u + t)
  }

  /** Every surrogate is half of a pair. */
  predicate WellPaired(t: JsString) {
    t == []
    || (IsHigh(t[0]) && |t| > 1 && IsLow(t[1]) && WellPaired(t[2..]))
    || (!IsSurrogate(t[0]) && WellPaired(t[1..]))
  }

  lemma FourUnfold(b: seq<Byte>)
    requires |b| > 3 && 0xF0 <= b[0] < 0xF5 && Continues(b, 3) && 0x1_0000 <= Four(b[0], b[1], b[2], b[3]) < 0x11_0000
    ensures var cp := Four(b[0], b[1], b[2], b[3]);
      FromUtf8(b) == Prefix([0xD800 + (cp - 0x1_0000) / 0x400, 0xDC00 + (cp - 0x1_0000) % 0x400], FromUtf8(b[4..]))
  {
    hide Four, Two, Three, IsSurrogate;
  }

  lemma FourBytesDecode(h: Unit, l: Unit, tail: seq<Byte>)
    requires IsHigh(h) && IsLow(l)
    ensures FromUtf8(FourBytes(PairValue(h, l)) + tail) == Prefix([h, l], FromUtf8(tail))
  {
    var cp := PairValue(h, l);
    FourJoins(cp);
    PairSplits(h, l);
    hide Four, PairValue, FourBytes, FromUtf8;
    var f := FourBytes(cp);
    var b := f + tail;
    assert b[0] == f[0] && b[1] == f[1] && b[2] == f[2] && b[3] == f[3];
    assert b[4..] == tail;
    FourUnfold(b);
  }

  lemma FourJoins(cp: int)
    requires 0x1_0000 <= cp < 0x11_0000
    ensures var f := FourBytes(cp);
      |f| == 4 && Four(f[0], f[1], f[2], f[3]) == cp && 0xF0 <= f[0] < 0xF5
      && 0x80 <= f[1] < 0xC0 && 0x80 <= f[2] < 0xC0 && 0x80 <= f[3] < 0xC0
  {
    Sextets(cp);
  }

  lemma PairSplits(h: Unit, l: Unit)
    requires IsHigh(h) && IsLow(l)
    ensures var cp := PairValue(h, l);
      0x1_0000 <= cp < 0x11_0000
      && 0xD800 + (cp - 0x1_0000) / 0x400 == h && 0xDC00 + (cp - 0x1_0000) % 0x400 == l
  {
  }

  lemma Sextets(cp: int)
    requires 0 <= cp
    ensures (cp / 262144) * 262144 + (cp / 4096 % 64) * 4096 + (cp / 64 % 64) * 64 + cp % 64 == cp
    ensures (cp / 4096) * 4096 + (cp / 64 % 64) * 64 + cp % 64 == cp
  {
    assert cp / 64 / 64 == cp / 4096 && cp / 4096 / 64 == cp / 262144;
  }

  lemma ThreeBytesDecode(u: Unit, tail: seq<Byte>)
    requires 0x800 <= u && !IsSurrogate(u)
    ensures FromUtf8([0xE0 + u / 4096, 0x80 + u / 64 % 64, 0x80 + u % 64] + tail) == Prefix([u], FromUtf8(tail))
  {
    var b: seq<Byte> := [0xE0 + u / 4096, 0x80 + u / 64 % 64, 0x80 + u % 64] + tail;
    Sextets(u);
    assert b[3..] == tail;
  }

  lemma ShortBytesDecode(u: Unit, tail: seq<Byte>)
    requires u < 0x800
    ensures u < 0x80 ==> FromUtf8([u] + tail) == Prefix([u], FromUtf8(tail))
    ensures u >= 0x80 ==> FromUtf8([0xC0 + u / 64, 0x80 + u % 64] + tail) == Prefix([u], FromUtf8(tail))
  {
    if u < 0x80 {
      assert ([u] + tail)[1..] == tail;
    } else {
      assert ([0xC0 + u / 64, 0x80 + u % 64] + tail)[2..] == tail;
    }
  }

  lemma UnitDecode(u: Unit, tail: seq<Byte>)
    requires !IsSurrogate(u)
    ensures FromUtf8(UnitBytes(u) + tail) == Prefix([u], FromUtf8(tail))
  {
    if u < 0x800 { ShortBytesDecode(u, tail); } else { ThreeBytesDecode(u, tail); }
    hide FromUtf8;
  }

  lemma {:induction false} Utf8RoundTrip(t: JsString)
    requires WellPaired(t)
    ensures FromUtf8(Utf8(t)) == Some(t)
  {
    if t == [] {
    } else if IsHigh(t[0]) && |t| > 1 && IsLow(t[1]) && WellPaired(t[2..]) {
      Utf8RoundTrip(t[2..]);
      FourBytesDecode(t[0], t[1], Utf8(t[2..]));
      hide FromUtf8, FourBytes;
      assert [t[0], t[1]] + t[2..] == t;
    } else {
      Utf8RoundTrip(t[1..]);
      UnitDecode(t[0], Utf8(t[1..]));
      hide FromUtf8, UnitBytes;
      assert [t[0]] + t[1..] == t;
    }
  }

  // ---- Printed JSON is well paired ----

  lemma {:induction false} PairedConcat(a: JsString, b: JsString)
    requires WellPaired(a) && WellPaired(b)
    ensures WellPaired(a + b)
  {
    if a == [] {
      assert a + b == b;
    } else if IsHigh(a[0]) && |a| > 1 && IsLow(a[1]) && WellPaired(a[2..]) {
      PairedConcat(a[2..], b);
      assert (a + b)[2..] == a[2..] + b;
    } else {
      PairedConcat(a[1..], b);
      assert (a + b)[1..] == a[1..] + b;
    }
  }

  lemma {:induction false} PlainPaired(t: JsString)
    requires forall i :: 0 <= i < |t| ==> !IsSurrogate(t[i])
    ensures WellPaired(t)
  {
    if t != [] {
      PlainPaired(t[1..]);
    }
  }

  lemma EscapeOnePaired(u: Unit)
    ensures WellPaired(EscapeOne(u))
  {
    PlainPaired(EscapeOne(u));
  }

  lemma {:induction false} EscapePaired(s: JsString)
    ensures WellPaired(Escape(s))
  {
    if s != [] {
      EscapeStep(s, []);
      assert Escape(s) + [] == Escape(s);
      if StartsWithPair(s) {
        EscapePaired(s[2..]);
        var t := [s[0]] + ([s[1]] + (Escape(s[2..]) + []));
        assert t[2..] == Escape(s[2..]);
      } else {
        EscapePaired(s[1..]);
        EscapeOnePaired(s[0]);
        assert Escape(s[1..]) + [] == Escape(s[1..]);
        PairedConcat(EscapeOne(s[0]), Escape(s[1..]));
      }
    }
  }

  lemma QuotedPaired(s: JsString)
    ensures WellPaired(Quoted(s))
  {
    EscapePaired(s);
    PlainPaired([QUOTE]);
    PairedConcat(Escape(s), [QUOTE]);
    PairedConcat([QUOTE], Escape(s) + [QUOTE]);
  }

  lemma {:induction false} PrintPaired(d: Doc)
    requires NumbersPrintable(d)
    ensures WellPaired(Stringify(d))
    decreases d, 0
  {
    match d
    case Atom(Num(text)) =>
      NumberUnits(text);
      PlainPaired(text);
    case Atom(Str(s)) => QuotedPaired(s);
    case Atom(_) => PlainPaired(Stringify(d));
    case Arr(items) =>
      ItemsPaired(items);
      Wrap([OPEN_BRACKET], PrintItems(items), [CLOSE_BRACKET]);
    case Obj(members) =>
      MembersPaired(members);
      Wrap([OPEN_BRACE], PrintMembers(members), [CLOSE_BRACE]);
  }

  lemma Wrap(open: JsString, body: JsString, close: JsString)
    requires |open| == |close| == 1 && open[0] < 128 && close[0] < 128 && WellPaired(body)
    ensures WellPaired(open + (body + close)) && WellPaired(body + (open + close))
  {
    PlainPaired(open);
    PlainPaired(close);
    PlainPaired(open + close);
    PairedConcat(body, close);
    PairedConcat(open, body + close);
    PairedConcat(body, open + close);
  }

  lemma Joined(a: JsString, u: Unit, b: JsString)
    requires WellPaired(a) && WellPaired(b) && u < 128
    ensures WellPaired(a + ([u] + b))
  {
    PlainPaired([u]);
    PairedConcat([u], b);
    PairedConcat(a, [u] + b);
  }

  lemma {:induction false} ItemsPaired(items: seq<Doc>)
    requires forall i :: 0 <= i < |items| ==> NumbersPrintable(items[i])
    ensures WellPaired(PrintItems(items))
    decreases items, 1
  {
    hide Stringify, WellPaired, NumbersPrintable;
    if items == [] {
      PlainPaired([]);
    } else {
      PrintPaired(items[0]);
      ItemsPaired(items[1..]);
      Joined(Stringify(items[0]), COMMA, PrintItems(items[1..]));
    }
  }

  lemma {:induction false} MembersPaired(members: seq<DocMember>)
    requires forall i :: 0 <= i < |members| ==> NumbersPrintable(members[i].value)
    ensures WellPaired(PrintMembers(members))
    decreases members, 1
  {
    if members == [] {
      PlainPaired([]);
    } else {
      assert members decreases to members[0];
      PrintPaired(members[0].value);
      QuotedPaired(members[0].key);
      MembersPaired(members[1..]);
      hide Stringify, WellPaired, NumbersPrintable, Quoted;
      Joined(Quoted(members[0].key), COLON, Stringify(members[0].value));
      Joined(PrintMember(members[0]), COMMA, PrintMembers(members[1..]));
    }
  }

  // ---- base64url ----

  /** The alphabet of section 5 of RFC 4648. */
  function Base64Char(d: nat): (c: char)
    requires d < 64
    ensures IsBase64Url(c)
  {
    if d < 26 then 'A' + d as char
    else if d < 52 then 'a' + (d - 26) as char
    else if d < 62 then '0' + (d - 52) as char
    else if d == 62 then '-' else '_'
  }

  predicate IsBase64Url(c: char) {
    'A' <= c <= 'Z' || 'a' <= c <= 'z' || '0' <= c <= '9' || c == '-' || c == '_'
  }

  function Base64Digit(c: char): (d: nat)
    requires IsBase64Url(c)
    ensures d < 64
  {
    if 'A' <= c <= 'Z' then (c - 'A') as nat
    else if 'a' <= c <= 'z' then 26 + (c - 'a') as nat
    else if '0' <= c <= '9' then 52 + (c - '0') as nat
    else if c == '-' then 62 else 63
  }

  lemma DigitRoundTrip(d: nat)
    requires d < 64
    ensures Base64Digit(Base64Char(d)) == d
  {
  }

  // The four digits of three bytes.

  function DigitA(x: Byte): (d: nat)
    ensures d < 64
  {
    x / 4
  }

  function DigitB(x: Byte, y: Byte): (d: nat)
    ensures d < 64
  {
    x % 4 * 16 + y / 16
  }

  function DigitC(y: Byte, z: Byte): (d: nat)
    ensures d < 64
  {
    y % 16 * 4 + z / 64
  }

  function DigitD(z: Byte): (d: nat)
    ensures d < 64
  {
    z % 64
  }

  function ToBase64(b: seq<Byte>): (s: string)
    ensures forall i :: 0 <= i < |s| ==> IsBase64Url(s[i])
  {
    if |b| == 0 then ""
    else if |b| == 1 then [Base64Char(DigitA(b[0])), Base64Char(DigitB(b[0], 0))]
    else if |b| == 2 then [Base64Char(DigitA(b[0])), Base64Char(DigitB(b[0], b[1])), Base64Char(DigitC(b[1], 0))]
    else
      [Base64Char(DigitA(b[0])), Base64Char(DigitB(b[0], b[1])), Base64Char(DigitC(b[1], b[2])), Base64Char(DigitD(b[2]))]
      + ToBase64(b[3..])
  }

  const CAPITALS: string := "ABCDEFGHIJKLMNOPQRSTUVWXYZ"
  const SMALLS: string := "abcdefghijklmnopqrstuvwxyz"
  const ALPHABET_64: string := CAPITALS + SMALLS + "0123456789-_"

  lemma Alphabet64(d: nat)
    requires d < 64
    ensures |ALPHABET_64| == 64 && Base64Char(d) == ALPHABET_64[d]
  {
    assert |CAPITALS| == 26 && |SMALLS| == 26;
    if d < 26 {
      CapitalAt(d);
    } else if d < 52 {
      SmallAt(d - 26);
    } else {
      assert ALPHABET_64[d] == "0123456789-_"[d - 52];
    }
  }

  lemma CapitalAt(d: nat)
    requires d < 26
    ensures CAPITALS[d] == 'A' + d as char
  {
  }

  lemma SmallAt(d: nat)
    requires d < 26
    ensures SMALLS[d] == 'a' + d as char
  {
  }

  /** The letters stand for the digits, most significant first, of a number in base 64. */
  predicate Spells(letters: string, number: nat) {
    exists a: nat, b: nat, c: nat, d: nat {:trigger ALPHABET_64[a], ALPHABET_64[b], ALPHABET_64[c], ALPHABET_64[d]} ::
      a < 64 && b < 64 && c < 64 && d < 64 && number == ((a * 64 + b) * 64 + c) * 64 + d
      && letters == [ALPHABET_64[a], ALPHABET_64[b], ALPHABET_64[c], ALPHABET_64[d]]
  }

  /** Three bytes as one 24-bit number. */
  function Bits24(x: nat, y: nat, z: nat): nat {
    (x * 256 + y) * 256 + z
  }

  lemma DigitsSpell(x: Byte, y: Byte, z: Byte)
    ensures Spells(
      [Base64Char(DigitA(x)), Base64Char(DigitB(x, y)), Base64Char(DigitC(y, z)), Base64Char(DigitD(z))], Bits24(x, y, z))
  {
    var a, b, c, d := DigitA(x), DigitB(x, y), DigitC(y, z), DigitD(z);
    assert ((a * 64 + b) * 64 + c) * 64 + d == Bits24(x, y, z);
    Alphabet64(a);
    Alphabet64(b);
    Alphabet64(c);
    Alphabet64(d);
    hide Base64Char, DigitA, DigitB, DigitC, DigitD, Bits24;
  }

  function At(b: seq<Byte>, i: nat): Byte {
    if i < |b| then b[i] else 0
  }

  /** The k-th letters: four, or the last ones, filled up with the letters of zero. */
  function Group(s: string, k: nat): string
    requires 4 * k < |s|
  {
    if 4 * k + 4 <= |s| then s[4 * k..4 * k + 4]
    else if 4 * k + 3 == |s| then s[4 * k..] + "A"
    else s[4 * k..] + "AA"
  }

  predicate GroupSpells(b: seq<Byte>, k: nat) {
    var s := ToBase64(b);
    |s| == (4 * |b| + 2) / 3 && 4 * k < |s|
    && Spells(Group(s, k), Bits24(At(b, 3 * k), At(b, 3 * k + 1), At(b, 3 * k + 2)))
  }

  /** Each three bytes are four letters of one 24-bit number; the letters dropped from the last ones hold no bit of it. */
  lemma {:induction false} Base64Spells(b: seq<Byte>, k: nat)
    requires 3 * k < |b|
    ensures GroupSpells(b, k)
    decreases |b|
  {
    hide GroupSpells;
    if k == 0 {
      if |b| > 3 { Base64Spells(b[3..], 0); }
      FirstGroup(b);
    } else {
      Base64Spells(b[3..], k - 1);
      LaterGroup(b, k);
    }
  }

  lemma FirstFour(b: seq<Byte>)
    requires |b| >= 3
    ensures var s := ToBase64(b);
      |s| == 4 + |ToBase64(b[3..])| && s[4..] == ToBase64(b[3..])
      && s[..4] == [Base64Char(DigitA(b[0])), Base64Char(DigitB(b[0], b[1])), Base64Char(DigitC(b[1], b[2])), Base64Char(DigitD(b[2]))]
  {
    hide Base64Char, DigitA, DigitB, DigitC, DigitD;
  }

  lemma GroupShift(s: string, rest: string, k: nat)
    requires 0 < k && |s| == 4 + |rest| && s[4..] == rest && 4 * k < |s|
    ensures Group(s, k) == Group(rest, k - 1)
  {
    assert s[4 * k..] == rest[4 * (k - 1)..];
    if 4 * k + 4 <= |s| { assert s[4 * k..4 * k + 4] == rest[4 * (k - 1)..4 * (k - 1) + 4]; }
  }

  lemma AtShift(b: seq<Byte>, i: nat)
    requires |b| >= 3
    ensures At(b, i + 3) == At(b[3..], i)
  {
  }

  lemma LaterGroup(b: seq<Byte>, k: nat)
    requires |b| > 3 && k > 0 && GroupSpells(b[3..], k - 1)
    ensures GroupSpells(b, k)
  {
    FirstFour(b);
    var s, rest, j := ToBase64(b), ToBase64(b[3..]), 3 * (k - 1);
    assert |rest| == (4 * |b[3..]| + 2) / 3 && 4 * (k - 1) < |rest|;
    GroupShift(s, rest, k);
    AtShift(b, j);
    AtShift(b, j + 1);
    AtShift(b, j + 2);
    assert 3 * k == j + 3 && |s| == (4 * |b| + 2) / 3;
    hide Spells, ToBase64, Bits24, Base64Char, DigitA, DigitB, DigitC, DigitD, At, Group;
  }

  lemma FirstGroup(b: seq<Byte>)
    requires 0 < |b| && (|b| > 3 ==> GroupSpells(b[3..], 0))
    ensures GroupSpells(b, 0)
  {
    if |b| >= 3 { LongFirst(b); } else { ShortFirst(b); }
    hide *;
  }

  lemma LongFirst(b: seq<Byte>)
    requires |b| >= 3 && (|b| > 3 ==> GroupSpells(b[3..], 0))
    ensures GroupSpells(b, 0)
  {
    DigitsSpell(b[0], b[1], b[2]);
    FirstFour(b);
    var s, rest := ToBase64(b), ToBase64(b[3..]);
    assert |rest| == (4 * (|b| - 3) + 2) / 3;
    assert s[0..4] == s[..4] && At(b, 0) == b[0] && At(b, 1) == b[1] && At(b, 2) == b[2];
    hide Spells, ToBase64, Bits24, Base64Char, DigitA, DigitB, DigitC, DigitD, At;
  }

  lemma ShortFirst(b: seq<Byte>)
    requires 0 < |b| < 3
    ensures GroupSpells(b, 0)
  {
    DigitsSpell(b[0], At(b, 1), 0);
    var s := ToBase64(b);
    ShortLetters(b);
    hide Spells, Bits24, Base64Char, DigitA, DigitB, DigitC, DigitD, ToBase64;
  }

  lemma ShortLetters(b: seq<Byte>)
    requires 0 < |b| < 3
    ensures |ToBase64(b)| == |b| + 1
    ensures Group(ToBase64(b), 0) == [
      Base64Char(DigitA(b[0])), Base64Char(DigitB(b[0], At(b, 1))), Base64Char(DigitC(At(b, 1), 0)), Base64Char(DigitD(0))]
  {
    ZeroLetters();
    hide Base64Char, DigitA, DigitB, DigitC, DigitD;
    assert ToBase64(b)[0..] == ToBase64(b);
  }

  lemma ZeroLetters()
    ensures Base64Char(DigitC(0, 0)) == 'A' == Base64Char(DigitD(0))
  {
  }

  /** Whole quartets, then a rest of two or three characters; a single one left over carries no byte. */
  function FromBase64(s: string): Option<seq<Byte>> {
    if exists i :: 0 <= i < |s| && !IsBase64Url(s[i]) then None else Some(BytesOf(s))
  }

  function First(a: nat, b: nat): Byte
    requires a < 64 && b < 64
  {
    a * 4 + b / 16
  }

  function Second(b: nat, c: nat): Byte
    requires b < 64 && c < 64
  {
    b % 16 * 16 + c / 4
  }

  function Third(c: nat, d: nat): Byte
    requires c < 64 && d < 64
  {
    c % 4 * 64 + d
  }

  function BytesOf(s: string): seq<Byte>
    requires forall i :: 0 <= i < |s| ==> IsBase64Url(s[i])
  {
    if |s| < 2 then []
    else
      var a, b := Base64Digit(s[0]), Base64Digit(s[1]);
      if |s| == 2 then [First(a, b)]
      else
        var c := Base64Digit(s[2]);
        if |s| == 3 then [First(a, b), Second(b, c)]
        else
          var d := Base64Digit(s[3]);
          [First(a, b), Second(b, c), Third(c, d)] + BytesOf(s[4..])
  }

  lemma {:induction false} Base64RoundTrip(b: seq<Byte>)
    ensures FromBase64(ToBase64(b)) == Some(b)
  {
    BytesRoundTrip(b);
  }

  lemma {:induction false} BytesRoundTrip(b: seq<Byte>)
    ensures BytesOf(ToBase64(b)) == b
  {
    if |b| < 3 {
      RestRoundTrip(b);
    } else {
      BytesRoundTrip(b[3..]);
      Quartet(b[0], b[1], b[2], ToBase64(b[3..]));
      hide BytesOf, Base64Char, IsBase64Url, DigitA, DigitB, DigitC, DigitD;
      assert [b[0], b[1], b[2]] + b[3..] == b;
    }
  }

  lemma RestRoundTrip(b: seq<Byte>)
    requires |b| < 3
    ensures BytesOf(ToBase64(b)) == b
  {
    hide Base64Char, IsBase64Url, First, Second, Third, DigitA, DigitB, DigitC, DigitD;
    if |b| == 1 {
      RestOfOne(b[0]);
      assert b == [b[0]];
    } else if |b| == 2 {
      RestOfTwo(b[0], b[1]);
      assert b == [b[0], b[1]];
    }
  }

  /** Splitting bytes over digits and joining them again. */
  lemma JoinBytes(x: Byte, y: Byte, z: Byte)
    ensures First(DigitA(x), DigitB(x, y)) == x
    ensures Second(DigitB(x, y), DigitC(y, z)) == y
    ensures Third(DigitC(y, z), DigitD(z)) == z
  {
    assert DigitB(x, y) / 16 == x % 4;
    assert DigitB(x, y) % 16 == y / 16;
    assert DigitC(y, z) / 4 == y % 16;
    assert DigitC(y, z) % 4 == z / 64;
  }

  lemma RestOfOne(x: Byte)
    ensures BytesOf([Base64Char(DigitA(x)), Base64Char(DigitB(x, 0))]) == [x]
  {
    DigitRoundTrip(DigitA(x));
    DigitRoundTrip(DigitB(x, 0));
    JoinBytes(x, 0, 0);
    hide Base64Char, Base64Digit, IsBase64Url, First, Second, Third, DigitA, DigitB, DigitC, DigitD;
  }

  lemma RestOfTwo(x: Byte, y: Byte)
    ensures BytesOf([Base64Char(DigitA(x)), Base64Char(DigitB(x, y)), Base64Char(DigitC(y, 0))]) == [x, y]
  {
    DigitRoundTrip(DigitA(x));
    DigitRoundTrip(DigitB(x, y));
    DigitRoundTrip(DigitC(y, 0));
    JoinBytes(x, y, 0);
    hide Base64Char, Base64Digit, IsBase64Url, First, Second, Third, DigitA, DigitB, DigitC, DigitD;
  }

  lemma QuartetUnfold(t: string)
    requires |t| >= 4 && forall i :: 0 <= i < |t| ==> IsBase64Url(t[i])
    ensures var a, b, c, d := Base64Digit(t[0]), Base64Digit(t[1]), Base64Digit(t[2]), Base64Digit(t[3]);
      BytesOf(t) == [First(a, b), Second(b, c), Third(c, d)] + BytesOf(t[4..])
  {
    hide Base64Digit, IsBase64Url, First, Second, Third;
  }

  lemma QuartetBytes(s: string, tail: string, a: nat, b: nat, c: nat, d: nat)
    requires |s| == 4 && (forall i :: 0 <= i < 4 ==> IsBase64Url(s[i])) && forall i :: 0 <= i < |tail| ==> IsBase64Url(tail[i])
    requires Base64Digit(s[0]) == a && Base64Digit(s[1]) == b && Base64Digit(s[2]) == c && Base64Digit(s[3]) == d
    requires a < 64 && b < 64 && c < 64 && d < 64
    ensures BytesOf(s + tail) == [First(a, b), Second(b, c), Third(c, d)] + BytesOf(tail)
  {
    hide Base64Digit, IsBase64Url, BytesOf, First, Second, Third;
    var t := s + tail;
    assert t[0] == s[0] && t[1] == s[1] && t[2] == s[2] && t[3] == s[3];
    assert t[4..] == tail;
    QuartetUnfold(t);
  }

  lemma Quartet(x: Byte, y: Byte, z: Byte, tail: string)
    requires forall i :: 0 <= i < |tail| ==> IsBase64Url(tail[i])
    ensures var s := [Base64Char(DigitA(x)), Base64Char(DigitB(x, y)), Base64Char(DigitC(y, z)), Base64Char(DigitD(z))] + tail;
      (forall i :: 0 <= i < |s| ==> IsBase64Url(s[i])) && BytesOf(s) == [x, y, z] + BytesOf(tail)
  {
    var a, b, c, d := DigitA(x), DigitB(x, y), DigitC(y, z), DigitD(z);
    DigitRoundTrip(a);
    DigitRoundTrip(b);
    DigitRoundTrip(c);
    DigitRoundTrip(d);
    JoinBytes(x, y, z);
    hide Base64Char, Base64Digit, IsBase64Url, BytesOf, First, Second, Third, DigitA, DigitB, DigitC, DigitD;
    QuartetBytes([Base64Char(a), Base64Char(b), Base64Char(c), Base64Char(d)], tail, a, b, c, d);
  }

  // ---- JSON.parse, the schema, and the codec ----

  /** The objects that JSON.parse builds: a repeated key keeps its last value, index keys are listed first. */
  function Build(d: Doc): Doc {
    match d
    case Atom(_) => d
    case Arr(items) => Arr(BuildItems(items))
    case Obj(members) => Obj(PutAll([], BuildMembers(members)))
  }

  function BuildItems(items: seq<Doc>): seq<Doc> {
    if items == [] then [] else [Build(items[0])] + BuildItems(items[1..])
  }

  function BuildMembers(members: seq<DocMember>): seq<DocMember> {
    if members == [] then [] else
      assert members decreases to members[0];
      [Member(members[0].key, Build(members[0].value))] + BuildMembers(members[1..])
  }

  /** Objects without index keys list their keys as they were written. */
  predicate PlainKeys(d: Doc) {
    match d
    case Atom(_) => true
    case Arr(items) => forall i :: 0 <= i < |items| ==> PlainKeys(items[i])
    case Obj(members) => forall i :: 0 <= i < |members| ==> !IsIndex(members[i].key) && PlainKeys(members[i].value)
  }

  lemma {:induction false} PutAllPlain(ms: seq<DocMember>, more: seq<DocMember>)
    requires DistinctKeys(ms + more) && forall i :: 0 <= i < |more| ==> !IsIndex(more[i].key)
    ensures PutAll(ms, more) == ms + more
    decreases |more|
  {
    if more != [] {
      forall i | 0 <= i < |ms| ensures ms[i].key != more[0].key {
        assert (ms + more)[i] == ms[i] && (ms + more)[|ms|] == more[0];
      }
      assert Put(ms, more[0]) == ms + [more[0]];
      assert ms + [more[0]] + more[1..] == ms + more;
      PutAllPlain(ms + [more[0]], more[1..]);
    } else {
      assert ms + more == ms;
    }
  }

  lemma {:induction false} BuildKeeps(d: Doc)
    requires IsValue(d) && PlainKeys(d)
    ensures Build(d) == d
    decreases d, 0
  {
    match d
    case Atom(_) =>
    case Arr(items) => BuildItemsKeeps(items);
    case Obj(members) =>
      BuildMembersKeeps(members);
      assert [] + members == members;
      PutAllPlain([], members);
  }

  lemma {:induction false} BuildItemsKeeps(items: seq<Doc>)
    requires forall i :: 0 <= i < |items| ==> IsValue(items[i]) && PlainKeys(items[i])
    ensures BuildItems(items) == items
    decreases items, 1
  {
    if items != [] {
      BuildKeeps(items[0]);
      BuildItemsKeeps(items[1..]);
    }
  }

  lemma {:induction false} BuildMembersKeeps(members: seq<DocMember>)
    requires forall i :: 0 <= i < |members| ==> IsValue(members[i].value) && PlainKeys(members[i].value)
    ensures BuildMembers(members) == members
    decreases members, 1
  {
    if members != [] {
      assert members decreases to members[0];
      BuildKeeps(members[0].value);
      BuildMembersKeeps(members[1..]);
    }
  }

  /** Buffer.from(JSON.stringify(d), 'utf8').toString('base64url'). */
  function EncodeDoc(d: Doc): string {
    ToBase64(Utf8(Stringify(d)))
  }

  /** JSON.parse(Buffer.from(s, 'base64url').toString('utf8')). */
  ghost function DecodeDoc(s: string): Option<Doc> {
    match FromBase64(s)
    case None => None
    case Some(bytes) =>
      match FromUtf8(bytes)
      case None => None
      case Some(text) =>
        match ParseText(text)
        case None => None
        case Some(d) => Some(Build(d))
  }

  /** Any JSON value with plain keys, whatever its strings hold, survives the codec. */
  lemma DocRoundTrip(d: Doc)
    requires IsValue(d) && PlainKeys(d)
    ensures DecodeDoc(EncodeDoc(d)) == Some(d)
  {
    ValuesPrintable(d);
    Base64RoundTrip(Utf8(Stringify(d)));
    PrintPaired(d);
    Utf8RoundTrip(Stringify(d));
    TextRoundTrip(d);
    BuildKeeps(d);
  }

  datatype PaymentPayload = PaymentPayload(network: string, signature: string, publicKey: string, authorization: Authorization)

  predicate IsPublicKey(s: string) {
    |s| > 2 && ((s[..2] == "01" && IsLowerHex(s[2..], 64)) || (s[..2] == "02" && IsLowerHex(s[2..], 66)))
  }

  predicate PayloadValid(p: PaymentPayload) {
    IsChainId(p.network) && IsLowerHex(p.signature, 130) && IsPublicKey(p.publicKey) && AuthValid(p.authorization)
  }

  const TOP_FIELDS: seq<string> := ["x402Version", "scheme", "network", "payload"]
  const INNER_FIELDS: seq<string> := ["signature", "publicKey", "authorization"]

  function InnerValues(p: PaymentPayload): seq<Doc> {
    [Text(p.signature), Text(p.publicKey), AuthDoc(p.authorization)]
  }

  function TopValues(p: PaymentPayload): seq<Doc> {
    [Atom(Num(Js("2"))), Text("exact"), Text(p.network), Obj(Named(INNER_FIELDS, InnerValues(p)))]
  }

  function PayloadDoc(p: PaymentPayload): Doc {
    Obj(Named(TOP_FIELDS, TopValues(p)))
  }

  /** The value of a field of an object, if the document is an object that has it. */
  function Field(d: Doc, name: string): Option<Doc> {
    if d.Obj? then FieldOf(d.members, Js(name)) else None
  }

  function FieldOf(ms: seq<DocMember>, key: JsString): Option<Doc> {
    if ms == [] then None
    else if ms[0].key == key then Some(ms[0].value)
    else FieldOf(ms[1..], key)
  }

  /** strict(): an object with these keys and no others; its values in the order of the names. */
  function Record(d: Doc, names: seq<string>): (r: Option<seq<Doc>>)
    ensures r.Some? ==> |r.value| == |names|
  {
    if d.Obj? && |d.members| == |names| && forall i :: 0 <= i < |names| ==> Field(d, names[i]).Some?
    then Some(seq(|names|, i requires 0 <= i < |names| && Field(d, names[i]).Some? => Field(d, names[i]).value))
    else None
  }

  /** The characters of a text of ASCII units; every field pattern of the schema asks for those. */
  function TextOf(d: Doc): Option<string> {
    match d
    case Atom(Str(s)) => Ascii(s)
    case _ => None
  }

  function Ascii(s: JsString): Option<string> {
    if forall i :: 0 <= i < |s| ==> s[i] < 128
    then Some(seq(|s|, i requires 0 <= i < |s| && s[i] < 128 => s[i] as char)) else None
  }

  function SecondsOf(d: Doc): Option<Seconds> {
    match d
    case Atom(Str(s)) => (match Ascii(s) case Some(t) => Some(Digits(t)) case None => None)
    case Atom(Num(n)) => (match Ascii(n) case Some(t) => Some(Number(t)) case None => None)
    case _ => None
  }

  function ReadAuth(v: seq<Doc>): Option<Authorization>
    requires |v| == 6
  {
    match (TextOf(v[0]), TextOf(v[1]), TextOf(v[2]), SecondsOf(v[3]), SecondsOf(v[4]), TextOf(v[5]))
    case (Some(from), Some(to), Some(value), Some(after), Some(before), Some(nonce)) =>
      Some(Authorization(from, to, value, after, before, nonce))
    case _ => None
  }

  function ParseAuth(d: Doc): Option<Authorization> {
    match Record(d, AUTH_FIELDS)
    case Some(v) => ReadAuth(v)
    case None => None
  }

  function ReadInner(network: string, v: seq<Doc>): Option<PaymentPayload>
    requires |v| == 3
  {
    match (TextOf(v[0]), TextOf(v[1]), ParseAuth(v[2]))
    case (Some(signature), Some(publicKey), Some(auth)) => Some(PaymentPayload(network, signature, publicKey, auth))
    case _ => None
  }

  function ReadTop(v: seq<Doc>): Option<PaymentPayload>
    requires |v| == 4
  {
    if v[0] != Atom(Num(Js("2"))) || v[1] != Text("exact") then None else
      match (TextOf(v[2]), Record(v[3], INNER_FIELDS))
      case (Some(network), Some(inner)) => ReadInner(network, inner)
      case _ => None
  }

  /** PaymentPayloadSchema.parse; None stands for the thrown ZodError. */
  function SchemaParse(d: Doc): Option<PaymentPayload> {
    match Record(d, TOP_FIELDS)
    case None => None
    case Some(v) =>
      match ReadTop(v)
      case Some(p) => if PayloadValid(p) then Some(p) else None
      case None => None
  }

  // ---- The schema reads back what the encoder wrote ----

  lemma {:induction false} FieldOfDistinct(ms: seq<DocMember>, i: nat)
    requires DistinctKeys(ms) && i < |ms|
    ensures FieldOf(ms, ms[i].key) == Some(ms[i].value)
  {
    if i > 0 {
      FieldOfDistinct(ms[1..], i - 1);
    }
  }

  lemma RecordReadsBack(names: seq<string>, values: seq<Doc>)
    requires |names| == |values| && DistinctNames(names)
    ensures Record(Obj(Named(names, values)), names) == Some(values)
  {
    NamedDistinct(names, values);
    var d := Obj(Named(names, values));
    forall i | 0 <= i < |names| ensures Field(d, names[i]) == Some(values[i]) {
      FieldOfDistinct(Named(names, values), i);
    }
    hide Field;
    assert Record(d, names).value == values;
  }

  predicate AsciiText(s: string) {
    forall i :: 0 <= i < |s| ==> (s[i] as int) < 128
  }

  lemma {:induction false} JsOfAscii(s: string)
    requires AsciiText(s)
    ensures |Js(s)| == |s| && forall i :: 0 <= i < |s| ==> Js(s)[i] == s[i] as int
  {
    if s != "" {
      JsOfAscii(s[1..]);
    }
  }

  lemma AsciiReadsBack(s: string)
    requires AsciiText(s)
    ensures Ascii(Js(s)) == Some(s)
  {
    JsOfAscii(s);
    assert Ascii(Js(s)).value == s;
  }

  lemma FieldsAreAscii(p: PaymentPayload)
    requires PayloadValid(p)
    ensures AsciiText(p.network) && AsciiText(p.signature) && AsciiText(p.publicKey)
    ensures AsciiText(p.authorization.from) && AsciiText(p.authorization.to)
    ensures AsciiText(p.authorization.value) && AsciiText(p.authorization.nonce)
  {
    PrefixedHex(p.publicKey);
    PrefixedHex(p.authorization.from);
    PrefixedHex(p.authorization.to);
    var network := p.network;
    assert forall i :: 0 <= i < 7 ==> network[i] == network[..7][i] == "casper:"[i];
  }

  lemma PrefixedHex(s: string)
    requires |s| > 2 && (s[..2] == "00" || s[..2] == "01" || s[..2] == "02") && (IsLowerHex(s[2..], 64) || IsLowerHex(s[2..], 66))
    ensures AsciiText(s)
  {
    forall i | 0 <= i < |s| ensures (s[i] as int) < 128 {
      if i < 2 { assert s[i] == s[..2][i]; } else { assert s[i] == s[2..][i - 2]; }
    }
  }

  lemma AuthReadsBack(a: Authorization)
    requires AuthValid(a)
    requires AsciiText(a.from) && AsciiText(a.to) && AsciiText(a.value) && AsciiText(a.nonce)
    ensures ParseAuth(AuthDoc(a)) == Some(a)
  {
    AuthFieldsDistinct();
    RecordReadsBack(AUTH_FIELDS, AuthValues(a));
    AsciiReadsBack(a.from);
    AsciiReadsBack(a.to);
    AsciiReadsBack(a.value);
    AsciiReadsBack(a.nonce);
    SecondsReadBack(a.validAfter);
    SecondsReadBack(a.validBefore);
    hide Record, Ascii, Js, AsciiText, DistinctNames, SecondsOf, SecondsDoc;
  }

  lemma SecondsReadBack(s: Seconds)
    requires SecondsValid(s)
    ensures SecondsOf(SecondsDoc(s)) == Some(s)
  {
    match s
    case Digits(t) => AsciiReadsBack(t);
    case Number(t) => AsciiReadsBack(t);
  }

  lemma InnerFieldsDistinct()
    ensures DistinctNames(INNER_FIELDS)
  {
    var n := INNER_FIELDS;
    assert |n[0]| == 9 && |n[1]| == 9 && |n[2]| == 13 && n[0][0] == 's' && n[1][0] == 'p';
  }

  lemma TopFieldsDistinct()
    ensures DistinctNames(TOP_FIELDS)
  {
    var n := TOP_FIELDS;
    assert |n[0]| == 11 && |n[1]| == 6 && |n[2]| == 7 && |n[3]| == 7 && n[2][0] == 'n' && n[3][0] == 'p';
  }

  lemma InnerReadsBack(p: PaymentPayload)
    requires PayloadValid(p)
    ensures ReadInner(p.network, InnerValues(p)) == Some(p)
  {
    FieldsAreAscii(p);
    AsciiReadsBack(p.signature);
    AsciiReadsBack(p.publicKey);
    AuthReadsBack(p.authorization);
    hide Ascii, Js, AsciiText, ParseAuth, AuthDoc;
  }

  lemma TopReadsBack(p: PaymentPayload)
    requires PayloadValid(p)
    ensures ReadTop(TopValues(p)) == Some(p)
  {
    InnerFieldsDistinct();
    RecordReadsBack(INNER_FIELDS, InnerValues(p));
    assert AsciiText(p.network) by { FieldsAreAscii(p); }
    AsciiReadsBack(p.network);
    InnerReadsBack(p);
    TopValueAt(p);
    hide *;
    assert ReadTop(TopValues(p)) == ReadInner(p.network, InnerValues(p)) by { TopReads(p, TopValues(p)); }
  }

  lemma TopReads(p: PaymentPayload, v: seq<Doc>)
    requires |v| == 4 && v[0] == Atom(Num(Js("2"))) && v[1] == Text("exact") && v[2] == Text(p.network)
    requires Ascii(Js(p.network)) == Some(p.network) && Record(v[3], INNER_FIELDS) == Some(InnerValues(p))
    ensures ReadTop(v) == ReadInner(p.network, InnerValues(p))
  {
    hide Record, Ascii, Js, ReadInner, InnerValues;
  }

  lemma TopValueAt(p: PaymentPayload)
    ensures var v := TopValues(p);
      |v| == 4 && v[0] == Atom(Num(Js("2"))) && v[1] == Text("exact") && v[2] == Text(p.network)
      && v[3] == Obj(Named(INNER_FIELDS, InnerValues(p)))
  {
    hide Text, Named, InnerValues;
  }

  lemma PayloadReadsBack(p: PaymentPayload)
    requires PayloadValid(p)
    ensures SchemaParse(PayloadDoc(p)) == Some(p)
  {
    TopFieldsDistinct();
    RecordReadsBack(TOP_FIELDS, TopValues(p));
    TopReadsBack(p);
    hide Record, ReadTop, TopValues, PayloadValid, DistinctNames, Named;
  }

  // ---- The header ----

  function EncodeHeader(p: PaymentPayload): (s: string)
    ensures forall i :: 0 <= i < |s| ==> IsBase64Url(s[i])
  {
    EncodeDoc(PayloadDoc(p))
  }

  datatype SafeDecode = Decoded(payload: PaymentPayload) | InvalidPayload

  ghost function DecodeHeader(s: string): Option<PaymentPayload> {
    match DecodeDoc(s)
    case None => None
    case Some(d) => SchemaParse(d)
  }

  ghost function SafeDecodeHeader(s: string): SafeDecode {
    match DecodeHeader(s)
    case Some(p) => Decoded(p)
    case None => InvalidPayload
  }

  lemma PlainNames(names: seq<string>, values: seq<Doc>)
    requires |names| == |values| && forall i :: 0 <= i < |names| ==> names[i] != "" && 'a' <= names[i][0] <= 'z'
    requires forall i :: 0 <= i < |values| ==> PlainKeys(values[i])
    ensures PlainKeys(Obj(Named(names, values)))
  {
    forall i | 0 <= i < |names| ensures !IsIndex(Js(names[i])) {
      assert Js(names[i])[0] == names[i][0] as int;
    }
  }

  lemma FieldNamesPlain()
    ensures forall i :: 0 <= i < |TOP_FIELDS| ==> TOP_FIELDS[i] != "" && 'a' <= TOP_FIELDS[i][0] <= 'z'
    ensures forall i :: 0 <= i < |INNER_FIELDS| ==> INNER_FIELDS[i] != "" && 'a' <= INNER_FIELDS[i][0] <= 'z'
    ensures forall i :: 0 <= i < |AUTH_FIELDS| ==> AUTH_FIELDS[i] != "" && 'a' <= AUTH_FIELDS[i][0] <= 'z'
  {
  }

  lemma TextIsPlain(s: string)
    ensures IsValue(Text(s)) && PlainKeys(Text(s))
  {
  }

  lemma AuthIsPlain(a: Authorization)
    requires AuthValid(a)
    ensures IsValue(AuthDoc(a)) && PlainKeys(AuthDoc(a))
  {
    AuthIsValue(a);
    FieldNamesPlain();
    forall i | 0 <= i < 6 ensures PlainKeys(AuthValues(a)[i]) {}
    hide PlainKeys, AuthValues, IsValue;
    PlainNames(AUTH_FIELDS, AuthValues(a));
  }

  lemma InnerIsPlain(p: PaymentPayload)
    requires PayloadValid(p)
    ensures IsValue(Obj(Named(INNER_FIELDS, InnerValues(p)))) && PlainKeys(Obj(Named(INNER_FIELDS, InnerValues(p))))
  {
    AuthIsPlain(p.authorization);
    TextIsPlain(p.signature);
    TextIsPlain(p.publicKey);
    InnerFieldsDistinct();
    FieldNamesPlain();
    hide PlainKeys, IsValue, Text, AuthDoc, DistinctNames, AuthValid, PayloadValid;
    NamedIsValue(INNER_FIELDS, InnerValues(p));
    PlainNames(INNER_FIELDS, InnerValues(p));
  }

  lemma TwoIsPlain()
    ensures IsValue(Atom(Num(Js("2")))) && PlainKeys(Atom(Num(Js("2"))))
  {
    IntegerTextIsNumber("2");
  }

  lemma PayloadDocIsPlain(p: PaymentPayload)
    requires PayloadValid(p)
    ensures IsValue(PayloadDoc(p)) && PlainKeys(PayloadDoc(p))
  {
    InnerIsPlain(p);
    TwoIsPlain();
    TextIsPlain("exact");
    TextIsPlain(p.network);
    TopFieldsDistinct();
    FieldNamesPlain();
    hide PlainKeys, IsValue, Text, Named, Js, DistinctNames, PayloadValid, InnerValues;
    NamedIsValue(TOP_FIELDS, TopValues(p));
    PlainNames(TOP_FIELDS, TopValues(p));
  }

  /** Decoding an encoded payload gives the payload back, and the safe decoder never fails on it. */
  lemma HeaderRoundTrip(p: PaymentPayload)
    requires PayloadValid(p)
    ensures DecodeHeader(EncodeHeader(p)) == Some(p)
    ensures SafeDecodeHeader(EncodeHeader(p)) == Decoded(p)
  {
    hide PayloadDoc;
    PayloadDocIsPlain(p);
    DocRoundTrip(PayloadDoc(p));
    PayloadReadsBack(p);
  }
}
