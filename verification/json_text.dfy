/**
 * JSON.stringify, and a parser for the grammar of sections 2 to 7 of RFC 8259. Parsing a
 * printed document gives it back, which also shows the printer to be unambiguous.
 */
module JsonText {
  import opened Wrappers
  import opened JsonTrees
  import opened JsStrings

  /** A number is carried by its ECMAScript text, which identifies it. */
  datatype TextAtom = Null | Bool(b: bool) | Num(text: JsString) | Str(s: JsString)

  type Doc = Json<TextAtom, JsString>

  type DocMember = Member<TextAtom, JsString>

  const QUOTE: Unit := 34
  const COMMA: Unit := 44
  const COLON: Unit := 58
  const BACKSLASH: Unit := 92
  const OPEN_BRACKET: Unit := 91
  const CLOSE_BRACKET: Unit := 93
  const OPEN_BRACE: Unit := 123
  const CLOSE_BRACE: Unit := 125

  const NULL_TEXT: JsString := [110, 117, 108, 108]
  const TRUE_TEXT: JsString := [116, 114, 117, 101]
  const FALSE_TEXT: JsString := [102, 97, 108, 115, 101]

  // ---- Printing ----

  function HexDigit(d: nat): (u: Unit)
    requires d < 16
  {
    if d < 10 then 48 + d else 87 + d
  }

  /** \uXXXX with lower-case digits. */
  function UnicodeEscape(u: Unit): JsString {
    [BACKSLASH, 117, HexDigit(u / 4096), HexDigit(u / 256 % 16), HexDigit(u / 16 % 16), HexDigit(u % 16)]
  }

  /** The short escape letter of a unit that has one. */
  function ShortEscape(u: Unit): Option<Unit> {
    if u == QUOTE then Some(QUOTE)
    else if u == BACKSLASH then Some(BACKSLASH)
    else if u == 8 then Some(98)
    else if u == 12 then Some(102)
    else if u == 10 then Some(110)
    else if u == 13 then Some(114)
    else if u == 9 then Some(116)
    else None
  }

  /** A surrogate pair is printed as it is, a lone surrogate is escaped. */
  function Escape(s: JsString): JsString {
    if s == [] then []
    else if ShortEscape(s[0]).Some? then [BACKSLASH, ShortEscape(s[0]).value] + Escape(s[1..])
    else if s[0] < 32 then UnicodeEscape(s[0]) + Escape(s[1..])
    else if IsHigh(s[0]) && |s| > 1 && IsLow(s[1]) then [s[0]] + ([s[1]] + Escape(s[2..]))
    else if IsSurrogate(s[0]) then UnicodeEscape(s[0]) + Escape(s[1..])
    else [s[0]] + Escape(s[1..])
  }

  function Quoted(s: JsString): JsString {
    [QUOTE] + (Escape(s) + [QUOTE])
  }

  function Stringify(d: Doc): JsString {
    match d
    case Atom(Null) => NULL_TEXT
    case Atom(Bool(b)) => if b then TRUE_TEXT else FALSE_TEXT
    case Atom(Num(text)) => text
    case Atom(Str(s)) => Quoted(s)
    case Arr(items) => [OPEN_BRACKET] + (PrintItems(items) + [CLOSE_BRACKET])
    case Obj(members) => [OPEN_BRACE] + (PrintMembers(members) + [CLOSE_BRACE])
  }

  function PrintItems(items: seq<Doc>): JsString {
    if items == [] then []
    else if |items| == 1 then Stringify(items[0])
    else Stringify(items[0]) + ([COMMA] + PrintItems(items[1..]))
  }

  function PrintMembers(members: seq<DocMember>): JsString {
    if members == [] then [] else
      assert members decreases to members[0];
      if |members| == 1 then PrintMember(members[0])
      else PrintMember(members[0]) + ([COMMA] + PrintMembers(members[1..]))
  }

  function PrintMember(m: DocMember): JsString {
    Quoted(m.key) + ([COLON] + Stringify(m.value))
  }

  // ---- Numbers ----

  predicate AllUnitDigits(s: JsString) {
    s != [] && forall i :: 0 <= i < |s| ==> IsUnitDigit(s[i])
  }

  predicate IsIntPart(s: JsString) {
    AllUnitDigits(s) && (|s| > 1 ==> s[0] != 48)
  }

  predicate IsExponent(s: JsString) {
    |s| > 1 && s[0] in {69, 101} && (AllUnitDigits(s[1..]) || (s[1] in {43, 45} && AllUnitDigits(s[2..])))
  }

  /** number = [ minus ] int [ frac ] [ exp ], section 6. */
  ghost predicate IsNumber(s: JsString) {
    exists sign, whole, frac, exp ::
      s == sign + (whole + (frac + exp))
      && (sign == [] || sign == [45]) && IsIntPart(whole)
      && (frac == [] || (frac[0] == 46 && AllUnitDigits(frac[1..])))
      && (exp == [] || IsExponent(exp))
  }

  predicate IsNumberUnit(u: Unit) {
    IsUnitDigit(u) || u in {43, 45, 46, 69, 101}
  }

  lemma NumberUnits(s: JsString)
    requires IsNumber(s)
    ensures s != [] && (s[0] == 45 || IsUnitDigit(s[0]))
    ensures forall i :: 0 <= i < |s| ==> IsNumberUnit(s[i])
  {
    var sign, whole, frac, exp :|
      s == sign + (whole + (frac + exp))
      && (sign == [] || sign == [45]) && IsIntPart(whole)
      && (frac == [] || (frac[0] == 46 && AllUnitDigits(frac[1..])))
      && (exp == [] || IsExponent(exp));
    forall i | 0 <= i < |frac| ensures IsNumberUnit(frac[i]) {
      if i > 0 { assert frac[i] == frac[1..][i - 1]; }
    }
    forall i | 0 <= i < |exp| ensures IsNumberUnit(exp[i]) {
      if i > 0 {
        assert exp[i] == exp[1..][i - 1];
        if i > 1 { assert exp[i] == exp[2..][i - 2]; }
      }
    }
  }

  /** The longest prefix of number characters. */
  function NumberPrefix(t: JsString): (n: nat)
    ensures n <= |t|
  {
    if t == [] || !IsNumberUnit(t[0]) then 0 else 1 + NumberPrefix(t[1..])
  }

  // ---- Parsing ----

  predicate IsSpace(u: Unit) {
    u in {32, 9, 10, 13}
  }

  function SkipSpace(t: JsString): (r: JsString)
    ensures |r| <= |t|
  {
    if t != [] && IsSpace(t[0]) then SkipSpace(t[1..]) else t
  }

  function HexValue(u: Unit): Option<nat> {
    if 48 <= u <= 57 then Some(u - 48)
    else if 97 <= u <= 102 then Some(u - 87)
    else if 65 <= u <= 70 then Some(u - 55)
    else None
  }

  function ShortUnescape(u: Unit): Option<Unit> {
    if u == QUOTE || u == BACKSLASH || u == 47 then Some(u)
    else if u == 98 then Some(8)
    else if u == 102 then Some(12)
    else if u == 110 then Some(10)
    else if u == 114 then Some(13)
    else if u == 116 then Some(9)
    else None
  }

  /** The unit after a backslash, and how many units of text it took. */
  function Unescape(t: JsString): (r: Option<(Unit, nat)>)
    ensures r.Some? ==> 0 < r.value.1 <= |t|
  {
    if t == [] then None
    else if t[0] == 117 then
      if |t| < 5 then None else
        var a, b, c, d := HexValue(t[1]), HexValue(t[2]), HexValue(t[3]), HexValue(t[4]);
        if a.Some? && b.Some? && c.Some? && d.Some?
        then Some((4096 * a.value + 256 * b.value + 16 * c.value + d.value, 5)) else None
    else match ShortUnescape(t[0])
      case Some(u) => Some((u, 1))
      case None => None
  }

  /** A string's characters up to its closing quote, and the text after it. */
  function ParseChars(t: JsString): (r: Option<(JsString, JsString)>)
    ensures r.Some? ==> |r.value.1| < |t|
  {
    if t == [] || t[0] < 32 then None
    else if t[0] == QUOTE then Some(([], t[1..]))
    else if t[0] == BACKSLASH then
      match Unescape(t[1..])
      case None => None
      case Some((u, n)) => Prepend(u, ParseChars(t[1 + n..]))
    else Prepend(t[0], ParseChars(t[1..]))
  }

  function Prepend(u: Unit, r: Option<(JsString, JsString)>): Option<(JsString, JsString)> {
    match r
    case None => None
    case Some((s, rest)) => Some(([u] + s, rest))
  }

  ghost function ParseValue(text: JsString): (r: Option<(Doc, JsString)>)
    ensures r.Some? ==> |r.value.1| < |text|
    decreases |text|, 0
  {
    var t := SkipSpace(text);
    if t == [] then None
    else if NULL_TEXT <= t then Some((Atom(Null), t[4..]))
    else if TRUE_TEXT <= t then Some((Atom(Bool(true)), t[4..]))
    else if FALSE_TEXT <= t then Some((Atom(Bool(false)), t[5..]))
    else if t[0] == QUOTE then
      (match ParseChars(t[1..])
       case None => None
       case Some((s, rest)) => Some((Atom(Str(s)), rest)))
    else if t[0] == OPEN_BRACKET then
      var inner := SkipSpace(t[1..]);
      if inner != [] && inner[0] == CLOSE_BRACKET then Some((Arr([]), inner[1..]))
      else match ParseItems(t[1..])
        case None => None
        case Some((items, rest)) => Some((Arr(items), rest))
    else if t[0] == OPEN_BRACE then
      var inner := SkipSpace(t[1..]);
      if inner != [] && inner[0] == CLOSE_BRACE then Some((Obj([]), inner[1..]))
      else match ParseMembers(t[1..])
        case None => None
        case Some((members, rest)) => Some((Obj(members), rest))
    else
      var n := NumberPrefix(t);
      if n > 0 && IsNumber(t[..n]) then Some((Atom(Num(t[..n])), t[n..])) else None
  }

  /** One or more values, separated by commas and closed by a bracket. */
  ghost function ParseItems(t: JsString): (r: Option<(seq<Doc>, JsString)>)
    ensures r.Some? ==> |r.value.1| < |t|
    decreases |t|, 1
  {
    match ParseValue(t)
    case None => None
    case Some((first, after)) =>
      var rest := SkipSpace(after);
      if rest != [] && rest[0] == CLOSE_BRACKET then Some(([first], rest[1..]))
      else if rest != [] && rest[0] == COMMA then
        match ParseItems(rest[1..])
        case None => None
        case Some((more, tail)) => Some(([first] + more, tail))
      else None
  }

  ghost function ParseMember(t: JsString): (r: Option<(DocMember, JsString)>)
    ensures r.Some? ==> |r.value.1| < |t|
    decreases |t|, 1
  {
    var start := SkipSpace(t);
    if start == [] || start[0] != QUOTE then None else
      match ParseChars(start[1..])
      case None => None
      case Some((key, after)) =>
        var colon := SkipSpace(after);
        if colon == [] || colon[0] != COLON then None else
          match ParseValue(colon[1..])
          case None => None
          case Some((value, rest)) => Some((Member(key, value), rest))
  }

  ghost function ParseMembers(t: JsString): (r: Option<(seq<DocMember>, JsString)>)
    ensures r.Some? ==> |r.value.1| < |t|
    decreases |t|, 2
  {
    match ParseMember(t)
    case None => None
    case Some((first, after)) =>
      var rest := SkipSpace(after);
      if rest != [] && rest[0] == CLOSE_BRACE then Some(([first], rest[1..]))
      else if rest != [] && rest[0] == COMMA then
        match ParseMembers(rest[1..])
        case None => None
        case Some((more, tail)) => Some(([first] + more, tail))
      else None
  }

  /** A whole text: one value and nothing but space after it. Members keep their textual order. */
  ghost function ParseText(t: JsString): Option<Doc> {
    match ParseValue(t)
    case None => None
    case Some((d, rest)) => if SkipSpace(rest) == [] then Some(d) else None
  }

  // ---- Parsing undoes printing ----

  ghost predicate NumbersPrintable(d: Doc) {
    match d
    case Atom(Num(text)) => IsNumber(text)
    case Atom(_) => true
    case Arr(items) => forall i :: 0 <= i < |items| ==> NumbersPrintable(items[i])
    case Obj(members) => forall i :: 0 <= i < |members| ==> NumbersPrintable(members[i].value)
  }

  lemma HexRoundTrip(d: nat)
    requires d < 16
    ensures HexValue(HexDigit(d)) == Some(d)
  {
  }

  lemma HexSum(u: Unit)
    ensures 4096 * (u / 4096) + 256 * (u / 256 % 16) + 16 * (u / 16 % 16) + u % 16 == u
  {
    assert u / 16 / 16 == u / 256 && u / 256 / 16 == u / 4096;
  }

  lemma UnescapeUnicode(u: Unit, rest: JsString)
    ensures Unescape(UnicodeEscape(u)[1..] + rest) == Some((u, 5))
  {
    HexRoundTrip(u / 4096);
    HexRoundTrip(u / 256 % 16);
    HexRoundTrip(u / 16 % 16);
    HexRoundTrip(u % 16);
    HexSum(u);
    hide HexDigit, HexValue, ShortUnescape;
    var t := UnicodeEscape(u)[1..] + rest;
    assert t[0] == 117 && |t| >= 5;
    assert t[1] == HexDigit(u / 4096) && t[2] == HexDigit(u / 256 % 16) && t[3] == HexDigit(u / 16 % 16) && t[4] == HexDigit(u % 16);
  }

  /** Reading back one escaped piece. */
  lemma ParsePiece(piece: JsString, u: Unit, tail: JsString)
    requires piece == UnicodeEscape(u)
      || (ShortEscape(u).Some? && piece == [BACKSLASH, ShortEscape(u).value])
      || (ShortEscape(u).None? && u >= 32 && piece == [u])
    ensures ParseChars(piece + tail) == Prepend(u, ParseChars(tail))
  {
    if piece == UnicodeEscape(u) {
      UnescapeUnicode(u, tail);
      ParseEscaped(piece, u, tail, 5);
    } else if ShortEscape(u).Some? {
      assert piece[1..] + tail == [ShortEscape(u).value] + tail;
      ParseEscaped(piece, u, tail, 1);
    } else {
      assert (piece + tail)[1..] == tail;
    }
  }

  lemma ParseEscaped(piece: JsString, u: Unit, tail: JsString, n: nat)
    requires |piece| == n + 1 && piece[0] == BACKSLASH && Unescape(piece[1..] + tail) == Some((u, n))
    ensures ParseChars(piece + tail) == Prepend(u, ParseChars(tail))
  {
    hide Unescape;
    var t := piece + tail;
    assert t[1..] == piece[1..] + tail;
    assert t[1 + n..] == tail;
  }

  function StartsWithPair(s: JsString): bool
    requires s != []
  {
    ShortEscape(s[0]).None? && s[0] >= 32 && IsHigh(s[0]) && |s| > 1 && IsLow(s[1])
  }

  function EscapeOne(u: Unit): JsString {
    if ShortEscape(u).Some? then [BACKSLASH, ShortEscape(u).value]
    else if u < 32 || IsSurrogate(u) then UnicodeEscape(u)
    else [u]
  }

  lemma EscapeStep(s: JsString, end: JsString)
    requires s != []
    ensures StartsWithPair(s) ==> Escape(s) + end == [s[0]] + ([s[1]] + (Escape(s[2..]) + end))
    ensures !StartsWithPair(s) ==> Escape(s) + end == EscapeOne(s[0]) + (Escape(s[1..]) + end)
  {
    hide ShortEscape, UnicodeEscape, IsHigh, IsLow, IsSurrogate;
    if StartsWithPair(s) {
      Associate([s[0]], [s[1]] + Escape(s[2..]), end);
      Associate([s[1]], Escape(s[2..]), end);
    } else {
      Associate(EscapeOne(s[0]), Escape(s[1..]), end);
    }
  }

  lemma Associate(a: JsString, b: JsString, c: JsString)
    ensures (a + b) + c == a + (b + c)
  {
  }

  lemma {:induction false} CharsRoundTrip(s: JsString, rest: JsString)
    ensures ParseChars(Escape(s) + ([QUOTE] + rest)) == Some((s, rest))
  {
    var end := [QUOTE] + rest;
    if s == [] {
      assert [] + end == end && end[1..] == rest;
    } else {
      EscapeStep(s, end);
      hide Escape, ParseChars, UnicodeEscape, EscapeOne;
      if StartsWithPair(s) {
        CharsRoundTrip(s[2..], rest);
        var tail := Escape(s[2..]) + end;
        ParsePiece([s[1]], s[1], tail);
        ParsePiece([s[0]], s[0], [s[1]] + tail);
        assert [s[0]] + ([s[1]] + s[2..]) == s;
      } else {
        CharsRoundTrip(s[1..], rest);
        ParseOne(s[0], Escape(s[1..]) + end);
        assert [s[0]] + s[1..] == s;
      }
    }
  }

  lemma ParseOne(u: Unit, tail: JsString)
    ensures ParseChars(EscapeOne(u) + tail) == Prepend(u, ParseChars(tail))
  {
    ParsePiece(EscapeOne(u), u, tail);
  }

  // ---- Values ----

  /** What may follow a value: nothing that would prolong a number. */
  predicate Ends(rest: JsString) {
    rest == [] || !IsNumberUnit(rest[0])
  }

  lemma {:induction false} NumberPrefixExact(s: JsString, rest: JsString)
    requires Ends(rest) && forall i :: 0 <= i < |s| ==> IsNumberUnit(s[i])
    ensures NumberPrefix(s + rest) == |s|
  {
    if s == [] {
      assert s + rest == rest;
    } else {
      assert (s + rest)[1..] == s[1..] + rest;
      NumberPrefixExact(s[1..], rest);
    }
  }

  lemma NoSpace(t: JsString)
    requires t == [] || !IsSpace(t[0])
    ensures SkipSpace(t) == t
  {
  }

  lemma ParseString(s: JsString, rest: JsString)
    ensures ParseValue(Quoted(s) + rest) == Some((Atom(Str(s)), rest))
  {
    var t := Quoted(s) + rest;
    assert t[1..] == Escape(s) + ([QUOTE] + rest);
    CharsRoundTrip(s, rest);
    NoSpace(t);
    NotLiterals(t);
  }

  /** A text that starts with neither n, t nor f is no literal. */
  lemma NotLiterals(t: JsString)
    requires t != [] && t[0] !in {110, 116, 102}
    ensures !(NULL_TEXT <= t) && !(TRUE_TEXT <= t) && !(FALSE_TEXT <= t)
  {
    assert NULL_TEXT[0] == 110 && TRUE_TEXT[0] == 116 && FALSE_TEXT[0] == 102;
  }

  lemma ParseNumber(text: JsString, rest: JsString)
    requires IsNumber(text) && Ends(rest)
    ensures ParseValue(text + rest) == Some((Atom(Num(text)), rest))
  {
    var t := text + rest;
    NumberUnits(text);
    NumberPrefixExact(text, rest);
    assert t[0] == text[0];
    NoSpace(t);
    NotLiterals(t);
    assert t[..|text|] == text && t[|text|..] == rest;
  }

  lemma ParseLiteral(b: bool, rest: JsString)
    ensures ParseValue(NULL_TEXT + rest) == Some((Atom(Null), rest))
    ensures ParseValue((if b then TRUE_TEXT else FALSE_TEXT) + rest) == Some((Atom(Bool(b)), rest))
  {
    var t := NULL_TEXT + rest;
    NoSpace(t);
    assert t[4..] == rest;
    var u := (if b then TRUE_TEXT else FALSE_TEXT) + rest;
    NoSpace(u);
    assert u[0] == (if b then 116 else 102);
    assert NULL_TEXT[0] == 110 && TRUE_TEXT[0] == 116;
    assert b ==> u[4..] == rest;
    assert !b ==> u[5..] == rest;
  }

  /** A printed value starts with no space and no closing bracket or brace. */
  lemma FirstUnit(d: Doc)
    requires NumbersPrintable(d)
    ensures Stringify(d) != [] && !IsSpace(Stringify(d)[0]) && Stringify(d)[0] !in {CLOSE_BRACKET, CLOSE_BRACE, COMMA}
  {
    if d.Atom? && d.atom.Num? {
      NumberUnits(d.atom.text);
    }
  }

  /** Every printed document parses back to itself, whatever follows it. */
  lemma {:induction false} ValueRoundTrip(d: Doc, rest: JsString)
    requires NumbersPrintable(d) && Ends(rest)
    ensures ParseValue(Stringify(d) + rest) == Some((d, rest))
    decreases d, 0
  {
    hide ParseValue, ParseItems, ParseMembers, Quoted, IsNumber;
    match d
    case Atom(Null) => ParseLiteral(true, rest);
    case Atom(Bool(b)) => ParseLiteral(b, rest);
    case Atom(Num(text)) => ParseNumber(text, rest);
    case Atom(Str(s)) => ParseString(s, rest);
    case Arr(items) =>
      var inner := PrintItems(items) + ([CLOSE_BRACKET] + rest);
      if items != [] {
        ItemsRoundTrip(items, rest);
        ItemsStart(items, [CLOSE_BRACKET] + rest);
      }
      ParseBracketed(items, inner, rest);
      Associate([OPEN_BRACKET], PrintItems(items) + [CLOSE_BRACKET], rest);
      Associate(PrintItems(items), [CLOSE_BRACKET], rest);
    case Obj(members) =>
      var inner := PrintMembers(members) + ([CLOSE_BRACE] + rest);
      if members != [] {
        MembersRoundTrip(members, rest);
      }
      ParseBraced(members, inner, rest);
      Associate([OPEN_BRACE], PrintMembers(members) + [CLOSE_BRACE], rest);
      Associate(PrintMembers(members), [CLOSE_BRACE], rest);
  }

  lemma ItemsStart(items: seq<Doc>, tail: JsString)
    requires items != [] && NumbersPrintable(items[0])
    ensures var t := PrintItems(items) + tail;
      t != [] && !IsSpace(t[0]) && t[0] != CLOSE_BRACKET
  {
    FirstUnit(items[0]);
    assert (PrintItems(items) + tail)[0] == Stringify(items[0])[0];
  }

  lemma ParseBracketed(items: seq<Doc>, inner: JsString, rest: JsString)
    requires items == [] ==> inner == [CLOSE_BRACKET] + rest
    requires items != [] ==> ParseItems(inner) == Some((items, rest))
    requires items != [] ==> inner != [] && !IsSpace(inner[0]) && inner[0] != CLOSE_BRACKET
    ensures ParseValue([OPEN_BRACKET] + inner) == Some((Arr(items), rest))
  {
    hide ParseItems;
    var t := [OPEN_BRACKET] + inner;
    assert t[1..] == inner;
    NoSpace(t);
    NoSpace(inner);
    NotLiterals(t);
    if items == [] {
      assert inner[1..] == rest;
    }
  }

  lemma ParseBraced(members: seq<DocMember>, inner: JsString, rest: JsString)
    requires members == [] ==> inner == [CLOSE_BRACE] + rest
    requires members != [] ==> ParseMembers(inner) == Some((members, rest)) && inner != [] && inner[0] == QUOTE
    ensures ParseValue([OPEN_BRACE] + inner) == Some((Obj(members), rest))
  {
    hide ParseMembers;
    var t := [OPEN_BRACE] + inner;
    assert t[1..] == inner;
    NoSpace(t);
    NoSpace(inner);
    NotLiterals(t);
    if members == [] {
      assert inner[1..] == rest;
    }
  }

  lemma {:induction false} ItemsRoundTrip(items: seq<Doc>, rest: JsString)
    requires items != [] && forall i :: 0 <= i < |items| ==> NumbersPrintable(items[i])
    ensures ParseItems(PrintItems(items) + ([CLOSE_BRACKET] + rest)) == Some((items, rest))
    decreases items, 1
  {
    hide ParseValue, Stringify, NumbersPrintable;
    var end := [CLOSE_BRACKET] + rest;
    if |items| == 1 {
      ValueRoundTrip(items[0], end);
      NoSpace(end);
      assert end[1..] == rest && [items[0]] == items;
    } else {
      var more := PrintItems(items[1..]) + end;
      var after := [COMMA] + more;
      Associate(Stringify(items[0]), [COMMA] + PrintItems(items[1..]), end);
      Associate([COMMA], PrintItems(items[1..]), end);
      ValueRoundTrip(items[0], after);
      NoSpace(after);
      assert after[1..] == more;
      ItemsRoundTrip(items[1..], rest);
      assert [items[0]] + items[1..] == items;
    }
  }

  lemma MemberRoundTrip(m: DocMember, rest: JsString)
    requires ParseValue(Stringify(m.value) + rest) == Some((m.value, rest))
    ensures ParseMember(PrintMember(m) + rest) == Some((m, rest))
  {
    hide ParseValue, Stringify, Escape;
    var value := Stringify(m.value) + rest;
    var after := [COLON] + value;
    var t := PrintMember(m) + rest;
    Associate(Quoted(m.key), [COLON] + Stringify(m.value), rest);
    Associate([COLON], Stringify(m.value), rest);
    Associate([QUOTE], Escape(m.key) + [QUOTE], after);
    Associate(Escape(m.key), [QUOTE], after);
    NoSpace(t);
    assert t[1..] == Escape(m.key) + ([QUOTE] + after);
    CharsRoundTrip(m.key, after);
    NoSpace(after);
    assert after[1..] == value;
  }

  lemma ParseComma(t: JsString, first: DocMember, after: JsString, more: seq<DocMember>, rest: JsString)
    requires ParseMember(t) == Some((first, after)) && after != [] && after[0] == COMMA
    requires ParseMembers(after[1..]) == Some((more, rest))
    ensures ParseMembers(t) == Some(([first] + more, rest))
  {
    NoSpace(after);
    hide ParseMember;
  }

  lemma ParseLast(t: JsString, first: DocMember, rest: JsString)
    requires ParseMember(t) == Some((first, [CLOSE_BRACE] + rest))
    ensures ParseMembers(t) == Some(([first], rest))
  {
    var end := [CLOSE_BRACE] + rest;
    NoSpace(end);
    assert end[1..] == rest;
    hide ParseMember;
  }

  lemma MemberStarts(m: DocMember)
    ensures PrintMember(m) != [] && PrintMember(m)[0] == QUOTE
  {
    hide Escape;
  }

  lemma {:induction false} MembersRoundTrip(members: seq<DocMember>, rest: JsString)
    requires members != [] && forall i :: 0 <= i < |members| ==> NumbersPrintable(members[i].value)
    ensures var t := PrintMembers(members) + ([CLOSE_BRACE] + rest);
      t != [] && t[0] == QUOTE && ParseMembers(t) == Some((members, rest))
    decreases members, 1
  {
    assert members decreases to members[0];
    var end := [CLOSE_BRACE] + rest;
    var first := PrintMember(members[0]);
    MemberStarts(members[0]);
    hide ParseValue, Stringify, NumbersPrintable, ParseMember, ParseMembers, PrintMember;
    if |members| == 1 {
      ValueRoundTrip(members[0].value, end);
      MemberRoundTrip(members[0], end);
      ParseLast(first + end, members[0], rest);
      assert [members[0]] == members;
    } else {
      var more := PrintMembers(members[1..]) + end;
      var after := [COMMA] + more;
      Associate(first, [COMMA] + PrintMembers(members[1..]), end);
      Associate([COMMA], PrintMembers(members[1..]), end);
      ValueRoundTrip(members[0].value, after);
      MemberRoundTrip(members[0], after);
      assert after[1..] == more;
      MembersRoundTrip(members[1..], rest);
      ParseComma(first + after, members[0], after, members[1..], rest);
      assert [members[0]] + members[1..] == members;
    }
  }

  lemma TextRoundTrip(d: Doc)
    requires NumbersPrintable(d)
    ensures ParseText(Stringify(d)) == Some(d)
  {
    ValueRoundTrip(d, []);
    assert Stringify(d) + [] == Stringify(d);
  }

  /** Two documents with one text are the same document. */
  lemma StringifyInjective(a: Doc, b: Doc)
    requires NumbersPrintable(a) && NumbersPrintable(b) && Stringify(a) == Stringify(b)
    ensures a == b
  {
    TextRoundTrip(a);
    TextRoundTrip(b);
  }
}
