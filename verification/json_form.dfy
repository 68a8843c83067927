/** What JSON.stringify prints, character by character: no space, the separators alone, and each escape spelled out. */
module JsonForms {
  import opened Wrappers
  import opened JsStrings
  import opened JsonText

  // ---- Escapes ----

  /** Half of a pair stands beside its other half. */
  predicate Paired(s: JsString, i: nat)
    requires i < |s|
  {
    (IsHigh(s[i]) && i + 1 < |s| && IsLow(s[i + 1])) || (IsLow(s[i]) && i > 0 && IsHigh(s[i - 1]))
  }

  const HEX: string := "0123456789abcdef"

  /** What stands for one code unit: a two-character escape, four lower-case hex digits, or the unit itself. */
  function Piece(s: JsString, i: nat): JsString
    requires i < |s|
  {
    var u := s[i];
    if u == '"' as int then Js("\\\"")
    else if u == '\\' as int then Js("\\\\")
    else if u == 0x08 then Js("\\b")
    else if u == 0x09 then Js("\\t")
    else if u == 0x0A then Js("\\n")
    else if u == 0x0C then Js("\\f")
    else if u == 0x0D then Js("\\r")
    else if u < 0x20 || (IsSurrogate(u) && !Paired(s, i))
    then Js("\\u" + [HEX[u / 0x1000], HEX[u / 0x100 % 0x10], HEX[u / 0x10 % 0x10], HEX[u % 0x10]])
    else [u]
  }

  /** The pieces from position i on. */
  function Pieces(s: JsString, i: nat): JsString
    requires i <= |s|
    decreases |s| - i
  {
    if i == |s| then [] else Piece(s, i) + Pieces(s, i + 1)
  }

  lemma PairText(c: char)
    requires c as int < 0x80
    ensures Js("\\" + [c]) == [BACKSLASH, c as int]
  {
    JsOfPlain("\\" + [c]);
  }

  lemma HexText(u: Unit)
    ensures Js("\\u" + [HEX[u / 0x1000], HEX[u / 0x100 % 0x10], HEX[u / 0x10 % 0x10], HEX[u % 0x10]]) == UnicodeEscape(u)
  {
    var s := "\\u" + [HEX[u / 0x1000], HEX[u / 0x100 % 0x10], HEX[u / 0x10 % 0x10], HEX[u % 0x10]];
    HexLetter(u / 0x1000);
    HexLetter(u / 0x100 % 0x10);
    HexLetter(u / 0x10 % 0x10);
    HexLetter(u % 0x10);
    JsOfPlain(s);
    hide Js, HexDigit;
    assert |Js(s)| == 6;
  }

  lemma HexLetter(d: nat)
    requires d < 16
    ensures HEX[d] as int == HexDigit(d) < 0x80
  {
  }

  lemma ShortPiece(s: JsString, i: nat)
    requires i < |s| && ShortEscape(s[i]).Some?
    ensures Piece(s, i) == [BACKSLASH, ShortEscape(s[i]).value]
  {
    PairText('"');
    PairText('\\');
    PairText('b');
    PairText('f');
    PairText('n');
    PairText('r');
    PairText('t');
    hide Js, Paired;
  }

  lemma LongPiece(s: JsString, i: nat)
    requires i < |s| && ShortEscape(s[i]) == None
    ensures Piece(s, i) == if s[i] < 0x20 || (IsSurrogate(s[i]) && !Paired(s, i)) then UnicodeEscape(s[i]) else [s[i]]
  {
    HexText(s[i]);
    hide Js, UnicodeEscape, Paired;
  }

  lemma SinglePiece(s: JsString, i: nat)
    requires i < |s| && !(IsHigh(s[i]) && i + 1 < |s| && IsLow(s[i + 1])) && (i > 0 ==> !(IsHigh(s[i - 1]) && IsLow(s[i])))
    ensures Escape(s[i..]) == Piece(s, i) + Escape(s[i + 1..])
  {
    if ShortEscape(s[i]).Some? { ShortPiece(s, i); } else { LongPiece(s, i); }
    assert s[i..][1..] == s[i + 1..] && s[i..][0] == s[i];
    hide UnicodeEscape, Js, ShortEscape, Piece;
  }

  lemma PairPieces(s: JsString, i: nat)
    requires i + 1 < |s| && IsHigh(s[i]) && IsLow(s[i + 1])
    ensures Escape(s[i..]) == [s[i]] + ([s[i + 1]] + Escape(s[i + 2..]))
    ensures Piece(s, i) == [s[i]] && Piece(s, i + 1) == [s[i + 1]]
  {
    assert s[i..][2..] == s[i + 2..] && s[i..][0] == s[i] && s[i..][1] == s[i + 1];
    hide Js, UnicodeEscape;
  }

  /** Escaping is escaping each unit in its place; the walk never starts between the halves of a pair. */
  lemma {:induction false} EscapeIsPieces(s: JsString, i: nat)
    requires i <= |s| && (0 < i < |s| ==> !(IsHigh(s[i - 1]) && IsLow(s[i])))
    ensures Escape(s[i..]) == Pieces(s, i)
    decreases |s| - i
  {
    if i < |s| {
      if IsHigh(s[i]) && i + 1 < |s| && IsLow(s[i + 1]) {
        EscapeIsPieces(s, i + 2);
        PairPieces(s, i);
        assert Pieces(s, i) == Piece(s, i) + (Piece(s, i + 1) + Pieces(s, i + 2));
      } else {
        EscapeIsPieces(s, i + 1);
        SinglePiece(s, i);
      }
      hide Escape, Piece;
    }
  }

  // ---- Whole documents ----

  function Joined(parts: seq<JsString>): JsString {
    if parts == [] then [] else if |parts| == 1 then parts[0] else parts[0] + Js(",") + Joined(parts[1..])
  }

  function ItemTexts(items: seq<Doc>): (parts: seq<JsString>)
    ensures |parts| == |items|
  {
    seq(|items|, i requires 0 <= i < |items| => Stringify(items[i]))
  }

  function InQuotes(s: JsString): JsString {
    Js("\"") + Pieces(s, 0) + Js("\"")
  }

  function MemberTexts(members: seq<DocMember>): (parts: seq<JsString>)
    ensures |parts| == |members|
  {
    seq(|members|, i requires 0 <= i < |members| => InQuotes(members[i].key) + Js(":") + Stringify(members[i].value))
  }

  /** Each kind of document in full: literals, quoted pieces, and the parts joined by a comma alone. */
  lemma StringifyIs(d: Doc)
    ensures Stringify(d) == (match d
      case Atom(Null) => Js("null")
      case Atom(Bool(b)) => Js(if b then "true" else "false")
      case Atom(Num(text)) => text
      case Atom(Str(s)) => InQuotes(s)
      case Arr(items) => Js("[") + Joined(ItemTexts(items)) + Js("]")
      case Obj(members) => Js("{") + Joined(MemberTexts(members)) + Js("}"))
  {
    Marks();
    match d
    case Atom(Null) => JsOfPlain("null");
    case Atom(Bool(b)) => JsOfPlain(if b then "true" else "false");
    case Atom(Num(_)) =>
    case Atom(Str(s)) => QuotedIs(s);
    case Arr(items) => ItemsJoined(items);
    case Obj(members) => MembersJoined(members);
  }

  lemma Marks()
    ensures Js("\"") == [QUOTE] && Js(",") == [COMMA] && Js(":") == [COLON]
    ensures Js("[") == [OPEN_BRACKET] && Js("]") == [CLOSE_BRACKET] && Js("{") == [OPEN_BRACE] && Js("}") == [CLOSE_BRACE]
  {
    JsOfPlain("\"");
    JsOfPlain(",");
    JsOfPlain(":");
    JsOfPlain("[");
    JsOfPlain("]");
    JsOfPlain("{");
    JsOfPlain("}");
  }

  lemma QuotedIs(s: JsString)
    ensures Quoted(s) == InQuotes(s)
  {
    Marks();
    EscapeIsPieces(s, 0);
    assert s[0..] == s;
  }

  lemma {:induction false} ItemsJoined(items: seq<Doc>)
    ensures PrintItems(items) == Joined(ItemTexts(items))
    decreases |items|
  {
    Marks();
    hide Stringify, Js;
    if |items| > 1 {
      ItemsJoined(items[1..]);
      assert ItemTexts(items)[1..] == ItemTexts(items[1..]);
    }
  }

  lemma {:induction false} MembersJoined(members: seq<DocMember>)
    ensures PrintMembers(members) == Joined(MemberTexts(members))
    decreases |members|
  {
    Marks();
    hide Stringify, Js, Quoted, InQuotes;
    if members != [] {
      QuotedIs(members[0].key);
      assert MemberTexts(members)[0] == PrintMember(members[0]);
      if |members| > 1 {
        MembersJoined(members[1..]);
        assert MemberTexts(members)[1..] == MemberTexts(members[1..]);
      }
    }
  }
}
