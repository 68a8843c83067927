/** The exact texts that are hashed: a payment authorization's and a signer policy's, character by character. */
module DigestTexts {
  import opened LexOrders
  import opened JsonTrees
  import opened JsStrings
  import opened JsonText
  import opened JsonForms
  import opened Canonical
  import opened PolicyRules
  import opened Digests

  // ---- Records with plain names ----

  /** Printed as it is: no escape, and in the basic plane. */
  predicate Unescaped(s: string) {
    forall i :: 0 <= i < |s| ==> ' ' <= s[i] < '\U{007F}' && s[i] != '"' && s[i] != '\\'
  }

  /** The second name comes later in text order, and neither is an index. */
  predicate NameBefore(a: string, b: string) {
    a != "" && b != "" && 'a' <= a[0] <= 'z' && 'a' <= b[0] <= 'z'
    && exists n :: 0 <= n < |a| && n < |b| && a[..n] == b[..n] && a[n] < b[n]
  }

  predicate NamesAscend(names: seq<string>) {
    (forall i :: 0 <= i < |names| ==> Unescaped(names[i]))
    && forall i :: 0 < i < |names| ==> NameBefore(names[i - 1], names[i])
  }

  lemma NameIsNoIndex(a: string)
    requires a != "" && 'a' <= a[0] <= 'z' && Unescaped(a)
    ensures !IsIndex(Js(a))
  {
    JsOfPlain(a);
    hide Js;
    assert !IsUnitDigit(Js(a)[0]);
  }

  lemma NamesDiffer(a: string, b: string, n: nat)
    requires Unescaped(a) && Unescaped(b) && n < |a| && n < |b| && a[..n] == b[..n] && a[n] < b[n]
    ensures LexLess(Js(a), Js(b))
  {
    JsOfPlain(a);
    JsOfPlain(b);
    hide Js, LexLess;
    forall i | 0 <= i < n ensures Js(a)[i] == Js(b)[i] { assert a[..n][i] == b[..n][i]; }
    assert SmallerAt(Js(a), Js(b), n);
    LexMeansFirstDifference(Js(a), Js(b));
  }

  lemma NamesInOrder(a: string, b: string)
    requires Unescaped(a) && Unescaped(b) && NameBefore(a, b)
    ensures KeyBefore(Js(a), Js(b))
  {
    NameIsNoIndex(a);
    NameIsNoIndex(b);
    var n :| 0 <= n < |a| && n < |b| && a[..n] == b[..n] && a[n] < b[n];
    NamesDiffer(a, b, n);
    hide Js, LexLess, IsIndex, Unescaped;
  }

  lemma {:induction false} AscendingPairs(names: seq<string>, i: nat, j: nat)
    requires NamesAscend(names) && i < j < |names|
    ensures KeyBefore(Js(names[i]), Js(names[j]))
    decreases j
  {
    NamesInOrder(names[j - 1], names[j]);
    if i < j - 1 {
      AscendingPairs(names, i, j - 1);
      KeyBeforeTransitive(Js(names[i]), Js(names[j - 1]), Js(names[j]));
    }
  }

  lemma PlainPiece(s: JsString, i: nat)
    requires i < |s| && 0x20 <= s[i] < 0x7F && s[i] != QUOTE && s[i] != BACKSLASH
    ensures Piece(s, i) == [s[i]]
  {
    hide Js, Paired;
  }

  lemma {:induction false} UnescapedPieces(s: string, i: nat)
    requires Unescaped(s) && i <= |s|
    ensures |Js(s)| == |s| && Pieces(Js(s), i) == Js(s)[i..]
    decreases |s| - i
  {
    JsOfPlain(s);
    if i < |s| {
      UnescapedPieces(s, i + 1);
      hide Js, Piece;
      PlainPiece(Js(s), i);
    }
  }

  lemma QuotedText(s: string)
    requires Unescaped(s)
    ensures InQuotes(Js(s)) == Js("\"" + s + "\"")
  {
    UnescapedPieces(s, 0);
    JsConcat("\"", s);
    JsConcat("\"" + s, "\"");
    hide Js, Pieces;
    assert Js(s)[0..] == Js(s);
  }

  function MemberTexts(names: seq<string>, values: seq<Doc>): (parts: seq<JsString>)
    requires |names| == |values|
    ensures |parts| == |names|
  {
    seq(|names|, i requires 0 <= i < |names| => Js("\"" + names[i] + "\":") + Stringify(values[i]))
  }

  /** A record is printed as its names in quotes, a colon and the value, joined by commas, between braces. */
  lemma RecordText(names: seq<string>, values: seq<Doc>)
    requires |names| == |values| && forall i :: 0 <= i < |names| ==> Unescaped(names[i])
    ensures Stringify(Obj(Named(names, values))) == Js("{") + Joined(MemberTexts(names, values)) + Js("}")
  {
    var ms := Named(names, values);
    StringifyIs(Obj(ms));
    forall i | 0 <= i < |names| ensures JsonForms.MemberTexts(ms)[i] == MemberTexts(names, values)[i] {
      QuotedText(names[i]);
      JsConcat("\"" + names[i] + "\"", ":");
      assert "\"" + names[i] + "\":" == "\"" + names[i] + "\"" + ":";
    }
    assert JsonForms.MemberTexts(ms) == MemberTexts(names, values);
  }

  /** A record listed in ascending order of names, over values in order, is the canonical form of any listing of it. */
  lemma RecordIsCanonical(d: Doc, names: seq<string>, values: seq<Doc>)
    requires IsValue(d) && d.Obj? && |names| == |values| && NamesAscend(names)
    requires DistinctKeys(d.members) && DistinctKeys(Named(names, values)) && AsSet(d.members) == AsSet(Named(names, values))
    requires forall i :: 0 <= i < |values| ==> KeysInOrder(values[i])
    ensures Canonicalize(d) == Obj(Named(names, values))
  {
    var ms := Named(names, values);
    SameSetSameFields(d.members, ms);
    forall i | 0 <= i < |ms| ensures IsValue(ms[i].value) {
      assert ms[i] in AsSet(ms);
    }
    forall i, j | 0 <= i < j < |ms| ensures Precedes(ms[i].key, ms[j].key) {
      AscendingPairs(names, i, j);
      KeyBeforeMeans(ms[i].key, ms[j].key);
    }
    CanonicalFormIsUnique(d, Obj(ms));
  }

  // ---- The payment authorization ----

  const AUTH_ORDER: seq<string> := ["from", "nonce", "to", "validAfter", "validBefore", "value"]

  function AuthOrdered(a: Authorization): seq<Doc> {
    [Text(a.from), Text(a.nonce), Text(a.to), SecondsDoc(a.validAfter), SecondsDoc(a.validBefore), Text(a.value)]
  }

  lemma DifferAt(a: string, b: string, n: nat)
    requires a != "" && b != "" && 'a' <= a[0] <= 'z' && 'a' <= b[0] <= 'z'
    requires n < |a| && n < |b| && (forall i :: 0 <= i < n ==> a[i] == b[i]) && a[n] < b[n]
    ensures NameBefore(a, b)
  {
    assert a[..n] == b[..n];
  }

  lemma AuthNamesPlain()
    ensures |AUTH_ORDER| == 6 && forall i :: 0 <= i < 6 ==> Unescaped(AUTH_ORDER[i])
  {
    var n := AUTH_ORDER;
    assert Unescaped(n[0]) && Unescaped(n[1]) && Unescaped(n[2]) && Unescaped(n[3]) && Unescaped(n[4]) && Unescaped(n[5]);
  }

  lemma AuthNamesBefore()
    ensures NameBefore(AUTH_ORDER[0], AUTH_ORDER[1]) && NameBefore(AUTH_ORDER[1], AUTH_ORDER[2])
    ensures NameBefore(AUTH_ORDER[2], AUTH_ORDER[3]) && NameBefore(AUTH_ORDER[3], AUTH_ORDER[4])
    ensures NameBefore(AUTH_ORDER[4], AUTH_ORDER[5])
  {
    hide NameBefore;
    DifferAt(AUTH_ORDER[0], AUTH_ORDER[1], 0);
    DifferAt(AUTH_ORDER[1], AUTH_ORDER[2], 0);
    DifferAt(AUTH_ORDER[2], AUTH_ORDER[3], 0);
    DifferAt(AUTH_ORDER[3], AUTH_ORDER[4], 5);
    DifferAt(AUTH_ORDER[4], AUTH_ORDER[5], 3);
  }

  lemma AuthNamesAscend()
    ensures NamesAscend(AUTH_ORDER) && DistinctNames(AUTH_ORDER)
  {
    AuthNamesPlain();
    AuthNamesBefore();
    assert NamesAscend(AUTH_ORDER) by { hide NameBefore, Unescaped; }
    hide *;
    AscendingDistinct(AUTH_ORDER);
  }

  lemma AscendingDistinct(names: seq<string>)
    requires NamesAscend(names)
    ensures DistinctNames(names)
  {
    forall i, j | 0 <= i < j < |names| ensures names[i] != names[j] {
      AscendingPairs(names, i, j);
      KeyBeforeIrreflexive(Js(names[i]));
    }
  }

  /** The listing y is the listing x in another order: y[i] is x[to[i]], and x[i] is y[back[i]]. */
  lemma SameMembers(x: seq<DocMember>, y: seq<DocMember>, to: seq<nat>, back: seq<nat>)
    requires |x| == |y| == |to| == |back|
    requires forall i :: 0 <= i < |to| ==> to[i] < |x| && y[i] == x[to[i]]
    requires forall i :: 0 <= i < |back| ==> back[i] < |y| && to[back[i]] == i
    ensures AsSet(x) == AsSet(y)
  {
    forall m | m in AsSet(x) ensures m in AsSet(y) {
      var i :| 0 <= i < |x| && x[i] == m;
      assert y[back[i]] == m;
    }
  }

  lemma Reordered(x: seq<string>, v: seq<Doc>, y: seq<string>, w: seq<Doc>, to: seq<nat>, back: seq<nat>)
    requires |x| == |v| == |y| == |w| == |to| == |back|
    requires forall i :: 0 <= i < |to| ==> to[i] < |x| && y[i] == x[to[i]] && w[i] == v[to[i]]
    requires forall i :: 0 <= i < |back| ==> back[i] < |y| && to[back[i]] == i
    ensures AsSet(Named(x, v)) == AsSet(Named(y, w))
  {
    hide Js, AsSet;
    SameMembers(Named(x, v), Named(y, w), to, back);
  }

  const AUTH_TO: seq<nat> := [0, 5, 1, 3, 4, 2]
  const AUTH_BACK: seq<nat> := [0, 2, 5, 3, 4, 1]

  lemma AuthPermutes(a: Authorization)
    ensures |AUTH_TO| == |AUTH_BACK| == |AuthOrdered(a)| == |AuthValues(a)| == 6
    ensures forall i :: 0 <= i < 6 ==> AUTH_TO[i] < 6 && AUTH_BACK[i] < 6 && AUTH_TO[AUTH_BACK[i]] == i
    ensures forall i :: 0 <= i < 6 ==> AuthOrdered(a)[i] == AuthValues(a)[AUTH_TO[i]]
  {
    hide Text, SecondsDoc;
  }

  lemma AuthNamesPermute()
    ensures |AUTH_ORDER| == |AUTH_FIELDS| == 6 == |AUTH_TO|
    ensures forall i :: 0 <= i < 6 ==> AUTH_TO[i] < 6 && AUTH_ORDER[i] == AUTH_FIELDS[AUTH_TO[i]]
  {
  }

  lemma AuthMembers(a: Authorization)
    ensures AsSet(Named(AUTH_FIELDS, AuthValues(a))) == AsSet(Named(AUTH_ORDER, AuthOrdered(a)))
  {
    AuthPermutes(a);
    AuthNamesPermute();
    hide *;
    Reordered(AUTH_FIELDS, AuthValues(a), AUTH_ORDER, AuthOrdered(a), AUTH_TO, AUTH_BACK);
  }

  /** One member: its name in quotes, a colon, its value. */
  function Entry(name: string, value: string): string {
    "\"" + name + "\":" + value
  }

  function InText(s: string): string {
    "\"" + s + "\""
  }

  function SecondsText(s: Seconds): string {
    match s
    case Digits(t) => InText(t)
    case Number(t) => t
  }

  /** The six members, in the order in which they are hashed. */
  function AuthParts(a: Authorization): seq<string> {
    [Entry("from", InText(a.from)), Entry("nonce", InText(a.nonce)), Entry("to", InText(a.to)),
     Entry("validAfter", SecondsText(a.validAfter)), Entry("validBefore", SecondsText(a.validBefore)),
     Entry("value", InText(a.value))]
  }

  function CommaJoined(parts: seq<string>): string {
    if parts == [] then "" else if |parts| == 1 then parts[0] else parts[0] + "," + CommaJoined(parts[1..])
  }

  lemma {:induction false} JoinedTexts(parts: seq<string>, texts: seq<JsString>)
    requires |parts| == |texts| && forall i :: 0 <= i < |parts| ==> texts[i] == Js(parts[i])
    ensures Joined(texts) == Js(CommaJoined(parts))
  {
    if |parts| > 1 {
      JoinedTexts(parts[1..], texts[1..]);
      JsConcat(parts[0], ",");
      JsConcat(parts[0] + ",", CommaJoined(parts[1..]));
    }
  }

  lemma ValuePrints(name: string, s: string)
    requires Unescaped(s)
    ensures Js("\"" + name + "\":") + Stringify(Text(s)) == Js(Entry(name, InText(s)))
  {
    StringifyIs(Text(s));
    QuotedText(s);
    JsConcat("\"" + name + "\":", InText(s));
  }

  lemma SecondsPrint(name: string, s: Seconds)
    requires SecondsValid(s)
    ensures Js("\"" + name + "\":") + Stringify(SecondsDoc(s)) == Js(Entry(name, SecondsText(s)))
  {
    match s
    case Digits(t) => ValuePrints(name, t);
    case Number(t) =>
      StringifyIs(SecondsDoc(s));
      JsConcat("\"" + name + "\":", t);
  }

  /** canonicalJson of an authorization, letter for letter: what the payload hash is taken of. */
  lemma AuthorizationText(a: Authorization)
    requires AuthValid(a)
    ensures CanonicalJson(AuthDoc(a)) == Js("{" + CommaJoined(AuthParts(a)) + "}")
  {
    AuthIsValue(a);
    AuthNamesAscend();
    AuthFieldsDistinct();
    NamedDistinct(AUTH_FIELDS, AuthValues(a));
    NamedDistinct(AUTH_ORDER, AuthOrdered(a));
    AuthMembers(a);
    RecordIsCanonical(AuthDoc(a), AUTH_ORDER, AuthOrdered(a));
    RecordText(AUTH_ORDER, AuthOrdered(a));
    AuthMemberTexts(a);
    JoinedTexts(AuthParts(a), MemberTexts(AUTH_ORDER, AuthOrdered(a)));
    JsConcat("{", CommaJoined(AuthParts(a)));
    JsConcat("{" + CommaJoined(AuthParts(a)), "}");
  }

  lemma AuthMemberTexts(a: Authorization)
    requires AuthValid(a)
    ensures var texts := MemberTexts(AUTH_ORDER, AuthOrdered(a));
      |texts| == |AuthParts(a)| && forall i :: 0 <= i < |texts| ==> texts[i] == Js(AuthParts(a)[i])
  {
    hide Js, Stringify, Text, SecondsDoc, SecondsText, Entry, InText;
    var n := AUTH_ORDER;
    ValuePrints(n[0], a.from);
    ValuePrints(n[1], a.nonce);
    ValuePrints(n[2], a.to);
    SecondsPrint(n[3], a.validAfter);
    SecondsPrint(n[4], a.validBefore);
    ValuePrints(n[5], a.value);
  }

  // ---- The signer policy ----

  const POLICY_ORDER: seq<string> := [
    "allowedChainIds", "allowedContractPackages", "allowedReceivers", "allowedTokens", "maxSinglePaymentAtomic",
    "perDayCapAtomic", "receiverPolicy", "requireTraceId", "signerRole"
  ]

  function PolicyOrdered(p: SignerPolicy): seq<Doc> {
    [Texts(p.allowedChainIds), Texts(p.allowedContractPackages), Texts(p.allowedReceivers), Texts(p.allowedTokens),
     Text(p.maxSinglePaymentAtomic), Text(p.perDayCapAtomic), Text(ReceiverPolicyText(p.receiverPolicy)),
     Atom(Bool(p.requireTraceId)), Text(p.signerRole)]
  }

  const POLICY_TO: seq<nat> := [1, 2, 5, 3, 6, 7, 4, 8, 0]
  const POLICY_BACK: seq<nat> := [8, 0, 1, 3, 6, 2, 4, 5, 7]

  lemma PolicyNamesPlain()
    ensures |POLICY_ORDER| == 9 && forall i :: 0 <= i < 9 ==> Unescaped(POLICY_ORDER[i])
  {
    PolicyNamesPlainFrom0();
    PolicyNamesPlainFrom3();
    PolicyNamesPlainFrom6();
    hide Unescaped;
    var n := POLICY_ORDER;
    forall i | 0 <= i < 9 ensures Unescaped(n[i]) {
      assert i == 0 || i == 1 || i == 2 || i == 3 || i == 4 || i == 5 || i == 6 || i == 7 || i == 8;
    }
  }

  lemma PolicyNamesPlainFrom0()
    ensures Unescaped(POLICY_ORDER[0]) && Unescaped(POLICY_ORDER[1]) && Unescaped(POLICY_ORDER[2])
  {
  }

  lemma PolicyNamesPlainFrom3()
    ensures Unescaped(POLICY_ORDER[3]) && Unescaped(POLICY_ORDER[4]) && Unescaped(POLICY_ORDER[5])
  {
  }

  lemma PolicyNamesPlainFrom6()
    ensures Unescaped(POLICY_ORDER[6]) && Unescaped(POLICY_ORDER[7]) && Unescaped(POLICY_ORDER[8])
  {
  }

  lemma PolicyNamesBefore()
    ensures forall i :: 0 < i < 9 ==> NameBefore(POLICY_ORDER[i - 1], POLICY_ORDER[i])
  {
    hide NameBefore;
    var n := POLICY_ORDER;
    DifferAt(n[0], n[1], 8);
    DifferAt(n[1], n[2], 7);
    DifferAt(n[2], n[3], 7);
    DifferAt(n[3], n[4], 0);
    DifferAt(n[4], n[5], 0);
    DifferAt(n[5], n[6], 0);
    DifferAt(n[6], n[7], 2);
    DifferAt(n[7], n[8], 0);
    forall i | 0 < i < 9 ensures NameBefore(n[i - 1], n[i]) {
      assert i == 1 || i == 2 || i == 3 || i == 4 || i == 5 || i == 6 || i == 7 || i == 8;
    }
  }

  lemma PolicyNamesAscend()
    ensures NamesAscend(POLICY_ORDER) && DistinctNames(POLICY_ORDER)
  {
    PolicyNamesPlain();
    PolicyNamesBefore();
    assert NamesAscend(POLICY_ORDER) by { hide NameBefore, Unescaped; }
    hide *;
    AscendingDistinct(POLICY_ORDER);
  }

  lemma PolicyPermutes(p: SignerPolicy)
    ensures |POLICY_TO| == |POLICY_BACK| == |PolicyOrdered(p)| == |PolicyValues(p)| == 9
    ensures forall i :: 0 <= i < 9 ==> POLICY_TO[i] < 9 && POLICY_BACK[i] < 9 && POLICY_TO[POLICY_BACK[i]] == i
    ensures forall i :: 0 <= i < 9 ==> PolicyOrdered(p)[i] == PolicyValues(p)[POLICY_TO[i]]
  {
    hide Text, Texts, ReceiverPolicyText;
  }

  lemma PolicyNamesPermute()
    ensures |POLICY_ORDER| == |POLICY_FIELDS| == 9 == |POLICY_TO|
    ensures forall i :: 0 <= i < 9 ==> POLICY_TO[i] < 9 && POLICY_ORDER[i] == POLICY_FIELDS[POLICY_TO[i]]
  {
  }

  lemma PolicyMembers(p: SignerPolicy)
    ensures AsSet(Named(POLICY_FIELDS, PolicyValues(p))) == AsSet(Named(POLICY_ORDER, PolicyOrdered(p)))
  {
    PolicyPermutes(p);
    PolicyNamesPermute();
    hide *;
    Reordered(POLICY_FIELDS, PolicyValues(p), POLICY_ORDER, PolicyOrdered(p), POLICY_TO, POLICY_BACK);
  }

  lemma TextsInOrder(ss: seq<string>)
    ensures KeysInOrder(Texts(ss))
  {
    TextListIsValue(ss);
  }

  lemma PolicyValuesInOrder(p: SignerPolicy)
    ensures forall i :: 0 <= i < |PolicyOrdered(p)| ==> KeysInOrder(PolicyOrdered(p)[i])
  {
    TextsInOrder(p.allowedChainIds);
    TextsInOrder(p.allowedContractPackages);
    TextsInOrder(p.allowedReceivers);
    TextsInOrder(p.allowedTokens);
    hide Js, Texts, ReceiverPolicyText;
  }

  /** canonicalJson of a policy: its nine names in this order, each with its own field's text. */
  lemma PolicyText(p: SignerPolicy)
    ensures CanonicalJson(PolicyDoc(p)) == Js("{") + Joined(MemberTexts(POLICY_ORDER, PolicyOrdered(p))) + Js("}")
  {
    PolicyIsValue(p);
    PolicyNamesAscend();
    PolicyFieldsDistinct();
    PolicyPermutes(p);
    PolicyNamesPermute();
    PolicyMembers(p);
    PolicyValuesInOrder(p);
    assert NamesAscend(POLICY_ORDER) ==> forall i :: 0 <= i < |POLICY_ORDER| ==> Unescaped(POLICY_ORDER[i]) by { hide NameBefore, Unescaped; }
    assert PolicyDoc(p) == Obj(Named(POLICY_FIELDS, PolicyValues(p)));
    assert CanonicalJson(PolicyDoc(p)) == Stringify(Canonicalize(PolicyDoc(p)));
    hide *;
    NamedDistinct(POLICY_FIELDS, PolicyValues(p));
    NamedDistinct(POLICY_ORDER, PolicyOrdered(p));
    RecordIsCanonical(PolicyDoc(p), POLICY_ORDER, PolicyOrdered(p));
    RecordText(POLICY_ORDER, PolicyOrdered(p));
  }
}
