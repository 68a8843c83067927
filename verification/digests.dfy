/** The documents the program digests: a signer policy and a payment authorization. */
module Digests {
  import opened Decimal
  import opened JsonTrees
  import opened JsStrings
  import opened JsonText
  import opened Canonical
  import opened PolicyRules

  ghost predicate Injective(hash: JsString -> string) {
    forall a, b :: hash(a) == hash(b) ==> a == b
  }

  /** canonicalSha256Hex with an abstract hash; JSON.stringify escapes lone surrogates, so UTF-8 loses nothing. */
  function Digest(hash: JsString -> string, d: Doc): string {
    hash(CanonicalJson(d))
  }

  function Text(s: string): Doc {
    Atom(Str(Js(s)))
  }

  function Texts(ss: seq<string>): Doc {
    Arr(TextList(ss))
  }

  function TextList(ss: seq<string>): seq<Doc> {
    if ss == [] then [] else [Text(ss[0])] + TextList(ss[1..])
  }

  lemma {:induction false} TextListIsValue(ss: seq<string>)
    ensures |TextList(ss)| == |ss| && forall i :: 0 <= i < |ss| ==> TextList(ss)[i] == Text(ss[i])
  {
    if ss != [] {
      TextListIsValue(ss[1..]);
    }
  }

  lemma TextsMeaning(a: seq<string>, b: seq<string>)
    requires MeaningOf(Texts(a)) == MeaningOf(Texts(b))
    ensures a == b
  {
    TextListIsValue(a);
    TextListIsValue(b);
    ItemsAt(TextList(a));
    ItemsAt(TextList(b));
    forall i | 0 <= i < |a| ensures a[i] == b[i] {
      assert MeaningOfItems(TextList(a))[i] == MeaningOfItems(TextList(b))[i];
      JsInjective(a[i], b[i]);
    }
  }

  /** Members named by distinct strings. */
  function Named(names: seq<string>, values: seq<Doc>): (ms: seq<DocMember>)
    requires |names| == |values|
    ensures |ms| == |names|
    ensures forall i :: 0 <= i < |ms| ==> ms[i] == Member(Js(names[i]), values[i])
  {
    seq(|names|, i requires 0 <= i < |names| => Member(Js(names[i]), values[i]))
  }

  predicate DistinctNames(names: seq<string>) {
    forall i, j :: 0 <= i < j < |names| ==> names[i] != names[j]
  }

  lemma NamedDistinct(names: seq<string>, values: seq<Doc>)
    requires |names| == |values| && DistinctNames(names)
    ensures DistinctKeys(Named(names, values))
  {
    forall i, j | 0 <= i < j < |names| ensures Js(names[i]) != Js(names[j]) {
      if Js(names[i]) == Js(names[j]) {
        JsInjective(names[i], names[j]);
      }
    }
  }

  /** Records with the same field names are equal in meaning exactly when their fields are. */
  lemma FieldsDecide(names: seq<string>, a: seq<Doc>, b: seq<Doc>)
    requires |names| == |a| == |b| && DistinctNames(names)
    requires MeaningOf(Obj(Named(names, a))) == MeaningOf(Obj(Named(names, b)))
    ensures forall i :: 0 <= i < |a| ==> MeaningOf(a[i]) == MeaningOf(b[i])
  {
    hide MeaningOf;
    NamedDistinct(names, a);
    NamedDistinct(names, b);
    var ma, mb := Named(names, a), Named(names, b);
    assert MeaningOfMembers(ma) == MeaningOfMembers(mb) by { ObjectMeaning(ma, mb); }
    FieldsAt(ma);
    FieldsAt(mb);
    forall i | 0 <= i < |a| ensures MeaningOf(a[i]) == MeaningOf(b[i]) {
      assert ma[i].key == mb[i].key;
    }
  }

  lemma ObjectMeaning(ma: seq<DocMember>, mb: seq<DocMember>)
    requires MeaningOf(Obj(ma)) == MeaningOf(Obj(mb))
    ensures MeaningOfMembers(ma) == MeaningOfMembers(mb)
  {
  }

  // ---- The signer policy ----

  const POLICY_FIELDS: seq<string> := [
    "signerRole", "allowedChainIds", "allowedContractPackages", "allowedTokens", "receiverPolicy",
    "allowedReceivers", "maxSinglePaymentAtomic", "perDayCapAtomic", "requireTraceId"
  ]

  function ReceiverPolicyText(r: ReceiverPolicy): string {
    match r
    case DenyAll => "deny_all"
    case Allowlist => "allowlist"
    case AllowAnyWithManualApproval => "allow_any_with_manual_approval"
  }

  function PolicyValues(p: SignerPolicy): seq<Doc> {
    [Text(p.signerRole), Texts(p.allowedChainIds), Texts(p.allowedContractPackages), Texts(p.allowedTokens),
     Text(ReceiverPolicyText(p.receiverPolicy)), Texts(p.allowedReceivers), Text(p.maxSinglePaymentAtomic),
     Text(p.perDayCapAtomic), Atom(Bool(p.requireTraceId))]
  }

  function PolicyDoc(p: SignerPolicy): Doc {
    Obj(Named(POLICY_FIELDS, PolicyValues(p)))
  }

  /** A name told apart by its length and its third character. */
  function Fingerprint(s: string): (int, int)
    requires |s| > 2
  {
    (|s|, s[2] as int)
  }

  lemma PolicyFieldsDistinct()
    ensures DistinctNames(POLICY_FIELDS)
  {
    var n := POLICY_FIELDS;
    assert Fingerprint(n[0]) == (10, 'g' as int) && Fingerprint(n[1]) == (15, 'l' as int) && Fingerprint(n[2]) == (23, 'l' as int);
    assert Fingerprint(n[3]) == (13, 'l' as int) && Fingerprint(n[4]) == (14, 'c' as int) && Fingerprint(n[5]) == (16, 'l' as int);
    assert Fingerprint(n[6]) == (22, 'x' as int) && Fingerprint(n[7]) == (15, 'r' as int) && Fingerprint(n[8]) == (14, 'q' as int);
  }

  lemma TextMeaning(s: string, t: string)
    requires MeaningOf(Text(s)) == MeaningOf(Text(t))
    ensures s == t
  {
    JsInjective(s, t);
  }

  lemma NamedIsValue(names: seq<string>, values: seq<Doc>)
    requires |names| == |values| && DistinctNames(names)
    requires forall i :: 0 <= i < |values| ==> IsValue(values[i])
    ensures IsValue(Obj(Named(names, values)))
  {
    NamedDistinct(names, values);
  }

  lemma TextsIsValue(ss: seq<string>)
    ensures IsValue(Texts(ss))
  {
    TextListIsValue(ss);
  }

  lemma TextIsValue(s: string)
    ensures IsValue(Text(s))
  {
  }

  lemma PolicyValuesAreValues(p: SignerPolicy)
    ensures |PolicyValues(p)| == 9 && forall i :: 0 <= i < 9 ==> IsValue(PolicyValues(p)[i])
  {
    PolicyValueAt(p);
    TextsIsValue(p.allowedChainIds);
    TextsIsValue(p.allowedContractPackages);
    TextsIsValue(p.allowedTokens);
    TextsIsValue(p.allowedReceivers);
    TextIsValue(p.signerRole);
    TextIsValue(ReceiverPolicyText(p.receiverPolicy));
    TextIsValue(p.maxSinglePaymentAtomic);
    TextIsValue(p.perDayCapAtomic);
    var last := Atom(Bool(p.requireTraceId));
    assert IsValue(last);
    hide *;
    var v := PolicyValues(p);
    assert IsValue(v[0]) && IsValue(v[1]) && IsValue(v[2]) && IsValue(v[3]) && IsValue(v[4]);
    assert IsValue(v[5]) && IsValue(v[6]) && IsValue(v[7]) && IsValue(v[8]);
  }

  lemma PolicyIsValue(p: SignerPolicy)
    ensures IsValue(PolicyDoc(p))
  {
    PolicyFieldsDistinct();
    PolicyValuesAreValues(p);
    hide PolicyValues, IsValue, DistinctNames;
    NamedIsValue(POLICY_FIELDS, PolicyValues(p));
  }

  /** computePolicyDigest names a policy: two policies share a digest only if they are the same. */
  lemma PolicyDigestIdentifies(hash: JsString -> string, p: SignerPolicy, q: SignerPolicy)
    requires Injective(hash)
    ensures Digest(hash, PolicyDoc(p)) == Digest(hash, PolicyDoc(q)) <==> p == q
  {
    if Digest(hash, PolicyDoc(p)) == Digest(hash, PolicyDoc(q)) {
      PolicyIsValue(p);
      PolicyIsValue(q);
      CanonicalJsonIdentifies(PolicyDoc(p), PolicyDoc(q));
      PolicyFieldsDistinct();
      FieldsDecide(POLICY_FIELDS, PolicyValues(p), PolicyValues(q));
      PolicyValuesDecide(p, q);
    }
  }

  lemma PolicyValueAt(p: SignerPolicy)
    ensures var v := PolicyValues(p);
      |v| == 9
      && v[0] == Text(p.signerRole) && v[1] == Texts(p.allowedChainIds) && v[2] == Texts(p.allowedContractPackages)
      && v[3] == Texts(p.allowedTokens) && v[4] == Text(ReceiverPolicyText(p.receiverPolicy)) && v[5] == Texts(p.allowedReceivers)
      && v[6] == Text(p.maxSinglePaymentAtomic) && v[7] == Text(p.perDayCapAtomic) && v[8] == Atom(Bool(p.requireTraceId))
  {
    hide Text, Texts, ReceiverPolicyText;
  }

  lemma PolicyValuesDecide(p: SignerPolicy, q: SignerPolicy)
    requires |PolicyValues(p)| == |PolicyValues(q)| == 9
    requires forall i :: 0 <= i < 9 ==> MeaningOf(PolicyValues(p)[i]) == MeaningOf(PolicyValues(q)[i])
    ensures p == q
  {
    PolicyValueAt(p);
    PolicyValueAt(q);
    ReceiverPolicyTexts(p.receiverPolicy, q.receiverPolicy);
    hide MeaningOf, PolicyValues, Text, Texts, ReceiverPolicyText;
    var a, b := PolicyValues(p), PolicyValues(q);
    assert forall i :: 0 <= i < 9 ==> MeaningOf(a[i]) == MeaningOf(b[i]);
    assert MeaningOf(a[0]) == MeaningOf(b[0]) && MeaningOf(a[1]) == MeaningOf(b[1]) && MeaningOf(a[2]) == MeaningOf(b[2]);
    assert MeaningOf(a[3]) == MeaningOf(b[3]) && MeaningOf(a[4]) == MeaningOf(b[4]) && MeaningOf(a[5]) == MeaningOf(b[5]);
    assert MeaningOf(a[6]) == MeaningOf(b[6]) && MeaningOf(a[7]) == MeaningOf(b[7]) && MeaningOf(a[8]) == MeaningOf(b[8]);
    TextMeaning(p.signerRole, q.signerRole);
    TextsMeaning(p.allowedChainIds, q.allowedChainIds);
    TextsMeaning(p.allowedContractPackages, q.allowedContractPackages);
    TextsMeaning(p.allowedTokens, q.allowedTokens);
    TextMeaning(ReceiverPolicyText(p.receiverPolicy), ReceiverPolicyText(q.receiverPolicy));
    TextsMeaning(p.allowedReceivers, q.allowedReceivers);
    TextMeaning(p.maxSinglePaymentAtomic, q.maxSinglePaymentAtomic);
    TextMeaning(p.perDayCapAtomic, q.perDayCapAtomic);
    BoolMeaning(p.requireTraceId, q.requireTraceId);
  }

  lemma ReceiverPolicyTexts(a: ReceiverPolicy, b: ReceiverPolicy)
    ensures ReceiverPolicyText(a) == ReceiverPolicyText(b) ==> a == b
  {
    assert |ReceiverPolicyText(DenyAll)| == 8 && |ReceiverPolicyText(Allowlist)| == 9;
    assert |ReceiverPolicyText(AllowAnyWithManualApproval)| == 30;
  }

  lemma BoolMeaning(a: bool, b: bool)
    requires MeaningOf(Atom(Bool(a))) == MeaningOf(Atom(Bool(b)))
    ensures a == b
  {
  }

  // ---- The payment authorization ----

  /** UnixSecondsString: digits, or a non-negative integer carried by its text. */
  datatype Seconds = Digits(s: string) | Number(text: string)

  datatype Authorization = Authorization(
    from: string, to: string, value: string, validAfter: Seconds, validBefore: Seconds, nonce: string)

  const AUTH_FIELDS: seq<string> := ["from", "to", "value", "validAfter", "validBefore", "nonce"]

  function SecondsDoc(s: Seconds): Doc {
    match s
    case Digits(t) => Text(t)
    case Number(t) => Atom(Num(Js(t)))
  }

  function AuthValues(a: Authorization): seq<Doc> {
    [Text(a.from), Text(a.to), Text(a.value), SecondsDoc(a.validAfter), SecondsDoc(a.validBefore), Text(a.nonce)]
  }

  function AuthDoc(a: Authorization): Doc {
    Obj(Named(AUTH_FIELDS, AuthValues(a)))
  }

  predicate SecondsValid(s: Seconds) {
    match s
    case Digits(t) => AllDigits(t)
    case Number(t) => AllDigits(t) && !HasLeadingZero(t) && |t| <= 21
  }

  /** AuthorizationSchema. */
  predicate AuthValid(a: Authorization) {
    && IsAccountAddress(a.from) && IsAccountAddress(a.to) && AllDigits(a.value)
    && SecondsValid(a.validAfter) && SecondsValid(a.validBefore) && IsLowerHex(a.nonce, 64)
  }

  lemma AuthFieldsDistinct()
    ensures DistinctNames(AUTH_FIELDS)
  {
    var n := AUTH_FIELDS;
    assert |n[0]| == 4 && |n[1]| == 2 && |n[2]| == 5 && |n[3]| == 10 && |n[4]| == 11 && |n[5]| == 5;
    assert n[2][0] == 'v' && n[5][0] == 'n';
  }

  lemma IntegerTextIsNumber(t: string)
    requires AllDigits(t) && !HasLeadingZero(t)
    ensures IsNumber(Js(t))
  {
    JsOfPlain(t);
    var n := Js(t);
    assert n == [] + (n + ([] + []));
    assert IsIntPart(n);
  }

  lemma AuthIsValue(a: Authorization)
    requires AuthValid(a)
    ensures IsValue(AuthDoc(a))
  {
    AuthFieldsDistinct();
    if a.validAfter.Number? { IntegerTextIsNumber(a.validAfter.text); }
    if a.validBefore.Number? { IntegerTextIsNumber(a.validBefore.text); }
    hide IsNumber;
    forall i | 0 <= i < 6 ensures IsValue(AuthValues(a)[i]) {}
    NamedIsValue(AUTH_FIELDS, AuthValues(a));
  }

  lemma SecondsMeaning(a: Seconds, b: Seconds)
    requires MeaningOf(SecondsDoc(a)) == MeaningOf(SecondsDoc(b))
    ensures a == b
  {
    match (a, b)
    case (Digits(s), Digits(t)) => JsInjective(s, t);
    case (Number(s), Number(t)) => JsInjective(s, t);
    case _ =>
  }

  /** The payload hash names the authorization's content. */
  lemma PayloadHashIdentifies(hash: JsString -> string, a: Authorization, b: Authorization)
    requires Injective(hash) && AuthValid(a) && AuthValid(b)
    ensures Digest(hash, AuthDoc(a)) == Digest(hash, AuthDoc(b)) <==> a == b
  {
    if Digest(hash, AuthDoc(a)) == Digest(hash, AuthDoc(b)) {
      AuthIsValue(a);
      AuthIsValue(b);
      CanonicalJsonIdentifies(AuthDoc(a), AuthDoc(b));
      AuthFieldsDistinct();
      FieldsDecide(AUTH_FIELDS, AuthValues(a), AuthValues(b));
      AuthValuesDecide(a, b);
    }
  }

  lemma AuthValuesDecide(a: Authorization, b: Authorization)
    requires forall i :: 0 <= i < 6 ==> MeaningOf(AuthValues(a)[i]) == MeaningOf(AuthValues(b)[i])
    ensures a == b
  {
    hide MeaningOf;
    var x, y := AuthValues(a), AuthValues(b);
    assert MeaningOf(x[0]) == MeaningOf(y[0]);
    TextMeaning(a.from, b.from);
    assert MeaningOf(x[1]) == MeaningOf(y[1]);
    TextMeaning(a.to, b.to);
    assert MeaningOf(x[2]) == MeaningOf(y[2]);
    TextMeaning(a.value, b.value);
    assert MeaningOf(x[3]) == MeaningOf(y[3]);
    SecondsMeaning(a.validAfter, b.validAfter);
    assert MeaningOf(x[4]) == MeaningOf(y[4]);
    SecondsMeaning(a.validBefore, b.validBefore);
    assert MeaningOf(x[5]) == MeaningOf(y[5]);
    TextMeaning(a.nonce, b.nonce);
  }
}
