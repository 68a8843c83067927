/** What the header decoder accepts: exactly the documents that mean a valid payload. */
module HeaderMeanings {
  import opened Wrappers
  import opened JsonTrees
  import opened JsStrings
  import opened JsonText
  import opened Canonical
  import opened Digests
  import opened PaymentHeader

  // ---- What JSON.parse builds has each key once ----

  predicate Unique(d: Doc) {
    match d
    case Atom(_) => true
    case Arr(items) => forall i :: 0 <= i < |items| ==> Unique(items[i])
    case Obj(members) => DistinctKeys(members) && forall i :: 0 <= i < |members| ==> Unique(members[i].value)
  }

  /** Distinct keys, and every value taken from one of two lists. */
  predicate Draws(ms: seq<DocMember>, from: seq<DocMember>, more: seq<DocMember>) {
    DistinctKeys(ms) && forall i :: 0 <= i < |ms| ==> ms[i] in from || ms[i] in more
  }

  lemma PutDraws(ms: seq<DocMember>, m: DocMember)
    requires DistinctKeys(ms)
    ensures Draws(Put(ms, m), ms, [m])
  {
    var out := Put(ms, m);
    if exists i :: 0 <= i < |ms| && ms[i].key == m.key {
      FirstWithKey(ms, m.key);
      var i :| 0 <= i < |ms| && ms[i].key == m.key && out == ms[i := m];
      forall a, b | 0 <= a < b < |out| ensures out[a].key != out[b].key {
        assert out[a].key == ms[a].key && out[b].key == ms[b].key;
      }
    } else {
      var n := if IsIndex(m.key) then IndexSlot(ms, m.key) else |ms|;
      assert out == ms[..n] + [m] + ms[n..];
      forall a, b | 0 <= a < b < |out| ensures out[a].key != out[b].key {
        assert a < n ==> out[a] == ms[a];
        assert b < n ==> out[b] == ms[b];
        assert a > n ==> out[a] == ms[a - 1];
        assert b > n ==> out[b] == ms[b - 1];
      }
    }
  }

  lemma {:induction false} FirstWithKey(ms: seq<DocMember>, key: JsString)
    requires exists i :: 0 <= i < |ms| && ms[i].key == key
    ensures exists i :: 0 <= i < |ms| && ms[i].key == key && forall j :: 0 <= j < i ==> ms[j].key != key
  {
    if ms[0].key != key {
      var i :| 0 <= i < |ms| && ms[i].key == key;
      var rest := ms[1..];
      assert rest[i - 1] == ms[i];
      FirstWithKey(rest, key);
      var k :| 0 <= k < |rest| && rest[k].key == key && forall j :: 0 <= j < k ==> rest[j].key != key;
      assert ms[k + 1] == rest[k];
      forall j | 0 < j < k + 1 ensures ms[j].key != key {
        assert rest[j - 1] == ms[j];
      }
    }
  }

  lemma {:induction false} PutAllDraws(ms: seq<DocMember>, more: seq<DocMember>)
    requires DistinctKeys(ms)
    ensures Draws(PutAll(ms, more), ms, more)
    decreases |more|
  {
    if more != [] {
      PutDraws(ms, more[0]);
      hide Put, DistinctKeys;
      PutAllDraws(Put(ms, more[0]), more[1..]);
    }
  }

  lemma {:induction false} BuildIsUnique(d: Doc)
    ensures Unique(Build(d))
    decreases d, 0
  {
    match d
    case Atom(_) =>
    case Arr(items) => BuildItemsUnique(items);
    case Obj(members) =>
      BuildMembersUnique(members);
      PutAllDraws([], BuildMembers(members));
      hide PutAll, BuildMembers, DistinctKeys;
  }

  lemma {:induction false} BuildItemsUnique(items: seq<Doc>)
    ensures forall x :: x in BuildItems(items) ==> Unique(x)
    decreases items, 1
  {
    if items != [] {
      BuildIsUnique(items[0]);
      BuildItemsUnique(items[1..]);
    }
  }

  lemma {:induction false} BuildMembersUnique(members: seq<DocMember>)
    ensures forall m :: m in BuildMembers(members) ==> Unique(m.value)
    decreases members, 1
  {
    if members != [] {
      assert members decreases to members[0];
      BuildIsUnique(members[0].value);
      BuildMembersUnique(members[1..]);
    }
  }

  // ---- Strict records ----

  lemma {:induction false} FieldFound(ms: seq<DocMember>, key: JsString)
    ensures FieldOf(ms, key).Some? ==> exists i :: 0 <= i < |ms| && ms[i].key == key && FieldOf(ms, key) == Some(ms[i].value)
  {
    if ms != [] && ms[0].key != key {
      FieldFound(ms[1..], key);
      if FieldOf(ms, key).Some? {
        var i :| 0 <= i < |ms[1..]| && ms[1..][i].key == key && FieldOf(ms[1..], key) == Some(ms[1..][i].value);
        assert ms[i + 1] == ms[1..][i];
      }
    }
  }

  lemma {:induction false} FieldCount(ms: seq<DocMember>)
    requires DistinctKeys(ms)
    ensures |MeaningOfMembers(ms)| == |ms|
  {
    if ms != [] {
      FieldCount(ms[1..]);
      FieldsAt(ms[1..]);
      var rest := MeaningOfMembers(ms[1..]);
      forall i | 0 <= i < |ms[1..]| ensures ms[1..][i].key != ms[0].key {}
      assert ms[0].key !in rest;
      assert MeaningOfMembers(ms).Keys == rest.Keys + {ms[0].key};
      assert |rest.Keys| == |rest| && |MeaningOfMembers(ms).Keys| == |MeaningOfMembers(ms)|;
    }
  }

  lemma SameSizeSubset<T>(a: set<T>, b: set<T>)
    requires a <= b && |a| == |b|
    ensures a == b
  {
    assert b == a + (b - a) && |a + (b - a)| == |a| + |b - a|;
    assert b - a == {};
  }

  /** A field, read from an object with distinct keys, is the object's meaning at that key. */
  lemma FieldMeans(ms: seq<DocMember>, key: JsString)
    requires DistinctKeys(ms)
    ensures FieldOf(ms, key).Some? <==> key in MeaningOfMembers(ms)
    ensures FieldOf(ms, key).Some? ==> MeaningOfMembers(ms)[key] == MeaningOf(FieldOf(ms, key).value)
  {
    hide MeaningOf;
    FieldsAt(ms);
    FieldFound(ms, key);
    if key in MeaningOfMembers(ms) {
      var i :| 0 <= i < |ms| && ms[i].key == key;
      FieldOfDistinct(ms, i);
    }
  }

  /** A strict record means the object of its values: its keys are the names, no more and no fewer. */
  lemma RecordMeans(d: Doc, names: seq<string>)
    requires d.Obj? && DistinctKeys(d.members) && DistinctNames(names) && Record(d, names).Some?
    ensures MeaningOf(d) == MeaningOf(Obj(Named(names, Record(d, names).value)))
  {
    var v := Record(d, names).value;
    var ms, ns := d.members, Named(names, v);
    NamedDistinct(names, v);
    hide MeaningOf, FieldOf, MeaningOfMembers, DistinctNames;
    FieldsAt(ns);
    FieldCount(ms);
    FieldCount(ns);
    var a, b := MeaningOfMembers(ns), MeaningOfMembers(ms);
    forall k | k in a ensures k in b && a[k] == b[k] {
      var i :| 0 <= i < |ns| && ns[i].key == k;
      assert Field(d, names[i]) == Some(v[i]);
      FieldMeans(ms, k);
    }
    SameSizeSubset(a.Keys, b.Keys);
    assert a == b;
    SameMembersSameMeaning(ms, ns);
  }

  lemma SameMembersSameMeaning(a: seq<DocMember>, b: seq<DocMember>)
    requires MeaningOfMembers(a) == MeaningOfMembers(b)
    ensures MeaningOf(Obj(a)) == MeaningOf(Obj(b))
  {
  }

  /** An object that means a record's object reads as that record, value by value. */
  lemma MeaningReads(d: Doc, names: seq<string>, values: seq<Doc>)
    requires d.Obj? && DistinctKeys(d.members) && DistinctNames(names) && |names| == |values|
    requires MeaningOf(d) == MeaningOf(Obj(Named(names, values)))
    ensures Record(d, names).Some?
    ensures forall i :: 0 <= i < |names| ==> MeaningOf(Record(d, names).value[i]) == MeaningOf(values[i])
  {
    var ms, ns := d.members, Named(names, values);
    NamedDistinct(names, values);
    ObjectMeaning(ms, ns);
    hide MeaningOf, FieldOf, MeaningOfMembers, DistinctNames;
    FieldsAt(ns);
    FieldCount(ms);
    FieldCount(ns);
    forall i | 0 <= i < |names|
      ensures Field(d, names[i]).Some? && MeaningOf(Field(d, names[i]).value) == MeaningOf(values[i])
    {
      assert ns[i].key == Js(names[i]) && ns[i].value == values[i];
      FieldMeans(ms, Js(names[i]));
    }
  }

  /** Records whose values mean the same mean the same. */
  lemma RecordCongruence(names: seq<string>, v: seq<Doc>, w: seq<Doc>)
    requires |names| == |v| == |w| && DistinctNames(names)
    requires forall i :: 0 <= i < |v| ==> MeaningOf(v[i]) == MeaningOf(w[i])
    ensures MeaningOf(Obj(Named(names, v))) == MeaningOf(Obj(Named(names, w)))
  {
    NamedDistinct(names, v);
    hide MeaningOf, MeaningOfMembers, DistinctNames;
    MappedFields(Named(names, v), Named(names, w));
    SameMembersSameMeaning(Named(names, v), Named(names, w));
  }

  // ---- Fields that are single texts or numbers ----

  lemma AtomMeans(d: Doc, a: TextAtom)
    ensures MeaningOf(d) == MeaningOf(Atom(a)) <==> d == Atom(a)
  {
  }

  lemma AsciiIsJs(s: JsString)
    requires Ascii(s).Some?
    ensures Js(Ascii(s).value) == s && AsciiText(Ascii(s).value)
  {
    var t := Ascii(s).value;
    JsOfAscii(t);
    assert Js(t) == s;
  }

  lemma TextOfIsText(d: Doc)
    ensures TextOf(d).Some? ==> d == Text(TextOf(d).value)
  {
    match d {
      case Atom(Str(s)) => if Ascii(s).Some? { AsciiIsJs(s); }
      case _ =>
    }
    hide Js;
  }

  lemma SecondsOfIsDoc(d: Doc)
    ensures SecondsOf(d).Some? ==> d == SecondsDoc(SecondsOf(d).value)
  {
    match d {
      case Atom(Str(s)) => if Ascii(s).Some? { AsciiIsJs(s); }
      case Atom(Num(n)) => if Ascii(n).Some? { AsciiIsJs(n); }
      case _ =>
    }
    hide Js;
  }

  // ---- The authorization ----

  lemma ReadAuthIsValues(v: seq<Doc>)
    requires |v| == 6 && ReadAuth(v).Some?
    ensures v == AuthValues(ReadAuth(v).value)
  {
    TextOfIsText(v[0]);
    TextOfIsText(v[1]);
    TextOfIsText(v[2]);
    SecondsOfIsDoc(v[3]);
    SecondsOfIsDoc(v[4]);
    TextOfIsText(v[5]);
    hide TextOf, SecondsOf, Text, SecondsDoc;
    var w := AuthValues(ReadAuth(v).value);
    assert v[0] == w[0] && v[1] == w[1] && v[2] == w[2] && v[3] == w[3] && v[4] == w[4] && v[5] == w[5];
  }

  lemma ParsedAuthMeans(d: Doc)
    requires Unique(d) && ParseAuth(d).Some?
    ensures MeaningOf(d) == MeaningOf(AuthDoc(ParseAuth(d).value))
  {
    AuthFieldsDistinct();
    RecordMeans(d, AUTH_FIELDS);
    ReadAuthIsValues(Record(d, AUTH_FIELDS).value);
    hide MeaningOf, Record, ReadAuth, AuthValues, DistinctNames, Named;
  }

  lemma MeantAuthParses(d: Doc, a: Authorization)
    requires Unique(d) && AuthValid(a) && MeaningOf(d) == MeaningOf(AuthDoc(a))
    requires AsciiText(a.from) && AsciiText(a.to) && AsciiText(a.value) && AsciiText(a.nonce)
    ensures ParseAuth(d) == Some(a)
  {
    AuthFieldsDistinct();
    assert d.Obj?;
    MeaningReads(d, AUTH_FIELDS, AuthValues(a));
    var v := Record(d, AUTH_FIELDS).value;
    AuthValuesMeant(v, a);
    RecordReadsBack(AUTH_FIELDS, AuthValues(a));
    AuthReadsBack(a);
    hide MeaningOf, Record, AuthValues, DistinctNames, Named, AuthValid, AsciiText;
  }

  lemma AuthValuesMeant(v: seq<Doc>, a: Authorization)
    requires |v| == 6 && forall i :: 0 <= i < 6 ==> MeaningOf(v[i]) == MeaningOf(AuthValues(a)[i])
    ensures v == AuthValues(a)
  {
    var w := AuthValues(a);
    forall i | 0 <= i < 6 ensures v[i] == w[i] {
      assert MeaningOf(v[i]) == MeaningOf(w[i]);
      assert w[i].Atom?;
      AtomMeans(v[i], w[i].atom);
    }
  }

  // ---- The payload inside and outside ----

  lemma ReadInnerParts(network: string, v: seq<Doc>, p: PaymentPayload)
    requires |v| == 3 && ReadInner(network, v) == Some(p)
    ensures v[0] == Text(p.signature) && v[1] == Text(p.publicKey) && ParseAuth(v[2]) == Some(p.authorization)
    ensures p.network == network
  {
    TextOfIsText(v[0]);
    TextOfIsText(v[1]);
    hide TextOf, ParseAuth, Text;
  }

  lemma ReadInnerMeans(network: string, v: seq<Doc>, p: PaymentPayload)
    requires |v| == 3 && ReadInner(network, v) == Some(p) && Unique(v[2])
    ensures forall i :: 0 <= i < 3 ==> MeaningOf(v[i]) == MeaningOf(InnerValues(p)[i])
  {
    hide *;
    ReadInnerParts(network, v, p);
    ParsedAuthMeans(v[2]);
    InnerValueAt(p);
    forall i | 0 <= i < 3 ensures MeaningOf(v[i]) == MeaningOf(InnerValues(p)[i]) {
      assert i == 0 || i == 1 || i == 2;
    }
  }

  lemma InnerValueAt(p: PaymentPayload)
    ensures var w := InnerValues(p);
      |w| == |INNER_FIELDS| == 3 && w[0] == Text(p.signature) && w[1] == Text(p.publicKey) && w[2] == AuthDoc(p.authorization)
  {
    hide Text, AuthDoc;
  }

  lemma ReadTopParts(v: seq<Doc>, p: PaymentPayload)
    requires |v| == 4 && ReadTop(v) == Some(p)
    ensures v[0] == Atom(Num(Js("2"))) && v[1] == Text("exact") && v[2] == Text(p.network)
    ensures Record(v[3], INNER_FIELDS).Some? && ReadInner(p.network, Record(v[3], INNER_FIELDS).value) == Some(p)
  {
    TextOfIsText(v[2]);
    hide TextOf, Record, Text, Js, ParseAuth;
  }

  lemma UniqueRecord(d: Doc, names: seq<string>)
    requires Unique(d) && Record(d, names).Some?
    ensures DistinctKeys(d.members) && forall i :: 0 <= i < |names| ==> Unique(Record(d, names).value[i])
  {
    forall i | 0 <= i < |names| ensures Unique(Record(d, names).value[i]) {
      FieldFound(d.members, Js(names[i]));
    }
    hide FieldOf;
  }

  /** Whatever the schema parses to a payload means that payload's document. */
  lemma ParsedMeans(d: Doc, p: PaymentPayload)
    requires Unique(d) && SchemaParse(d) == Some(p)
    ensures MeaningOf(d) == MeaningOf(PayloadDoc(p)) && PayloadValid(p)
  {
    hide *;
    SchemaParts(d, p);
    TopFieldsDistinct();
    DocOfTop(p);
    var v := Record(d, TOP_FIELDS).value;
    UniqueRecord(d, TOP_FIELDS);
    RecordIsObject(d, TOP_FIELDS);
    RecordMeans(d, TOP_FIELDS);
    ReadTopParts(v, p);
    InnerMeans(v[3], p);
    TopValueAt(p);
    var w := TopValues(p);
    forall i | 0 <= i < 4 ensures MeaningOf(v[i]) == MeaningOf(w[i]) {
      assert i == 0 || i == 1 || i == 2 || i == 3;
    }
    RecordCongruence(TOP_FIELDS, v, w);
  }

  lemma DocOfTop(p: PaymentPayload)
    ensures |TOP_FIELDS| == |TopValues(p)| == 4 && PayloadDoc(p) == Obj(Named(TOP_FIELDS, TopValues(p)))
  {
    hide Text, Named, InnerValues;
  }

  lemma SchemaParts(d: Doc, p: PaymentPayload)
    requires SchemaParse(d) == Some(p)
    ensures Record(d, TOP_FIELDS).Some? && ReadTop(Record(d, TOP_FIELDS).value) == Some(p) && PayloadValid(p)
  {
    hide Record, ReadTop, PayloadValid;
  }

  lemma InnerMeans(d: Doc, p: PaymentPayload)
    requires Unique(d) && Record(d, INNER_FIELDS).Some? && ReadInner(p.network, Record(d, INNER_FIELDS).value) == Some(p)
    ensures MeaningOf(d) == MeaningOf(Obj(Named(INNER_FIELDS, InnerValues(p))))
  {
    InnerFieldsDistinct();
    var inner := Record(d, INNER_FIELDS).value;
    UniqueRecord(d, INNER_FIELDS);
    RecordIsObject(d, INNER_FIELDS);
    RecordMeans(d, INNER_FIELDS);
    ReadInnerMeans(p.network, inner, p);
    hide *;
    RecordCongruence(INNER_FIELDS, inner, InnerValues(p));
  }

  lemma RecordIsObject(d: Doc, names: seq<string>)
    requires Record(d, names).Some?
    ensures d.Obj?
  {
  }

  lemma MeantInnerReads(v: seq<Doc>, p: PaymentPayload)
    requires |v| == 3 && PayloadValid(p) && Unique(v[2])
    requires forall i :: 0 <= i < 3 ==> MeaningOf(v[i]) == MeaningOf(InnerValues(p)[i])
    ensures ReadInner(p.network, v) == Some(p)
  {
    var w := InnerValues(p);
    assert MeaningOf(v[0]) == MeaningOf(w[0]) && MeaningOf(v[1]) == MeaningOf(w[1]) && MeaningOf(v[2]) == MeaningOf(w[2]);
    AtomMeans(v[0], Str(Js(p.signature)));
    AtomMeans(v[1], Str(Js(p.publicKey)));
    FieldsAreAscii(p);
    MeantAuthParses(v[2], p.authorization);
    AsciiReadsBack(p.signature);
    AsciiReadsBack(p.publicKey);
    hide MeaningOf, Ascii, Js, AsciiText, ParseAuth, AuthDoc;
  }

  /** Whatever means a valid payload's document parses to that payload. */
  lemma MeantParses(d: Doc, p: PaymentPayload)
    requires Unique(d) && PayloadValid(p) && MeaningOf(d) == MeaningOf(PayloadDoc(p))
    ensures SchemaParse(d) == Some(p)
  {
    hide *;
    TopFieldsDistinct();
    DocOfTop(p);
    MeansObject(d, TOP_FIELDS, TopValues(p));
    UniqueObject(d);
    MeaningReads(d, TOP_FIELDS, TopValues(p));
    UniqueRecord(d, TOP_FIELDS);
    var v, w := Record(d, TOP_FIELDS).value, TopValues(p);
    TopValueAt(p);
    TopAtoms(v, w, p);
    MeantTopReads(v, p);
    assert SchemaParse(d) == Some(p) by { SchemaOfTop(d, p); }
  }

  lemma MeansObject(d: Doc, names: seq<string>, values: seq<Doc>)
    requires |names| == |values| && MeaningOf(d) == MeaningOf(Obj(Named(names, values)))
    ensures d.Obj?
  {
  }

  lemma SchemaOfTop(d: Doc, p: PaymentPayload)
    requires Record(d, TOP_FIELDS).Some? && ReadTop(Record(d, TOP_FIELDS).value) == Some(p) && PayloadValid(p)
    ensures SchemaParse(d) == Some(p)
  {
    hide Record, ReadTop, PayloadValid;
  }

  lemma TopAtoms(v: seq<Doc>, w: seq<Doc>, p: PaymentPayload)
    requires |v| == |w| == 4 && forall i :: 0 <= i < 4 ==> MeaningOf(v[i]) == MeaningOf(w[i])
    requires w[0] == Atom(Num(Js("2"))) && w[1] == Text("exact") && w[2] == Text(p.network)
    ensures v[0] == w[0] && v[1] == w[1] && v[2] == w[2]
  {
    assert MeaningOf(v[0]) == MeaningOf(w[0]) && MeaningOf(v[1]) == MeaningOf(w[1]) && MeaningOf(v[2]) == MeaningOf(w[2]);
    AtomMeans(v[0], Num(Js("2")));
    AtomMeans(v[1], Str(Js("exact")));
    AtomMeans(v[2], Str(Js(p.network)));
    hide MeaningOf, Js;
  }

  lemma MeantTopReads(v: seq<Doc>, p: PaymentPayload)
    requires |v| == 4 && v[0] == Atom(Num(Js("2"))) && v[1] == Text("exact") && v[2] == Text(p.network)
    requires PayloadValid(p) && Unique(v[3]) && MeaningOf(v[3]) == MeaningOf(Obj(Named(INNER_FIELDS, InnerValues(p))))
    ensures ReadTop(v) == Some(p)
  {
    hide *;
    InnerFieldsDistinct();
    InnerValueAt(p);
    MeansObject(v[3], INNER_FIELDS, InnerValues(p));
    UniqueObject(v[3]);
    MeaningReads(v[3], INNER_FIELDS, InnerValues(p));
    UniqueRecord(v[3], INNER_FIELDS);
    MeantInnerReads(Record(v[3], INNER_FIELDS).value, p);
    FieldsAreAscii(p);
    AsciiReadsBack(p.network);
    TopOfParts(v, p);
  }

  lemma TopOfParts(v: seq<Doc>, p: PaymentPayload)
    requires |v| == 4 && v[0] == Atom(Num(Js("2"))) && v[1] == Text("exact") && v[2] == Text(p.network)
    requires Ascii(Js(p.network)) == Some(p.network)
    requires Record(v[3], INNER_FIELDS).Some? && ReadInner(p.network, Record(v[3], INNER_FIELDS).value) == Some(p)
    ensures ReadTop(v) == Some(p)
  {
    hide Record, ReadInner, Ascii, Js;
  }

  lemma UniqueObject(d: Doc)
    requires Unique(d) && d.Obj?
    ensures DistinctKeys(d.members)
  {
  }

  /**
   * The decoder accepts a header with payload p exactly when p is valid and the header's JSON,
   * as JSON.parse builds it, is p's document up to key order: nothing missing, nothing added.
   */
  lemma DecodedMeansPayload(s: string, p: PaymentPayload)
    ensures SafeDecodeHeader(s) == Decoded(p) <==>
      PayloadValid(p) && DecodeDoc(s).Some? && MeaningOf(DecodeDoc(s).value) == MeaningOf(PayloadDoc(p))
  {
    if DecodeDoc(s).Some? {
      var d := DecodeDoc(s).value;
      DecodedIsBuilt(s);
      if SchemaParse(d) == Some(p) {
        ParsedMeans(d, p);
      } else if PayloadValid(p) && MeaningOf(d) == MeaningOf(PayloadDoc(p)) {
        MeantParses(d, p);
      }
    }
    hide DecodeDoc, SchemaParse, MeaningOf, PayloadDoc, PayloadValid, Unique;
  }

  lemma DecodedIsBuilt(s: string)
    requires DecodeDoc(s).Some?
    ensures Unique(DecodeDoc(s).value)
  {
    var text := FromUtf8(FromBase64(s).value).value;
    BuildIsUnique(ParseText(text).value);
    hide FromBase64, FromUtf8, ParseText, Build, Unique;
  }
}
