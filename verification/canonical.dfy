/**
 * canonicalJson: object keys sorted at every depth, then printed. Two values get one text exactly
 * when they are the same JSON value up to key order, so a digest of the text identifies content.
 */
module Canonical {
  import opened Wrappers
  import opened JsonTrees
  import opened LexOrders
  import opened JsStrings
  import opened JsonText

  // ---- What a document means: objects are maps, so key order is gone ----

  datatype Meaning = Scalar(atom: TextAtom) | Items(items: seq<Meaning>) | Fields(fields: map<JsString, Meaning>)

  function MeaningOf(d: Doc): Meaning {
    match d
    case Atom(a) => Scalar(a)
    case Arr(items) => Items(MeaningOfItems(items))
    case Obj(members) => Fields(MeaningOfMembers(members))
  }

  function MeaningOfItems(items: seq<Doc>): seq<Meaning> {
    if items == [] then [] else [MeaningOf(items[0])] + MeaningOfItems(items[1..])
  }

  function MeaningOfMembers(members: seq<DocMember>): map<JsString, Meaning> {
    if members == [] then map[] else
      assert members decreases to members[0];
      MeaningOfMembers(members[1..])[members[0].key := MeaningOf(members[0].value)]
  }

  predicate DistinctKeys(members: seq<DocMember>) {
    forall i, j :: 0 <= i < j < |members| ==> members[i].key != members[j].key
  }

  /** JSON values: numbers print as numbers and an object has each key once. */
  ghost predicate IsValue(d: Doc) {
    match d
    case Atom(Num(text)) => IsNumber(text)
    case Atom(_) => true
    case Arr(items) => forall i :: 0 <= i < |items| ==> IsValue(items[i])
    case Obj(members) => DistinctKeys(members) && forall i :: 0 <= i < |members| ==> IsValue(members[i].value)
  }

  // ---- Sorting and inserting ----

  function InsertSorted(m: DocMember, ms: seq<DocMember>): (r: seq<DocMember>)
    ensures |r| == |ms| + 1
  {
    if ms == [] || LexLess(m.key, ms[0].key) then [m] + ms else [ms[0]] + InsertSorted(m, ms[1..])
  }

  /** Object.keys(obj).sort(), each key with its value. */
  function Sort(ms: seq<DocMember>): (r: seq<DocMember>)
    ensures |r| == |ms|
  {
    if ms == [] then [] else InsertSorted(ms[0], Sort(ms[1..]))
  }

  /** Where a new index key goes: before the first key that is no index or a larger one. */
  function IndexSlot(ms: seq<DocMember>, k: JsString): (i: nat)
    requires IsIndex(k)
    ensures i <= |ms|
  {
    if ms == [] || !IsIndex(ms[0].key) || IndexValue(ms[0].key) > IndexValue(k) then 0
    else 1 + IndexSlot(ms[1..], k)
  }

  /** out[key] = value on an object whose keys are listed indices first. */
  function Put(ms: seq<DocMember>, m: DocMember): seq<DocMember> {
    if i :| 0 <= i < |ms| && ms[i].key == m.key && (forall j :: 0 <= j < i ==> ms[j].key != m.key) then ms[i := m]
    else if IsIndex(m.key) then ms[..IndexSlot(ms, m.key)] + [m] + ms[IndexSlot(ms, m.key)..]
    else ms + [m]
  }

  function PutAll(ms: seq<DocMember>, more: seq<DocMember>): seq<DocMember>
    decreases |more|
  {
    if more == [] then ms else PutAll(Put(ms, more[0]), more[1..])
  }

  function Canonicalize(d: Doc): Doc {
    match d
    case Atom(_) => d
    case Arr(items) => Arr(CanonicalItems(items))
    case Obj(members) => Obj(PutAll([], Sort(CanonicalMembers(members))))
  }

  function CanonicalItems(items: seq<Doc>): (r: seq<Doc>)
    ensures |r| == |items|
  {
    if items == [] then [] else [Canonicalize(items[0])] + CanonicalItems(items[1..])
  }

  function CanonicalMembers(members: seq<DocMember>): (r: seq<DocMember>)
    ensures |r| == |members| && forall i :: 0 <= i < |r| ==> r[i].key == members[i].key
  {
    if members == [] then [] else
      assert members decreases to members[0];
      [Member(members[0].key, Canonicalize(members[0].value))] + CanonicalMembers(members[1..])
  }

  function CanonicalJson(d: Doc): JsString {
    Stringify(Canonicalize(d))
  }

  // ---- The canonical member list is strictly ordered and keeps the members ----

  predicate SortedByKey(ms: seq<DocMember>) {
    forall i, j :: 0 <= i < j < |ms| ==> LexLess(ms[i].key, ms[j].key)
  }

  predicate Ordered(ms: seq<DocMember>) {
    forall i, j :: 0 <= i < j < |ms| ==> KeyBefore(ms[i].key, ms[j].key)
  }

  function AsSet(ms: seq<DocMember>): set<DocMember> {
    set m | m in ms
  }

  predicate NewKey(m: DocMember, ms: seq<DocMember>) {
    forall i :: 0 <= i < |ms| ==> ms[i].key != m.key
  }

  lemma {:induction false} InsertKeepsSorted(m: DocMember, ms: seq<DocMember>)
    requires SortedByKey(ms) && NewKey(m, ms)
    ensures SortedByKey(InsertSorted(m, ms)) && AsSet(InsertSorted(m, ms)) == AsSet(ms) + {m}
  {
    if ms == [] {
    } else if LexLess(m.key, ms[0].key) {
      forall j | 1 <= j < |ms| ensures LexLess(m.key, ms[j].key) {
        LexTransitive(m.key, ms[0].key, ms[j].key);
      }
    } else {
      LexTotal(m.key, ms[0].key);
      InsertKeepsSorted(m, ms[1..]);
      var rest := InsertSorted(m, ms[1..]);
      forall j | 0 <= j < |rest| ensures LexLess(ms[0].key, rest[j].key) {
        assert rest[j] in AsSet(rest);
      }
      assert ms == [ms[0]] + ms[1..];
      assert AsSet(ms) == {ms[0]} + AsSet(ms[1..]);
      assert AsSet([ms[0]] + rest) == {ms[0]} + AsSet(rest);
    }
  }

  lemma {:induction false} SortSorts(ms: seq<DocMember>)
    requires DistinctKeys(ms)
    ensures SortedByKey(Sort(ms)) && AsSet(Sort(ms)) == AsSet(ms)
  {
    if ms != [] {
      SortSorts(ms[1..]);
      var rest := Sort(ms[1..]);
      forall i | 0 <= i < |rest| ensures rest[i].key != ms[0].key {
        assert rest[i] in AsSet(rest);
      }
      InsertKeepsSorted(ms[0], rest);
      assert AsSet(ms) == {ms[0]} + AsSet(ms[1..]);
    }
  }

  lemma {:induction false} SlotSplits(ms: seq<DocMember>, k: JsString)
    requires Ordered(ms) && IsIndex(k) && forall i :: 0 <= i < |ms| ==> ms[i].key != k
    ensures forall i :: 0 <= i < IndexSlot(ms, k) ==> KeyBefore(ms[i].key, k)
    ensures forall i :: IndexSlot(ms, k) <= i < |ms| ==> KeyBefore(k, ms[i].key)
  {
    if ms == [] {
    } else if IndexSlot(ms, k) == 0 {
      forall i | 0 < i < |ms| ensures KeyBefore(k, ms[i].key) {
        KeyBeforeTransitive(k, ms[0].key, ms[i].key);
      }
    } else {
      SlotSplits(ms[1..], k);
      if IndexValue(ms[0].key) == IndexValue(k) {
        IndexValueInjective(ms[0].key, k);
      }
      forall i | 1 <= i < |ms| ensures ms[i] == ms[1..][i - 1] {}
    }
  }

  /** Putting a new key keeps the listing strictly ordered when no listed key sorts after it. */
  lemma PutKeepsOrdered(ms: seq<DocMember>, m: DocMember)
    requires Ordered(ms) && NewKey(m, ms)
    requires forall i :: 0 <= i < |ms| ==> LexLess(ms[i].key, m.key)
    ensures Ordered(Put(ms, m)) && AsSet(Put(ms, m)) == AsSet(ms) + {m}
  {
    if IsIndex(m.key) {
      SlotSplits(ms, m.key);
      InsertAt(ms, m, IndexSlot(ms, m.key));
    } else {
      InsertAt(ms, m, |ms|);
      assert ms[..|ms|] + [m] + ms[|ms|..] == ms + [m];
    }
  }

  lemma InsertAt(ms: seq<DocMember>, m: DocMember, s: nat)
    requires Ordered(ms) && s <= |ms|
    requires forall i :: 0 <= i < s ==> KeyBefore(ms[i].key, m.key)
    requires forall i :: s <= i < |ms| ==> KeyBefore(m.key, ms[i].key)
    ensures Ordered(ms[..s] + [m] + ms[s..]) && AsSet(ms[..s] + [m] + ms[s..]) == AsSet(ms) + {m}
  {
    hide KeyBefore, AsSet;
    var r := ms[..s] + [m] + ms[s..];
    forall i | 0 <= i < |r| ensures r[i] == if i < s then ms[i] else if i == s then m else ms[i - 1] {}
    SetOfConcat(ms[..s], ms[s..]);
    assert ms == ms[..s] + ms[s..];
    SetOfConcat(ms[..s] + [m], ms[s..]);
    SetOfConcat(ms[..s], [m]);
    SetOfOne(m);
  }

  lemma SetOfConcat(a: seq<DocMember>, b: seq<DocMember>)
    ensures AsSet(a + b) == AsSet(a) + AsSet(b)
  {
  }

  lemma SetOfOne(m: DocMember)
    ensures AsSet([m]) == {m}
  {
  }

  lemma {:induction false} PutAllKeepsOrdered(ms: seq<DocMember>, more: seq<DocMember>)
    requires Ordered(ms) && SortedByKey(more)
    requires forall i, j :: 0 <= i < |ms| && 0 <= j < |more| ==> LexLess(ms[i].key, more[j].key)
    ensures Ordered(PutAll(ms, more)) && AsSet(PutAll(ms, more)) == AsSet(ms) + AsSet(more)
    decreases |more|
  {
    if more != [] {
      var m := more[0];
      forall i | 0 <= i < |ms| ensures ms[i].key != m.key { LexIrreflexive(m.key); }
      PutKeepsOrdered(ms, m);
      var next := Put(ms, m);
      forall i, j | 0 <= i < |next| && 0 <= j < |more[1..]| ensures LexLess(next[i].key, more[1..][j].key) {
        assert next[i] in AsSet(next);
      }
      PutAllKeepsOrdered(next, more[1..]);
      assert AsSet(more) == {m} + AsSet(more[1..]);
    }
  }

  lemma MembersOrdered(members: seq<DocMember>)
    requires DistinctKeys(members)
    ensures var ms := PutAll([], Sort(CanonicalMembers(members)));
      Ordered(ms) && AsSet(ms) == AsSet(CanonicalMembers(members))
  {
    SortSorts(CanonicalMembers(members));
    PutAllKeepsOrdered([], Sort(CanonicalMembers(members)));
  }

  /** A strictly ordered listing is determined by the set it lists. */
  lemma {:induction false} OrderedUnique(a: seq<DocMember>, b: seq<DocMember>)
    requires Ordered(a) && Ordered(b) && AsSet(a) == AsSet(b)
    ensures a == b
  {
    EmptyMeansEmpty(a);
    EmptyMeansEmpty(b);
    if a != [] {
      assert a[0] in AsSet(a);
      assert b[0] in AsSet(b);
      var i :| 0 <= i < |b| && b[i] == a[0];
      var j :| 0 <= j < |a| && a[j] == b[0];
      if i > 0 {
        if j > 0 {
          KeyBeforeTransitive(a[0].key, b[0].key, a[0].key);
        }
        KeyBeforeIrreflexive(a[0].key);
      }
      assert a[0] == b[0];
      RestOfOrdered(a);
      RestOfOrdered(b);
      OrderedUnique(a[1..], b[1..]);
      assert a == [a[0]] + a[1..] && b == [b[0]] + b[1..];
    }
  }

  lemma EmptyMeansEmpty(a: seq<DocMember>)
    ensures AsSet(a) == {} <==> a == []
  {
    if a != [] {
      assert a[0] in AsSet(a);
    }
  }

  lemma RestOfOrdered(a: seq<DocMember>)
    requires a != [] && Ordered(a)
    ensures Ordered(a[1..]) && AsSet(a[1..]) == AsSet(a) - {a[0]}
  {
    forall m | m in AsSet(a[1..]) ensures m != a[0] {
      var i :| 0 <= i < |a[1..]| && a[1..][i] == m;
      assert a[i + 1] == m;
      KeyBeforeIrreflexive(m.key);
    }
    assert a == [a[0]] + a[1..];
  }

  // ---- In which order ----

  /** The first code unit in which two keys differ is smaller in the first one, or that one has ended. */
  ghost predicate TextBefore(a: JsString, b: JsString) {
    exists n: nat :: SmallerAt(a, b, n)
  }

  /** The enumeration order of a bare object filled in sorted order: indices by value, then the other keys as texts. */
  ghost predicate Precedes(a: JsString, b: JsString) {
    if IsIndex(a) then !IsIndex(b) || |a| < |b| || (|a| == |b| && TextBefore(a, b))
    else !IsIndex(b) && TextBefore(a, b)
  }

  /** Every object at every depth lists its keys in that order. */
  ghost predicate KeysInOrder(d: Doc) {
    match d
    case Atom(_) => true
    case Arr(items) => forall i :: 0 <= i < |items| ==> KeysInOrder(items[i])
    case Obj(members) =>
      (forall i, j :: 0 <= i < j < |members| ==> Precedes(members[i].key, members[j].key))
      && forall i :: 0 <= i < |members| ==> KeysInOrder(members[i].value)
  }

  lemma KeyBeforeMeans(a: JsString, b: JsString)
    ensures KeyBefore(a, b) <==> Precedes(a, b)
  {
    if IsIndex(a) && IsIndex(b) {
      IndexValueOrders(a, b);
    } else {
      LexMeansFirstDifference(a, b);
    }
  }

  lemma {:induction false} CanonicalKeysInOrder(d: Doc)
    requires IsValue(d)
    ensures KeysInOrder(Canonicalize(d))
  {
    match d
    case Atom(_) =>
    case Arr(items) =>
      ItemsAt(items);
      forall i | 0 <= i < |items| ensures KeysInOrder(Canonicalize(items[i])) {
        CanonicalKeysInOrder(items[i]);
      }
    case Obj(members) =>
      forall i | 0 <= i < |members| ensures KeysInOrder(Canonicalize(members[i].value)) {
        CanonicalKeysInOrder(members[i].value);
      }
      MembersAt(members);
      MembersOrdered(members);
      var ms := PutAll([], Sort(CanonicalMembers(members)));
      forall i, j | 0 <= i < j < |ms| ensures Precedes(ms[i].key, ms[j].key) {
        KeyBeforeMeans(ms[i].key, ms[j].key);
      }
      forall i | 0 <= i < |ms| ensures KeysInOrder(ms[i].value) {
        assert ms[i] in AsSet(ms);
      }
  }

  // ---- Canonicalizing keeps the meaning and depends on nothing else ----

  lemma {:induction false} ItemsAt(items: seq<Doc>)
    ensures |MeaningOfItems(items)| == |items|
    ensures forall i :: 0 <= i < |items| ==>
      MeaningOfItems(items)[i] == MeaningOf(items[i]) && CanonicalItems(items)[i] == Canonicalize(items[i])
  {
    if items != [] {
      ItemsAt(items[1..]);
      forall i | 1 <= i < |items| ensures items[i] == items[1..][i - 1] {}
    }
  }

  lemma {:induction false} MembersAt(members: seq<DocMember>)
    ensures forall i :: 0 <= i < |members| ==>
      CanonicalMembers(members)[i] == Member(members[i].key, Canonicalize(members[i].value))
  {
    if members != [] {
      MembersAt(members[1..]);
      forall i | 1 <= i < |members| ensures members[i] == members[1..][i - 1] {}
    }
  }

  predicate HasKey(members: seq<DocMember>, k: JsString) {
    exists i :: 0 <= i < |members| && members[i].key == k
  }

  lemma {:induction false} FieldsAt(members: seq<DocMember>)
    requires DistinctKeys(members)
    ensures forall k :: k in MeaningOfMembers(members) <==> HasKey(members, k)
    ensures forall i :: 0 <= i < |members| ==>
      members[i].key in MeaningOfMembers(members) && MeaningOfMembers(members)[members[i].key] == MeaningOf(members[i].value)
  {
    hide MeaningOf;
    if members != [] {
      var rest := members[1..];
      FieldsAt(rest);
      forall i | 1 <= i < |members| ensures members[i] == rest[i - 1] {}
      forall k ensures HasKey(members, k) <==> k == members[0].key || HasKey(rest, k) {
        if i :| 0 <= i < |rest| && rest[i].key == k { assert members[i + 1].key == k; }
        if i :| 0 <= i < |members| && members[i].key == k && i > 0 { assert rest[i - 1].key == k; }
      }
    }
  }

  lemma OrderedDistinct(ms: seq<DocMember>)
    requires Ordered(ms)
    ensures DistinctKeys(ms)
  {
    forall i, j | 0 <= i < j < |ms| ensures ms[i].key != ms[j].key {
      KeyBeforeIrreflexive(ms[i].key);
    }
  }

  lemma {:induction false} CanonicalizeKeepsMeaning(d: Doc)
    requires IsValue(d)
    ensures MeaningOf(Canonicalize(d)) == MeaningOf(d) && IsValue(Canonicalize(d))
  {
    match d
    case Atom(_) =>
    case Arr(items) =>
      ItemsAt(items);
      ItemsAt(CanonicalItems(items));
      forall i | 0 <= i < |items|
        ensures MeaningOf(Canonicalize(items[i])) == MeaningOf(items[i]) && IsValue(Canonicalize(items[i])) {
        CanonicalizeKeepsMeaning(items[i]);
      }
      assert MeaningOfItems(CanonicalItems(items)) == MeaningOfItems(items);
    case Obj(members) =>
      forall i | 0 <= i < |members|
        ensures MeaningOf(Canonicalize(members[i].value)) == MeaningOf(members[i].value)
        ensures IsValue(Canonicalize(members[i].value)) {
        CanonicalizeKeepsMeaning(members[i].value);
      }
      MembersAt(members);
      MembersOrdered(members);
      var mapped, ms := CanonicalMembers(members), PutAll([], Sort(CanonicalMembers(members)));
      OrderedDistinct(ms);
      SameSetSameFields(mapped, ms);
      MappedFields(members, mapped);
      forall i | 0 <= i < |ms| ensures IsValue(ms[i].value) {
        assert ms[i] in AsSet(ms);
      }
  }

  lemma SameSetSameFields(a: seq<DocMember>, b: seq<DocMember>)
    requires DistinctKeys(a) && DistinctKeys(b) && AsSet(a) == AsSet(b)
    ensures MeaningOfMembers(a) == MeaningOfMembers(b)
  {
    FieldsAt(a);
    FieldsAt(b);
    FieldsContained(a, b);
    FieldsContained(b, a);
  }

  lemma FieldsContained(a: seq<DocMember>, b: seq<DocMember>)
    requires DistinctKeys(a) && DistinctKeys(b) && AsSet(a) <= AsSet(b)
    ensures forall k :: k in MeaningOfMembers(a) ==> k in MeaningOfMembers(b) && MeaningOfMembers(a)[k] == MeaningOfMembers(b)[k]
  {
    hide MeaningOf, MeaningOfMembers;
    FieldsAt(a);
    FieldsAt(b);
    forall k | k in MeaningOfMembers(a)
      ensures k in MeaningOfMembers(b) && MeaningOfMembers(a)[k] == MeaningOfMembers(b)[k] {
      var i :| 0 <= i < |a| && a[i].key == k;
      assert a[i] in AsSet(a);
      var j :| 0 <= j < |b| && b[j] == a[i];
    }
  }

  lemma MappedFields(a: seq<DocMember>, b: seq<DocMember>)
    requires DistinctKeys(a) && |a| == |b|
    requires forall i :: 0 <= i < |a| ==> b[i].key == a[i].key && MeaningOf(b[i].value) == MeaningOf(a[i].value)
    ensures DistinctKeys(b) && MeaningOfMembers(a) == MeaningOfMembers(b)
  {
    hide MeaningOf, MeaningOfMembers;
    FieldsAt(a);
    FieldsAt(b);
    forall k ensures k in MeaningOfMembers(a) <==> k in MeaningOfMembers(b) {
      if i :| 0 <= i < |a| && a[i].key == k { assert b[i].key == k; }
      if i :| 0 <= i < |b| && b[i].key == k { assert a[i].key == k; }
    }
    forall k | k in MeaningOfMembers(a) ensures MeaningOfMembers(a)[k] == MeaningOfMembers(b)[k] {
      var i :| 0 <= i < |a| && a[i].key == k;
    }
  }

  /** The canonical form is a function of the meaning. */
  lemma {:induction false} SameMeaningSameForm(a: Doc, b: Doc)
    requires IsValue(a) && IsValue(b) && MeaningOf(a) == MeaningOf(b)
    ensures Canonicalize(a) == Canonicalize(b)
  {
    match a
    case Atom(_) =>
    case Arr(items) =>
      ItemsAt(items);
      ItemsAt(b.items);
      forall i | 0 <= i < |items| ensures Canonicalize(items[i]) == Canonicalize(b.items[i]) {
        assert MeaningOfItems(items)[i] == MeaningOfItems(b.items)[i];
        SameMeaningSameForm(items[i], b.items[i]);
      }
      assert CanonicalItems(items) == CanonicalItems(b.items);
    case Obj(members) =>
      forall i, j | 0 <= i < |members| && 0 <= j < |b.members| && members[i].key == b.members[j].key
        ensures Canonicalize(members[i].value) == Canonicalize(b.members[j].value) {
        FieldsAt(members);
        FieldsAt(b.members);
        SameMeaningSameForm(members[i].value, b.members[j].value);
      }
      CanonicalSetContained(members, b.members);
      CanonicalSetContained(b.members, members);
      MembersOrdered(members);
      MembersOrdered(b.members);
      OrderedUnique(PutAll([], Sort(CanonicalMembers(members))), PutAll([], Sort(CanonicalMembers(b.members))));
  }

  lemma CanonicalSetContained(a: seq<DocMember>, b: seq<DocMember>)
    requires DistinctKeys(a) && DistinctKeys(b) && MeaningOfMembers(a) == MeaningOfMembers(b)
    requires forall i, j :: 0 <= i < |a| && 0 <= j < |b| && a[i].key == b[j].key ==>
      Canonicalize(a[i].value) == Canonicalize(b[j].value)
    ensures AsSet(CanonicalMembers(a)) <= AsSet(CanonicalMembers(b))
  {
    hide MeaningOf, MeaningOfMembers, Canonicalize, CanonicalMembers;
    FieldsAt(a);
    FieldsAt(b);
    MembersAt(a);
    MembersAt(b);
    forall m | m in AsSet(CanonicalMembers(a)) ensures m in AsSet(CanonicalMembers(b)) {
      var i :| 0 <= i < |a| && CanonicalMembers(a)[i] == m;
      assert HasKey(b, a[i].key);
      var j :| 0 <= j < |b| && b[j].key == a[i].key;
      assert CanonicalMembers(b)[j] == m;
    }
  }

  lemma ValuesPrintable(d: Doc)
    requires IsValue(d)
    ensures NumbersPrintable(d)
  {
  }

  /** One canonical text exactly when the values are the same up to key order. */
  lemma CanonicalJsonIdentifies(a: Doc, b: Doc)
    requires IsValue(a) && IsValue(b)
    ensures CanonicalJson(a) == CanonicalJson(b) <==> MeaningOf(a) == MeaningOf(b)
  {
    if MeaningOf(a) == MeaningOf(b) {
      SameMeaningSameForm(a, b);
    }
    if CanonicalJson(a) == CanonicalJson(b) {
      CanonicalizeKeepsMeaning(a);
      CanonicalizeKeepsMeaning(b);
      ValuesPrintable(Canonicalize(a));
      ValuesPrintable(Canonicalize(b));
      StringifyInjective(Canonicalize(a), Canonicalize(b));
    }
  }

  /** The canonical text is JSON for the same value, and canonicalizing it again changes nothing. */
  lemma CanonicalJsonIsFaithful(d: Doc)
    requires IsValue(d)
    ensures ParseText(CanonicalJson(d)) == Some(Canonicalize(d))
    ensures MeaningOf(Canonicalize(d)) == MeaningOf(d) && CanonicalJson(Canonicalize(d)) == CanonicalJson(d)
  {
    CanonicalizeKeepsMeaning(d);
    ValuesPrintable(Canonicalize(d));
    TextRoundTrip(Canonicalize(d));
    SameMeaningSameForm(Canonicalize(d), d);
  }

  /** A value whose keys are already in order at every depth is its own canonical form. */
  lemma {:induction false} OrderedIsCanonical(d: Doc)
    requires IsValue(d) && KeysInOrder(d)
    ensures Canonicalize(d) == d
  {
    match d
    case Atom(_) =>
    case Arr(items) =>
      ItemsAt(items);
      forall i | 0 <= i < |items| ensures Canonicalize(items[i]) == items[i] {
        OrderedIsCanonical(items[i]);
      }
      assert CanonicalItems(items) == items;
    case Obj(members) =>
      MembersAt(members);
      forall i | 0 <= i < |members| ensures CanonicalMembers(members)[i] == members[i] {
        OrderedIsCanonical(members[i].value);
      }
      assert CanonicalMembers(members) == members;
      forall i, j | 0 <= i < j < |members| ensures KeyBefore(members[i].key, members[j].key) {
        KeyBeforeMeans(members[i].key, members[j].key);
      }
      MembersOrdered(members);
      OrderedUnique(PutAll([], Sort(members)), members);
  }

  /** The canonical form is the one document of that meaning with its keys in order at every depth. */
  lemma CanonicalFormIsUnique(d: Doc, form: Doc)
    requires IsValue(d) && IsValue(form)
    ensures MeaningOf(form) == MeaningOf(d) && KeysInOrder(form) <==> form == Canonicalize(d)
  {
    CanonicalizeKeepsMeaning(d);
    CanonicalKeysInOrder(d);
    if MeaningOf(form) == MeaningOf(d) && KeysInOrder(form) {
      SameMeaningSameForm(form, d);
      OrderedIsCanonical(form);
    }
  }

  // ---- The loop of the source ----

  lemma {:induction false} InsertMapped(m: DocMember, ms: seq<DocMember>)
    ensures CanonicalMembers(InsertSorted(m, ms))
         == InsertSorted(Member(m.key, Canonicalize(m.value)), CanonicalMembers(ms))
  {
    if ms != [] && !LexLess(m.key, ms[0].key) {
      InsertMapped(m, ms[1..]);
    } else {
      assert ([m] + ms)[1..] == ms;
    }
  }

  /** Sorting keys first or values first is the same. */
  lemma {:induction false} SortMapped(ms: seq<DocMember>)
    ensures CanonicalMembers(Sort(ms)) == Sort(CanonicalMembers(ms))
  {
    if ms != [] {
      SortMapped(ms[1..]);
      InsertMapped(ms[0], Sort(ms[1..]));
    }
  }

  /** canonicalize on an object: walk the sorted keys and assign each into a bare object. */
  method CanonicalizeObject(members: seq<DocMember>) returns (out: seq<DocMember>)
    ensures Obj(out) == Canonicalize(Obj(members))
    ensures DistinctKeys(members) ==> Ordered(out) && AsSet(out) == AsSet(CanonicalMembers(members))
  {
    out := [];
    var sorted := Sort(members);
    for i := 0 to |sorted|
      invariant PutAll([], CanonicalMembers(sorted)) == PutAll(out, CanonicalMembers(sorted[i..]))
    {
      assert sorted[i..][1..] == sorted[i + 1..];
      out := Put(out, Member(sorted[i].key, Canonicalize(sorted[i].value)));
    }
    SortMapped(members);
    if DistinctKeys(members) {
      MembersOrdered(members);
    }
  }
}
