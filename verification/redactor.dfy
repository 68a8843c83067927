/**
 * PlannerRedactor: a depth-first walk over an object graph that may share and cycle, and the
 * browser's sanitize, which does the same on JSON trees.
 */
module Redactor {
  import opened JsonTrees
  import opened ApiTrees

  const FORBIDDEN_KEYS: set<string> := {
    "privateKey", "PRIVATE_KEY", "mnemonic", "seed", "apiKey", "API_KEY", "CSPR_CLOUD_KEY",
    "reasoning", "chainOfThought", "prompt", "env"
  }

  /** A plain assignment out["__proto__"] = ... sets the prototype and adds no key. */
  const PROTO: string := "__proto__"

  predicate Forbidden(key: string) {
    key in FORBIDDEN_KEYS
  }

  predicate Kept(key: string) {
    !Forbidden(key) && key != PROTO
  }

  // ---- Object graphs ----

  datatype Value = Leaf(scalar: Scalar) | Link(ref: nat)

  datatype Node =
    | Buffer
    | Foreign
    | ArrayNode(items: seq<Value>)
    | ObjectNode(entries: seq<(string, Value)>)

  type Heap = map<nat, Node>

  predicate Container(heap: Heap, ref: nat) {
    ref in heap && (heap[ref].ArrayNode? || heap[ref].ObjectNode?)
  }

  // ---- The walk ----

  datatype Walked = Walked(out: Tree, seen: set<nat>, redacted: bool)
  datatype WalkedItems = WalkedItems(items: seq<Tree>, seen: set<nat>, redacted: bool)
  datatype WalkedEntries = WalkedEntries(members: seq<TreeMember>, seen: set<nat>, redacted: bool)

  const CYCLE_MARK: Tree := Atom(Str("[cycle:redacted]"))
  const BUFFER_MARK: Tree := Atom(Str("[buffer:redacted]"))

  function Walk(heap: Heap, v: Value, seen: set<nat>): (r: Walked)
    ensures seen <= r.seen
    decreases |heap.Keys - seen|, 0
  {
    match v
    case Leaf(s) => Walked(Atom(s), seen, false)
    case Link(ref) =>
      if ref !in heap || heap[ref].Foreign? then Walked(Atom(Opaque(ref)), seen, false)
      else if heap[ref].Buffer? then Walked(BUFFER_MARK, seen, false)
      else if ref in seen then Walked(CYCLE_MARK, seen, false)
      else
        assert heap.Keys - (seen + {ref}) < heap.Keys - seen by { assert ref in heap.Keys - seen; }
        SubsetIsSmaller(heap.Keys - (seen + {ref}), heap.Keys - seen);
        match heap[ref]
        case ArrayNode(items) =>
          var r := WalkItems(heap, items, seen + {ref});
          Walked(Arr(r.items), r.seen, r.redacted)
        case ObjectNode(entries) =>
          var r := WalkEntries(heap, entries, seen + {ref});
          Walked(Obj(r.members), r.seen, r.redacted)
  }

  function WalkItems(heap: Heap, items: seq<Value>, seen: set<nat>): (r: WalkedItems)
    ensures seen <= r.seen
    decreases |heap.Keys - seen|, 1 + |items|
  {
    if items == [] then WalkedItems([], seen, false) else
      var first := Walk(heap, items[0], seen);
      SeenShrinksRest(heap, seen, first.seen);
      var rest := WalkItems(heap, items[1..], first.seen);
      WalkedItems([first.out] + rest.items, rest.seen, first.redacted || rest.redacted)
  }

  function WalkEntries(heap: Heap, entries: seq<(string, Value)>, seen: set<nat>): (r: WalkedEntries)
    ensures seen <= r.seen
    decreases |heap.Keys - seen|, 1 + |entries|
  {
    if entries == [] then WalkedEntries([], seen, false)
    else if Forbidden(entries[0].0) then WalkEntries(heap, entries[1..], seen).(redacted := true)
    else
      var first := Walk(heap, entries[0].1, seen);
      SeenShrinksRest(heap, seen, first.seen);
      var rest := WalkEntries(heap, entries[1..], first.seen);
      WalkedEntries(
        (if entries[0].0 == PROTO then [] else [Member(entries[0].0, first.out)]) + rest.members,
        rest.seen, first.redacted || rest.redacted)
  }

  lemma SubsetIsSmaller<T>(a: set<T>, b: set<T>)
    requires a < b
    ensures |a| < |b|
  {
    var x :| x in b && x !in a;
    SubsetIsNoLarger(a, b - {x});
  }

  lemma SubsetIsNoLarger<T>(a: set<T>, b: set<T>)
    requires a <= b
    ensures |a| <= |b|
  {
    assert b == a + (b - a);
    assert |a + (b - a)| == |a| + |b - a|;
  }

  lemma SeenShrinksRest(heap: Heap, seen: set<nat>, more: set<nat>)
    requires seen <= more
    ensures |heap.Keys - more| <= |heap.Keys - seen|
  {
    SubsetIsNoLarger(heap.Keys - more, heap.Keys - seen);
  }

  // ---- No forbidden key survives ----

  predicate Redacted(t: Tree) {
    match t
    case Atom(_) => true
    case Arr(items) => forall i :: 0 <= i < |items| ==> Redacted(items[i])
    case Obj(members) => forall i :: 0 <= i < |members| ==>
      !Forbidden(members[i].key) && members[i].key != PROTO && Redacted(members[i].value)
  }

  /** On any finite graph the output carries no forbidden key at any depth. */
  lemma {:induction false} OutputIsRedacted(heap: Heap, v: Value, seen: set<nat>)
    ensures Redacted(Walk(heap, v, seen).out)
    decreases |heap.Keys - seen|, 0
  {
    if v.Link? && Container(heap, v.ref) && v.ref !in seen {
      SubsetIsSmaller(heap.Keys - (seen + {v.ref}), heap.Keys - seen);
      match heap[v.ref]
      case ArrayNode(items) => ItemsAreRedacted(heap, items, seen + {v.ref});
      case ObjectNode(entries) => EntriesAreRedacted(heap, entries, seen + {v.ref});
    }
  }

  lemma {:induction false} ItemsAreRedacted(heap: Heap, items: seq<Value>, seen: set<nat>)
    ensures Redacted(Arr(WalkItems(heap, items, seen).items))
    decreases |heap.Keys - seen|, 1 + |items|
  {
    if items != [] {
      OutputIsRedacted(heap, items[0], seen);
      SeenShrinksRest(heap, seen, Walk(heap, items[0], seen).seen);
      ItemsAreRedacted(heap, items[1..], Walk(heap, items[0], seen).seen);
    }
  }

  lemma {:induction false} EntriesAreRedacted(heap: Heap, entries: seq<(string, Value)>, seen: set<nat>)
    ensures Redacted(Obj(WalkEntries(heap, entries, seen).members))
    decreases |heap.Keys - seen|, 1 + |entries|
  {
    if entries != [] {
      if Forbidden(entries[0].0) {
        EntriesAreRedacted(heap, entries[1..], seen);
      } else {
        OutputIsRedacted(heap, entries[0].1, seen);
        SeenShrinksRest(heap, seen, Walk(heap, entries[0].1, seen).seen);
        EntriesAreRedacted(heap, entries[1..], Walk(heap, entries[0].1, seen).seen);
      }
    }
  }

  // ---- The flag tells the truth about what is reachable ----

  function LinksOf(heap: Heap, vs: seq<Value>): set<nat> {
    set i | 0 <= i < |vs| && vs[i].Link? && Container(heap, vs[i].ref) :: vs[i].ref
  }

  /** The values an object exposes through keys that are not forbidden. */
  function AllowedValues(entries: seq<(string, Value)>): seq<Value> {
    if entries == [] then []
    else (if Forbidden(entries[0].0) then [] else [entries[0].1]) + AllowedValues(entries[1..])
  }

  function Successors(heap: Heap, ref: nat): set<nat> {
    if ref !in heap then {}
    else match heap[ref]
      case ArrayNode(items) => LinksOf(heap, items)
      case ObjectNode(entries) => LinksOf(heap, AllowedValues(entries))
      case _ => {}
  }

  predicate CarriesForbidden(heap: Heap, ref: nat) {
    ref in heap && heap[ref].ObjectNode?
    && exists i :: 0 <= i < |heap[ref].entries| && Forbidden(heap[ref].entries[i].0)
  }

  predicate IsPath(heap: Heap, p: seq<nat>) {
    |p| > 0 && forall i :: 0 <= i < |p| - 1 ==> p[i + 1] in Successors(heap, p[i])
  }

  ghost predicate Reachable(heap: Heap, starts: set<nat>, ref: nat) {
    exists p :: IsPath(heap, p) && p[0] in starts && p[|p| - 1] == ref
  }

  /** What one walk visits: it closes over its new nodes, and can reach every one of them. */
  ghost predicate Explores(heap: Heap, starts: set<nat>, seen: set<nat>, after: set<nat>) {
    && seen <= after && starts <= after
    && (forall x :: x in after - seen ==> Successors(heap, x) <= after && Reachable(heap, starts, x))
  }

  predicate FoundForbidden(heap: Heap, visited: set<nat>) {
    exists x :: x in visited && CarriesForbidden(heap, x)
  }

  lemma ReachableStep(heap: Heap, starts: set<nat>, via: nat, ref: nat)
    requires via in starts && Reachable(heap, Successors(heap, via), ref)
    ensures Reachable(heap, starts, ref)
  {
    var p :| IsPath(heap, p) && p[0] in Successors(heap, via) && p[|p| - 1] == ref;
    var q := [via] + p;
    assert IsPath(heap, q) && q[|q| - 1] == ref;
  }

  lemma ReachableMore(heap: Heap, starts: set<nat>, more: set<nat>)
    requires starts <= more
    ensures forall x :: Reachable(heap, starts, x) ==> Reachable(heap, more, x)
  {
  }

  lemma {:induction false} ValueExplored(heap: Heap, v: Value, seen: set<nat>)
    ensures var r := Walk(heap, v, seen);
      Explores(heap, LinksOf(heap, [v]), seen, r.seen) && (r.redacted <==> FoundForbidden(heap, r.seen - seen))
    decreases |heap.Keys - seen|, 0
  {
    var starts := LinksOf(heap, [v]);
    if v.Link? && Container(heap, v.ref) {
      assert [v][0] == v;
      assert starts == {v.ref};
      if v.ref !in seen {
        var ref := v.ref;
        SubsetIsSmaller(heap.Keys - (seen + {ref}), heap.Keys - seen);
        match heap[ref] {
          case ArrayNode(items) =>
            ItemsExplored(heap, items, seen + {ref});
            NodeExplored(heap, ref, seen, WalkItems(heap, items, seen + {ref}).seen);
          case ObjectNode(entries) =>
            EntriesExplored(heap, entries, seen + {ref});
            NodeExplored(heap, ref, seen, WalkEntries(heap, entries, seen + {ref}).seen);
        }
      }
    } else {
      assert starts == {};
    }
  }

  /** From exploring a node's successors to exploring the node. */
  lemma NodeExplored(heap: Heap, ref: nat, seen: set<nat>, after: set<nat>)
    requires ref !in seen && Explores(heap, Successors(heap, ref), seen + {ref}, after)
    ensures Explores(heap, {ref}, seen, after)
    ensures FoundForbidden(heap, after - seen) <==> CarriesForbidden(heap, ref) || FoundForbidden(heap, after - (seen + {ref}))
  {
    forall x | x in after - seen ensures Successors(heap, x) <= after && Reachable(heap, {ref}, x) {
      if x == ref {
        assert IsPath(heap, [ref]) && [ref][|[ref]| - 1] == ref;
      } else {
        ReachableStep(heap, {ref}, ref, x);
      }
    }
    if FoundForbidden(heap, after - (seen + {ref})) {
      var x :| x in after - (seen + {ref}) && CarriesForbidden(heap, x);
      assert x in after - seen;
    }
  }

  lemma {:induction false} ItemsExplored(heap: Heap, items: seq<Value>, seen: set<nat>)
    ensures var r := WalkItems(heap, items, seen);
      Explores(heap, LinksOf(heap, items), seen, r.seen) && (r.redacted <==> FoundForbidden(heap, r.seen - seen))
    decreases |heap.Keys - seen|, 1 + |items|
  {
    if items != [] {
      var first := Walk(heap, items[0], seen);
      ValueExplored(heap, items[0], seen);
      SeenShrinksRest(heap, seen, first.seen);
      ItemsExplored(heap, items[1..], first.seen);
      var rest := WalkItems(heap, items[1..], first.seen);
      LinksSplit(heap, items);
      ExploreBoth(heap, LinksOf(heap, [items[0]]), LinksOf(heap, items[1..]), seen, first.seen, rest.seen);
    }
  }

  lemma LinksSplit(heap: Heap, vs: seq<Value>)
    requires vs != []
    ensures LinksOf(heap, vs) == LinksOf(heap, [vs[0]]) + LinksOf(heap, vs[1..])
  {
    forall x | x in LinksOf(heap, vs) ensures x in LinksOf(heap, [vs[0]]) + LinksOf(heap, vs[1..]) {
      var i :| 0 <= i < |vs| && vs[i].Link? && Container(heap, vs[i].ref) && vs[i].ref == x;
      if i == 0 {
        assert [vs[0]][0] == vs[0];
      } else {
        assert vs[1..][i - 1] == vs[i];
      }
    }
    forall x | x in LinksOf(heap, vs[1..]) ensures x in LinksOf(heap, vs) {
      var i :| 0 <= i < |vs[1..]| && vs[1..][i].Link? && Container(heap, vs[1..][i].ref) && vs[1..][i].ref == x;
      assert vs[i + 1] == vs[1..][i];
    }
  }

  lemma ExploreBoth(heap: Heap, a: set<nat>, b: set<nat>, seen: set<nat>, mid: set<nat>, after: set<nat>)
    requires Explores(heap, a, seen, mid) && Explores(heap, b, mid, after)
    ensures Explores(heap, a + b, seen, after)
    ensures FoundForbidden(heap, after - seen) <==> FoundForbidden(heap, mid - seen) || FoundForbidden(heap, after - mid)
  {
    ReachableMore(heap, a, a + b);
    ReachableMore(heap, b, a + b);
    assert forall x :: x in after - seen <==> x in mid - seen || x in after - mid;
  }

  predicate HasForbiddenEntry(entries: seq<(string, Value)>) {
    exists i :: 0 <= i < |entries| && Forbidden(entries[i].0)
  }

  lemma {:induction false} EntriesExplored(heap: Heap, entries: seq<(string, Value)>, seen: set<nat>)
    ensures var r := WalkEntries(heap, entries, seen);
      Explores(heap, LinksOf(heap, AllowedValues(entries)), seen, r.seen)
      && (r.redacted <==> HasForbiddenEntry(entries) || FoundForbidden(heap, r.seen - seen))
    decreases |heap.Keys - seen|, 1 + |entries|
  {
    if entries != [] {
      EntriesSplit(entries);
      if Forbidden(entries[0].0) {
        EntriesExplored(heap, entries[1..], seen);
        assert [] + AllowedValues(entries[1..]) == AllowedValues(entries[1..]);
      } else {
        var first := Walk(heap, entries[0].1, seen);
        ValueExplored(heap, entries[0].1, seen);
        SeenShrinksRest(heap, seen, first.seen);
        EntriesExplored(heap, entries[1..], first.seen);
        var rest := WalkEntries(heap, entries[1..], first.seen);
        var vs := AllowedValues(entries);
        assert vs[1..] == AllowedValues(entries[1..]);
        LinksSplit(heap, vs);
        ExploreBoth(heap, LinksOf(heap, [vs[0]]), LinksOf(heap, vs[1..]), seen, first.seen, rest.seen);
      }
    }
  }

  lemma EntriesSplit(entries: seq<(string, Value)>)
    requires entries != []
    ensures HasForbiddenEntry(entries) <==> Forbidden(entries[0].0) || HasForbiddenEntry(entries[1..])
  {
    if HasForbiddenEntry(entries[1..]) {
      var i :| 0 <= i < |entries[1..]| && Forbidden(entries[1..][i].0);
      assert entries[i + 1] == entries[1..][i];
    }
    if i :| 0 <= i < |entries| && Forbidden(entries[i].0) && i > 0 {
      assert entries[1..][i - 1] == entries[i];
    }
  }

  lemma {:induction false} ClosedSetHoldsReachable(heap: Heap, s: set<nat>, p: seq<nat>)
    requires forall x :: x in s ==> Successors(heap, x) <= s
    requires IsPath(heap, p) && p[0] in s
    ensures p[|p| - 1] in s
    decreases |p|
  {
    if |p| > 1 {
      forall i | 0 <= i < |p[1..]| - 1 ensures p[1..][i + 1] in Successors(heap, p[1..][i]) {
        assert p[i + 2] in Successors(heap, p[i + 1]);
      }
      ClosedSetHoldsReachable(heap, s, p[1..]);
    }
  }

  /**
   * On any finite graph, cyclic or shared: the output is free of forbidden keys, and the report
   * says redacted exactly when some object reachable through allowed keys carries a forbidden one.
   */
  lemma ReportIsTruthful(heap: Heap, root: Value)
    ensures Redacted(Walk(heap, root, {}).out)
    ensures Walk(heap, root, {}).redacted <==>
      exists ref :: Reachable(heap, LinksOf(heap, [root]), ref) && CarriesForbidden(heap, ref)
  {
    OutputIsRedacted(heap, root, {});
    ValueExplored(heap, root, {});
    var starts, visited := LinksOf(heap, [root]), Walk(heap, root, {}).seen;
    assert visited - {} == visited;
    forall ref | Reachable(heap, starts, ref) ensures ref in visited {
      var p :| IsPath(heap, p) && p[0] in starts && p[|p| - 1] == ref;
      ClosedSetHoldsReachable(heap, visited, p);
    }
  }

  // ---- Everything else stays in its place ----

  /** What stands in the output for a value: itself, a mark for a buffer or for an object met before, or its kept parts. */
  ghost predicate Mirrors(heap: Heap, v: Value, t: Tree)
    decreases t, 0
  {
    match v
    case Leaf(s) => t == Atom(s)
    case Link(ref) =>
      if ref !in heap then t == Atom(Opaque(ref))
      else match heap[ref]
        case Foreign => t == Atom(Opaque(ref))
        case Buffer => t == Atom(Str("[buffer:redacted]"))
        case ArrayNode(items) => t == Atom(Str("[cycle:redacted]")) || (t.Arr? && MirrorsItems(heap, items, t.items))
        case ObjectNode(entries) => t == Atom(Str("[cycle:redacted]")) || (t.Obj? && MirrorsEntries(heap, KeptEntries(entries), t.members))
  }

  ghost predicate MirrorsItems(heap: Heap, vs: seq<Value>, items: seq<Tree>)
    decreases items, 1
  {
    |vs| == |items| && forall i :: 0 <= i < |vs| ==> Mirrors(heap, vs[i], items[i])
  }

  /** The kept entries, in their order. */
  function KeptEntries(entries: seq<(string, Value)>): seq<(string, Value)> {
    if entries == [] then []
    else (if Kept(entries[0].0) then [entries[0]] else []) + KeptEntries(entries[1..])
  }

  ghost predicate MirrorsEntries(heap: Heap, kept: seq<(string, Value)>, members: seq<TreeMember>)
    decreases members, 1
  {
    |kept| == |members|
    && forall i :: 0 <= i < |kept| ==>
         assert members decreases to members[i]; kept[i].0 == members[i].key && Mirrors(heap, kept[i].1, members[i].value)
  }

  /** On any graph the output mirrors the input: buffers and repeated objects are marked, forbidden entries are gone, the rest stands. */
  lemma {:induction false} OutputMirrors(heap: Heap, v: Value, seen: set<nat>)
    ensures Mirrors(heap, v, Walk(heap, v, seen).out)
    decreases |heap.Keys - seen|, 0
  {
    if v.Link? && Container(heap, v.ref) && v.ref !in seen {
      SubsetIsSmaller(heap.Keys - (seen + {v.ref}), heap.Keys - seen);
      match heap[v.ref]
      case ArrayNode(items) => ItemsMirror(heap, items, seen + {v.ref});
      case ObjectNode(entries) => EntriesMirror(heap, entries, seen + {v.ref});
    }
  }

  lemma {:induction false} ItemsMirror(heap: Heap, items: seq<Value>, seen: set<nat>)
    ensures MirrorsItems(heap, items, WalkItems(heap, items, seen).items)
    decreases |heap.Keys - seen|, 1 + |items|
  {
    if items != [] {
      OutputMirrors(heap, items[0], seen);
      var first := Walk(heap, items[0], seen);
      SeenShrinksRest(heap, seen, first.seen);
      ItemsMirror(heap, items[1..], first.seen);
      var rest := WalkItems(heap, items[1..], first.seen).items;
      assert WalkItems(heap, items, seen).items == [first.out] + rest;
      hide Walk, WalkItems, Mirrors;
      forall i | 0 <= i < |items| ensures Mirrors(heap, items[i], ([first.out] + rest)[i]) {
        if i > 0 { assert items[i] == items[1..][i - 1]; }
      }
    }
  }

  lemma {:induction false} EntriesMirror(heap: Heap, entries: seq<(string, Value)>, seen: set<nat>)
    ensures MirrorsEntries(heap, KeptEntries(entries), WalkEntries(heap, entries, seen).members)
    decreases |heap.Keys - seen|, 1 + |entries|
  {
    if entries != [] {
      var (key, v) := entries[0];
      var first := Walk(heap, v, seen);
      var next := if Forbidden(key) then seen else first.seen;
      SeenShrinksRest(heap, seen, next);
      EntriesMirror(heap, entries[1..], next);
      var kept, rest := KeptEntries(entries[1..]), WalkEntries(heap, entries[1..], next).members;
      EntriesUnfold(heap, entries, 0, seen);
      assert entries[0..] == entries && [] + kept == kept && [] + rest == rest;
      assert KeptEntries(entries) == if Kept(key) then [entries[0]] + kept else kept;
      if Kept(key) {
        OutputMirrors(heap, v, seen);
        hide *;
        MirrorsCons(heap, entries[0], kept, Member(key, first.out), rest);
      }
    }
  }

  lemma MirrorsCons(heap: Heap, entry: (string, Value), kept: seq<(string, Value)>, m: TreeMember, rest: seq<TreeMember>)
    requires entry.0 == m.key && Mirrors(heap, entry.1, m.value) && MirrorsEntries(heap, kept, rest)
    ensures MirrorsEntries(heap, [entry] + kept, [m] + rest)
  {
    hide Mirrors;
  }

  // ---- Trees: the browser's sanitize, and a second pass ----

  /**
   * sanitize: the same key set is dropped, and an own "__proto__" is not kept either. A Date is an
   * object without entries to it, so that it becomes an empty object.
   */
  function Sanitize(t: Tree): Tree {
    match t
    case Atom(Opaque(_)) => Obj([])
    case Atom(_) => t
    case Arr(items) => Arr(SanitizeItems(items))
    case Obj(members) => Obj(SanitizeMembers(members))
  }

  function SanitizeItems(items: seq<Tree>): seq<Tree> {
    if items == [] then [] else [Sanitize(items[0])] + SanitizeItems(items[1..])
  }

  function SanitizeMembers(members: seq<TreeMember>): seq<TreeMember> {
    if members == [] then [] else
      match members[0]
      case Member(key, value) =>
        assert members decreases to members[0];
        if Forbidden(key) then SanitizeMembers(members[1..])
        else (if key == PROTO then [] else [Member(key, Sanitize(value))]) + SanitizeMembers(members[1..])
  }

  /** A forbidden key somewhere under allowed keys. */
  predicate Exposes(t: Tree) {
    match t
    case Atom(_) => false
    case Arr(items) => exists i :: 0 <= i < |items| && Exposes(items[i])
    case Obj(members) => exists i :: 0 <= i < |members| && (Forbidden(members[i].key) || Exposes(members[i].value))
  }

  /** A Date somewhere under keys that are kept. */
  predicate KeepsDate(t: Tree) {
    match t
    case Atom(s) => s.Opaque?
    case Arr(items) => exists i :: 0 <= i < |items| && KeepsDate(items[i])
    case Obj(members) => exists i :: 0 <= i < |members| && Kept(members[i].key) && KeepsDate(members[i].value)
  }

  /** The heap holds the tree t at v in the nodes ids, none of them shared. */
  ghost predicate Holds(heap: Heap, v: Value, t: Tree, ids: set<nat>)
    decreases t, 0
  {
    match t
    case Atom(Opaque(ref)) => v == Link(ref) && ids == {} && (ref !in heap || heap[ref].Foreign?)
    case Atom(s) => v == Leaf(s) && ids == {}
    case Arr(items) =>
      v.Link? && v.ref in ids && v.ref in heap && heap[v.ref].ArrayNode?
      && HoldsItems(heap, heap[v.ref].items, items, ids - {v.ref})
    case Obj(members) =>
      v.Link? && v.ref in ids && v.ref in heap && heap[v.ref].ObjectNode?
      && HoldsMembers(heap, heap[v.ref].entries, members, ids - {v.ref})
  }

  ghost predicate HoldsItems(heap: Heap, vs: seq<Value>, items: seq<Tree>, ids: set<nat>)
    decreases items, 1
  {
    |vs| == |items|
    && (items != [] ==> exists part :: part <= ids && Holds(heap, vs[0], items[0], part) && HoldsItems(heap, vs[1..], items[1..], ids - part))
  }

  ghost predicate HoldsMembers(heap: Heap, entries: seq<(string, Value)>, members: seq<TreeMember>, ids: set<nat>)
    decreases members, 1
  {
    |entries| == |members|
    && (members != [] ==>
        match members[0]
        case Member(key, value) =>
          assert members decreases to members[0];
          entries[0].0 == key && exists part ::
          part <= ids && Holds(heap, entries[0].1, value, part) && HoldsMembers(heap, entries[1..], members[1..], ids - part))
  }

  /** On an unshared tree the flag is Exposes, and the walk is sanitize exactly when it keeps no Date: on every JSON tree. */
  lemma {:induction false} WalkIsSanitize(heap: Heap, v: Value, t: Tree, ids: set<nat>, seen: set<nat>)
    requires Holds(heap, v, t, ids) && seen !! ids
    ensures var r := Walk(heap, v, seen);
      (r.out == Sanitize(t) <==> !KeepsDate(t)) && (r.redacted <==> Exposes(t)) && r.seen <= seen + ids
    decreases t, 0
  {
    match t
    case Atom(_) =>
    case Arr(items) => ItemsSanitize(heap, heap[v.ref].items, items, ids - {v.ref}, seen + {v.ref});
    case Obj(members) => MembersSanitize(heap, heap[v.ref].entries, members, ids - {v.ref}, seen + {v.ref});
  }

  lemma {:induction false} ItemsSanitize(heap: Heap, vs: seq<Value>, items: seq<Tree>, ids: set<nat>, seen: set<nat>)
    requires HoldsItems(heap, vs, items, ids) && seen !! ids
    ensures var r := WalkItems(heap, vs, seen);
      (r.items == SanitizeItems(items) <==> !KeepsDate(Arr(items)))
      && (r.redacted <==> Exposes(Arr(items))) && r.seen <= seen + ids
    decreases items, 1
  {
    if items != [] {
      var part :| part <= ids && Holds(heap, vs[0], items[0], part) && HoldsItems(heap, vs[1..], items[1..], ids - part);
      WalkIsSanitize(heap, vs[0], items[0], part, seen);
      var first := Walk(heap, vs[0], seen);
      ItemsSanitize(heap, vs[1..], items[1..], ids - part, first.seen);
      ItemsSplit(items);
      ConsEqual(first.out, WalkItems(heap, vs[1..], first.seen).items, Sanitize(items[0]), SanitizeItems(items[1..]));
      hide Holds, HoldsItems, Exposes, KeepsDate, Sanitize;
    }
  }

  lemma {:induction false} MembersSanitize(heap: Heap, entries: seq<(string, Value)>, members: seq<TreeMember>, ids: set<nat>, seen: set<nat>)
    requires HoldsMembers(heap, entries, members, ids) && seen !! ids
    ensures var r := WalkEntries(heap, entries, seen);
      (r.members == SanitizeMembers(members) <==> !KeepsDate(Obj(members)))
      && (r.redacted <==> Exposes(Obj(members))) && r.seen <= seen + ids
    decreases members, 1
  {
    if members != [] {
      var key, value := members[0].key, members[0].value;
      var part := FirstHeld(heap, entries, members, ids);
      assert members decreases to members[0];
      MembersSplit(members);
      FirstWalked(heap, entries, members, seen);
      var next := if Forbidden(key) then seen else Walk(heap, entries[0].1, seen).seen;
      assert Kept(key) <==> !Forbidden(key) && key != PROTO;
      if !Forbidden(key) { WalkIsSanitize(heap, entries[0].1, value, part, seen); }
      MembersSanitize(heap, entries[1..], members[1..], ids - part, next);
      hide *;
      ConsEqual(
        Member(key, Walk(heap, entries[0].1, seen).out), WalkEntries(heap, entries[1..], next).members,
        Member(key, Sanitize(value)), SanitizeMembers(members[1..]));
    }
  }

  lemma FirstHeld(heap: Heap, entries: seq<(string, Value)>, members: seq<TreeMember>, ids: set<nat>) returns (part: set<nat>)
    requires HoldsMembers(heap, entries, members, ids) && members != []
    ensures entries != [] && entries[0].0 == members[0].key && part <= ids
    ensures Holds(heap, entries[0].1, members[0].value, part) && HoldsMembers(heap, entries[1..], members[1..], ids - part)
  {
    part :| part <= ids && Holds(heap, entries[0].1, members[0].value, part) && HoldsMembers(heap, entries[1..], members[1..], ids - part);
  }

  /** The first entry's share of the walk and of sanitize. */
  lemma FirstWalked(heap: Heap, entries: seq<(string, Value)>, members: seq<TreeMember>, seen: set<nat>)
    requires entries != [] && members != [] && entries[0].0 == members[0].key
    ensures var (key, r) := (members[0].key, WalkEntries(heap, entries, seen));
      var first := Walk(heap, entries[0].1, seen);
      var rest := WalkEntries(heap, entries[1..], if Forbidden(key) then seen else first.seen);
      && r.members == (if Kept(key) then [Member(key, first.out)] + rest.members else rest.members)
      && r.seen == rest.seen && (r.redacted <==> if Forbidden(key) then true else first.redacted || rest.redacted)
      && SanitizeMembers(members)
        == (if Kept(key) then [Member(key, Sanitize(members[0].value))] + SanitizeMembers(members[1..]) else SanitizeMembers(members[1..]))
  {
    hide Walk, Sanitize;
  }

  lemma ConsEqual<T>(x: T, xs: seq<T>, y: T, ys: seq<T>)
    ensures [x] + xs == [y] + ys <==> x == y && xs == ys
  {
    assert ([x] + xs)[0] == x && ([x] + xs)[1..] == xs && ([y] + ys)[0] == y && ([y] + ys)[1..] == ys;
  }

  lemma ItemsSplit(items: seq<Tree>)
    requires items != []
    ensures Exposes(Arr(items)) <==> Exposes(items[0]) || Exposes(Arr(items[1..]))
    ensures KeepsDate(Arr(items)) <==> KeepsDate(items[0]) || KeepsDate(Arr(items[1..]))
  {
    assert forall i :: 0 < i < |items| ==> items[1..][i - 1] == items[i];
    assert forall i :: 0 <= i < |items| - 1 ==> items[i + 1] == items[1..][i];
  }

  lemma MembersSplit(members: seq<TreeMember>)
    requires members != []
    ensures Exposes(Obj(members)) <==> Forbidden(members[0].key) || Exposes(members[0].value) || Exposes(Obj(members[1..]))
    ensures KeepsDate(Obj(members)) <==> (Kept(members[0].key) && KeepsDate(members[0].value)) || KeepsDate(Obj(members[1..]))
  {
    hide Forbidden;
    assert forall i :: 0 < i < |members| ==> members[1..][i - 1] == members[i];
    assert forall i :: 0 <= i < |members| - 1 ==> members[i + 1] == members[1..][i];
  }

  /** A tree without forbidden keys, wherever it is rebuilt, is walked unchanged and reported as such. */
  lemma {:induction false} WalkKeepsRedacted(heap: Heap, v: Value, t: Tree, ids: set<nat>, seen: set<nat>)
    requires Holds(heap, v, t, ids) && seen !! ids && Redacted(t)
    ensures var r := Walk(heap, v, seen);
      r.out == t && !r.redacted && r.seen <= seen + ids
    decreases t, 0
  {
    match t
    case Atom(_) =>
    case Arr(items) => ItemsKept(heap, heap[v.ref].items, items, ids - {v.ref}, seen + {v.ref});
    case Obj(members) => MembersKept(heap, heap[v.ref].entries, members, ids - {v.ref}, seen + {v.ref});
  }

  lemma {:induction false} ItemsKept(heap: Heap, vs: seq<Value>, items: seq<Tree>, ids: set<nat>, seen: set<nat>)
    requires HoldsItems(heap, vs, items, ids) && seen !! ids && Redacted(Arr(items))
    ensures var r := WalkItems(heap, vs, seen);
      r.items == items && !r.redacted && r.seen <= seen + ids
    decreases items, 1
  {
    if items != [] {
      var part :| part <= ids && Holds(heap, vs[0], items[0], part) && HoldsItems(heap, vs[1..], items[1..], ids - part);
      WalkKeepsRedacted(heap, vs[0], items[0], part, seen);
      ItemsKept(heap, vs[1..], items[1..], ids - part, Walk(heap, vs[0], seen).seen);
    }
  }

  lemma {:induction false} MembersKept(heap: Heap, entries: seq<(string, Value)>, members: seq<TreeMember>, ids: set<nat>, seen: set<nat>)
    requires HoldsMembers(heap, entries, members, ids) && seen !! ids && Redacted(Obj(members))
    ensures var r := WalkEntries(heap, entries, seen);
      r.members == members && !r.redacted && r.seen <= seen + ids
    decreases members, 1
  {
    if members != [] {
      var part :| part <= ids && Holds(heap, entries[0].1, members[0].value, part) && HoldsMembers(heap, entries[1..], members[1..], ids - part);
      assert members decreases to members[0];
      assert Redacted(Obj(members[1..])) by { assert forall i :: 0 <= i < |members| - 1 ==> members[1..][i] == members[i + 1]; }
      WalkKeepsRedacted(heap, entries[0].1, members[0].value, part, seen);
      MembersKept(heap, entries[1..], members[1..], ids - part, Walk(heap, entries[0].1, seen).seen);
      assert members == [Member(members[0].key, members[0].value)] + members[1..];
    }
  }

  /** A second pass over the first pass's output, wherever it was rebuilt, changes nothing and reports false. */
  lemma SecondPassIsIdle(heap: Heap, v: Value, heap': Heap, v': Value, ids: set<nat>)
    requires Holds(heap', v', Walk(heap, v, {}).out, ids)
    ensures Walk(heap', v', {}).out == Walk(heap, v, {}).out && !Walk(heap', v', {}).redacted
  {
    OutputIsRedacted(heap, v, {});
    WalkKeepsRedacted(heap', v', Walk(heap, v, {}).out, ids, {});
  }

  // ---- The redactor object ----

  lemma AppendAssociates<T>(front: seq<T>, x: T, tail: seq<T>)
    ensures front + ([x] + tail) == (front + [x]) + tail
  {
  }

  lemma ItemsUnfold(heap: Heap, items: seq<Value>, i: nat, seen: set<nat>)
    requires i < |items|
    ensures var first := Walk(heap, items[i], seen);
      var rest := WalkItems(heap, items[i + 1..], first.seen);
      WalkItems(heap, items[i..], seen) == WalkedItems([first.out] + rest.items, rest.seen, first.redacted || rest.redacted)
  {
    assert items[i..][1..] == items[i + 1..];
  }

  lemma EntriesUnfold(heap: Heap, entries: seq<(string, Value)>, i: nat, seen: set<nat>)
    requires i < |entries|
    ensures var (k, v) := entries[i];
      var first := Walk(heap, v, seen);
      var rest := WalkEntries(heap, entries[i + 1..], if Forbidden(k) then seen else first.seen);
      WalkEntries(heap, entries[i..], seen)
        == if Forbidden(k) then rest.(redacted := true)
           else WalkedEntries(
               (if k == PROTO then [] else [Member(k, first.out)]) + rest.members, rest.seen, first.redacted || rest.redacted)
  {
    assert entries[i..][1..] == entries[i + 1..];
  }

  /** One redaction: the seen set and the flag that walk mutates as it goes. */
  class Redaction {
    var seen: set<nat>
    var redacted: bool

    constructor ()
      ensures seen == {} && !redacted
    {
      seen, redacted := {}, false;
    }

    method WalkValue(heap: Heap, v: Value) returns (out: Tree)
      modifies this
      ensures var r := Walk(heap, v, old(seen));
        out == r.out && seen == r.seen && redacted == (old(redacted) || r.redacted)
      decreases |heap.Keys - seen|, 0
    {
      if v.Leaf? { return Atom(v.scalar); }
      var ref := v.ref;
      if ref !in heap || heap[ref].Foreign? { return Atom(Opaque(ref)); }
      if heap[ref].Buffer? { return BUFFER_MARK; }
      if ref in seen { return CYCLE_MARK; }
      SubsetIsSmaller(heap.Keys - (seen + {ref}), heap.Keys - seen);
      seen := seen + {ref};
      match heap[ref] {
        case ArrayNode(items) =>
          var outItems := WalkArray(heap, items);
          return Arr(outItems);
        case ObjectNode(entries) =>
          var outMembers := WalkObject(heap, entries);
          return Obj(outMembers);
      }
    }

    method WalkArray(heap: Heap, items: seq<Value>) returns (out: seq<Tree>)
      modifies this
      ensures var r := WalkItems(heap, items, old(seen));
        out == r.items && seen == r.seen && redacted == (old(redacted) || r.redacted)
      decreases |heap.Keys - seen|, 1
    {
      out := [];
      ghost var all := WalkItems(heap, items, seen);
      assert items[0..] == items && WalkItems(heap, [], seen) == WalkedItems([], seen, false);
      hide Walk, WalkItems;
      for i := 0 to |items|
        invariant old(seen) <= seen
        invariant var rest := WalkItems(heap, items[i..], seen);
          all.items == out + rest.items && all.seen == rest.seen
          && (old(redacted) || all.redacted) == (redacted || rest.redacted)
      {
        SeenShrinksRest(heap, old(seen), seen);
        ItemsUnfold(heap, items, i, seen);
        var item := WalkValue(heap, items[i]);
        AppendAssociates(out, item, WalkItems(heap, items[i + 1..], seen).items);
        out := out + [item];
      }
    }

    method WalkObject(heap: Heap, entries: seq<(string, Value)>) returns (out: seq<TreeMember>)
      modifies this
      ensures var r := WalkEntries(heap, entries, old(seen));
        out == r.members && seen == r.seen && redacted == (old(redacted) || r.redacted)
      decreases |heap.Keys - seen|, 1
    {
      out := [];
      ghost var all := WalkEntries(heap, entries, seen);
      assert entries[0..] == entries;
      hide Walk, WalkItems;
      for i := 0 to |entries|
        invariant old(seen) <= seen
        invariant var rest := WalkEntries(heap, entries[i..], seen);
          all.members == out + rest.members && all.seen == rest.seen
          && (old(redacted) || all.redacted) == (redacted || rest.redacted)
      {
        SeenShrinksRest(heap, old(seen), seen);
        EntriesUnfold(heap, entries, i, seen);
        var (k, value) := entries[i];
        if Forbidden(k) {
          redacted := true;
          continue;
        }
        var walked := WalkValue(heap, value);
        ghost var tail := WalkEntries(heap, entries[i + 1..], seen).members;
        assert [] + tail == tail;
        AppendAssociates(out, Member(k, walked), tail);
        if k != PROTO {
          out := out + [Member(k, walked)];
        }
      }
    }
  }

  /** redactWithReport: a fresh seen set and flag for every call. */
  method RedactWithReport(heap: Heap, root: Value) returns (value: Tree, redacted: bool)
    ensures value == Walk(heap, root, {}).out && Redacted(value)
    ensures redacted <==> exists ref :: Reachable(heap, LinksOf(heap, [root]), ref) && CarriesForbidden(heap, ref)
  {
    var redaction := new Redaction();
    value := redaction.WalkValue(heap, root);
    redacted := redaction.redacted;
    ReportIsTruthful(heap, root);
  }

  /** The browser's loop over entries. */
  method SanitizeObject(members: seq<TreeMember>) returns (out: seq<TreeMember>)
    ensures out == SanitizeMembers(members)
    ensures Redacted(Obj(out))
  {
    out := [];
    for i := 0 to |members|
      invariant SanitizeMembers(members) == out + SanitizeMembers(members[i..])
    {
      assert members[i..][1..] == members[i + 1..];
      if !Forbidden(members[i].key) && members[i].key != PROTO {
        out := out + [Member(members[i].key, Sanitize(members[i].value))];
      }
    }
    SanitizeRedacts(Obj(members));
  }

  lemma {:induction false} SanitizeRedacts(t: Tree)
    ensures Redacted(Sanitize(t))
    decreases t, 0
  {
    match t
    case Atom(_) =>
    case Arr(items) => ItemsRedact(items);
    case Obj(members) => MembersRedact(members);
  }

  lemma {:induction false} ItemsRedact(items: seq<Tree>)
    ensures Redacted(Arr(SanitizeItems(items)))
    decreases items, 1
  {
    if items != [] {
      SanitizeRedacts(items[0]);
      ItemsRedact(items[1..]);
    }
  }

  lemma {:induction false} MembersRedact(members: seq<TreeMember>)
    ensures Redacted(Obj(SanitizeMembers(members)))
    decreases members, 1
  {
    if members != [] {
      assert members decreases to members[0];
      SanitizeRedacts(members[0].value);
      MembersRedact(members[1..]);
    }
  }
}
