/**
 * The browser's reading of a trace: deriveIntent folds the rows into a view, buildStepper
 * draws the rail. Replaying a router's trace gives back what the router holds.
 */
module IntentViews {
  import opened Wrappers
  import opened JsonTrees
  import opened ApiTrees
  import opened Decimal
  import opened SpendTable
  import opened PolicyRules
  import opened Redactor
  import opened AuditTraces
  import opened HashKinds
  import opened IntentRouters
  import opened IntentStories
  import Calendar

  // ---- GET /:id/trace ----

  datatype TraceEntry = TraceEntry(atMs: int, state: IntentState, kind: Kind, payload: Tree, redacted: bool)

  /** Each row goes through the redactor, which on a JSON tree is Sanitize with the flag Exposes. */
  function Exported(row: TraceRow): TraceEntry {
    TraceEntry(row.atMs, row.state, row.kind, Sanitize(row.payload), Exposes(row.payload))
  }

  function ExportAll(rows: seq<TraceRow>): (r: seq<TraceEntry>)
    ensures |r| == |rows|
  {
    seq(|rows|, i requires 0 <= i < |rows| => Exported(rows[i]))
  }

  function GetTrace(s: Server, id: string): seq<TraceEntry> {
    ExportAll(ListByIntent(s.trace, id))
  }

  // ---- deriveIntent ----

  datatype View = View(
    state: Option<IntentState>,
    body: Option<Tree>,
    policyDigest: Option<string>,
    deployHash: Option<string>,
    deployHashKind: Option<HashKind>,
    rejectionCode: Option<string>,
    rejectionReason: Option<string>)

  const BLANK: View := View(None, None, None, None, None, None, None)

  predicate IsRecord(t: Option<Tree>) {
    t.Some? && !t.value.Atom?
  }

  function KindOf(text: Option<string>): Option<HashKind> {
    match text
    case None => None
    case Some(t) => if t == "transaction" then Some(TransactionKind) else if t == "deploy" then Some(DeployKind) else None
  }

  /** What one row overwrites. */
  function Captured(view: View, e: TraceEntry): View {
    match e.kind
    case Creation =>
      if IsRecord(Field(e.payload, "body")) then view.(body := Field(e.payload, "body")) else view
    case PolicyCheck =>
      if Field(e.payload, "allowed") == Some(Atom(Bool(true))) then view.(policyDigest := Text(Field(e.payload, "policyDigest")))
      else if Field(e.payload, "allowed") == Some(Atom(Bool(false))) then view.(rejectionCode := Text(Field(e.payload, "code")))
      else view
    case Execution =>
      view.(deployHash := Text(Field(e.payload, "deployHash")), deployHashKind := KindOf(Text(Field(e.payload, "hashKind"))))
    case Rejection =>
      view.(rejectionReason := Text(Field(e.payload, "reason")))
  }

  function CapturedAll(view: View, entries: seq<TraceEntry>): View {
    if entries == [] then view
    else Captured(CapturedAll(view, entries[..|entries| - 1]), entries[|entries| - 1])
  }

  function Derived(entries: seq<TraceEntry>): View {
    if entries == [] then BLANK else CapturedAll(BLANK.(state := Some(entries[|entries| - 1].state)), entries)
  }

  method DeriveIntent(entries: seq<TraceEntry>) returns (view: View)
    ensures view == Derived(entries)
  {
    view := BLANK;
    if entries == [] { return; }
    view := view.(state := Some(entries[|entries| - 1].state));
    ghost var start := view;
    for i := 0 to |entries|
      invariant view == CapturedAll(start, entries[..i])
    {
      assert entries[..i + 1][..i] == entries[..i];
      view := Captured(view, entries[i]);
    }
    assert entries[..|entries|] == entries;
  }

  // ---- What redaction leaves of a payload ----

  /** Redaction passes down to the value of every key it keeps. */
  lemma {:induction false} FieldSurvives(members: seq<TreeMember>, key: string)
    requires !Forbidden(key) && key != PROTO
    ensures Lookup(SanitizeMembers(members), key)
      == (match Lookup(members, key) case None => None case Some(v) => Some(Sanitize(v)))
  {
    if members != [] {
      FieldSurvives(members[1..], key);
      if !Forbidden(members[0].key) && members[0].key != PROTO {
        LookupHead(Member(members[0].key, Sanitize(members[0].value)), SanitizeMembers(members[1..]), key);
      } else {
        assert [] + SanitizeMembers(members[1..]) == SanitizeMembers(members[1..]);
      }
    }
  }

  lemma LookupHead(m: TreeMember, rest: seq<TreeMember>, key: string)
    ensures Lookup([m] + rest, key) == if m.key == key then Some(m.value) else Lookup(rest, key)
  {
    assert ([m] + rest)[1..] == rest;
  }

  lemma TextSurvives(payload: Tree, key: string)
    requires !Forbidden(key) && key != PROTO
    ensures Text(Field(Sanitize(payload), key)) == Text(Field(payload, key))
  {
    if payload.Obj? {
      FieldSurvives(payload.members, key);
    }
  }

  lemma PairLookup(a: TreeMember, b: TreeMember, key: string)
    ensures Lookup([a, b], key) == if a.key == key then Some(a.value) else if b.key == key then Some(b.value) else None
  {
    assert [a, b] == [a] + [b] && [b] == [b] + [];
    LookupHead(a, [b], key);
    LookupHead(b, [], key);
  }

  lemma OneLookup(a: TreeMember, key: string)
    ensures Lookup([a], key) == if a.key == key then Some(a.value) else None
  {
    assert [a] == [a] + [];
    LookupHead(a, [], key);
  }

  lemma {:induction false} FlatSurvives(members: seq<TreeMember>)
    requires forall i :: 0 <= i < |members| ==>
      Kept(members[i].key) && members[i].value.Atom? && !members[i].value.atom.Opaque?
    ensures SanitizeMembers(members) == members
  {
    if members != [] {
      assert forall i :: 0 <= i < |members| - 1 ==> members[1..][i] == members[i + 1];
      FlatSurvives(members[1..]);
      assert members == [Member(members[0].key, members[0].value)] + members[1..];
    }
  }

  lemma BodySurvives(b: IntentBody)
    ensures Sanitize(BodyTree(b)) == BodyTree(b)
  {
    FlatSurvives(BodyTree(b).members);
  }

  // ---- What each kind of row contributes ----

  lemma CreationCaptures(view: View, row: TraceRow, body: IntentBody)
    requires IsCreation(row, body)
    ensures Captured(view, Exported(row)) == view.(body := Some(BodyTree(body)))
  {
    BodySurvives(body);
    OneLookup(Member("body", BodyTree(body)), "body");
    FieldSurvives(row.payload.members, "body");
    hide BodyTree, Lookup, SanitizeMembers;
  }

  lemma ValidationCaptures(c: Config, view: View, row: TraceRow)
    requires IsValidation(c, row)
    ensures Captured(view, Exported(row)) == view.(policyDigest := Some(c.policyDigest))
  {
    var a, d := Member("allowed", Atom(Bool(true))), Member("policyDigest", Word(c.policyDigest));
    PairLookup(a, d, "allowed");
    PairLookup(a, d, "policyDigest");
    FieldSurvives(row.payload.members, "allowed");
    TextSurvives(row.payload, "policyDigest");
    hide Lookup, SanitizeMembers;
  }

  lemma DenialCaptures(view: View, row: TraceRow, denial: Denial)
    requires row.kind.PolicyCheck? && row.payload == DeniedPayload(denial)
    ensures Captured(view, Exported(row)) == view.(rejectionCode := Some(DenialCode(denial)))
  {
    var a, d := Member("allowed", Atom(Bool(false))), Member("code", Word(DenialCode(denial)));
    PairLookup(a, d, "allowed");
    PairLookup(a, d, "code");
    FieldSurvives(row.payload.members, "allowed");
    TextSurvives(row.payload, "code");
    hide Lookup, SanitizeMembers, DenialCode;
  }

  lemma ExecutionCaptures(view: View, row: TraceRow)
    requires row.kind.Execution?
    ensures Captured(view, Exported(row)) == view.(
      deployHash := Text(Field(row.payload, "deployHash")), deployHashKind := KindOf(Text(Field(row.payload, "hashKind"))))
  {
    TextSurvives(row.payload, "deployHash");
    TextSurvives(row.payload, "hashKind");
  }

  lemma RejectionCaptures(view: View, row: TraceRow)
    requires row.kind.Rejection?
    ensures Captured(view, Exported(row)) == view.(rejectionReason := Text(Field(row.payload, "reason")))
  {
    TextSurvives(row.payload, "reason");
  }

  // ---- Replay ----

  predicate HasTextHash(row: TraceRow) {
    row.kind.Execution? && Text(Field(row.payload, "deployHash")).Some?
  }

  lemma CapturedAppend(view: View, rows: seq<TraceRow>, row: TraceRow)
    ensures CapturedAll(view, ExportAll(rows + [row])) == Captured(CapturedAll(view, ExportAll(rows)), Exported(row))
  {
    assert ExportAll(rows + [row])[..|rows|] == ExportAll(rows);
  }

  lemma MarkedText(hash: Tree)
    ensures Field(MarkedPayload(hash), "deployHash") == Some(hash)
  {
    OneLookup(Member("deployHash", hash), "deployHash");
  }

  lemma ConfirmedText(hash: string, height: string, kind: Option<HashKind>)
    ensures Text(Field(ConfirmedPayload(hash, height, kind), "deployHash")) == Some(hash)
  {
    var first := Member("deployHash", Word(hash));
    assert ConfirmedPayload(hash, height, kind).members[0] == first;
  }

  lemma LaterRows(c: Config, intent: Intent, entry: Option<Entry>, rows: seq<TraceRow>)
    requires Tells(c, intent, entry, rows)
    ensures |rows| <= 4 && rows[0].state.Draft?
    ensures |rows| >= 3 ==> (rows[2].kind.Rejection? && rows[2].state.Rejected?) || (rows[2].kind.Execution? && rows[2].state.Executed?)
    ensures |rows| >= 3 ==> (ShowsExecution(rows) <==> rows[2].kind.Execution?)
    ensures |rows| < 3 ==> !ShowsExecution(rows)
    ensures |rows| == 4 ==> rows[3].kind.Rejection? && rows[3].state.Rejected?
  {
    StoryShows(c, intent, entry, rows, "");
    hide Backs, CreatedPayload, IsValidation, ShowsExecution, MarkedPayload, ConfirmedPayload, RejectedPayload, PassesHashTest, IsLowerHex;
  }

  // The rows of one story write different fields of the view, so the fold keeps them all.

  datatype Slot = BodySlot | DigestSlot | CodeSlot | HashSlot | ReasonSlot

  function SlotOf(row: TraceRow): Slot {
    match row.kind
    case Creation => BodySlot
    case PolicyCheck => if row.state.PolicyValidated? then DigestSlot else CodeSlot
    case Execution => HashSlot
    case Rejection => ReasonSlot
  }

  /** The view shows what a row says. */
  predicate ShowsRow(v: View, row: TraceRow) {
    match SlotOf(row)
    case BodySlot => v.body == Field(row.payload, "body")
    case DigestSlot => v.policyDigest == Text(Field(row.payload, "policyDigest"))
    case CodeSlot => v.rejectionCode == Text(Field(row.payload, "code"))
    case HashSlot =>
      v.deployHash == Text(Field(row.payload, "deployHash")) && v.deployHashKind == KindOf(Text(Field(row.payload, "hashKind")))
    case ReasonSlot => v.rejectionReason == Text(Field(row.payload, "reason"))
  }

  predicate SameSlot(v: View, v': View, slot: Slot) {
    match slot
    case BodySlot => v.body == v'.body
    case DigestSlot => v.policyDigest == v'.policyDigest
    case CodeSlot => v.rejectionCode == v'.rejectionCode
    case HashSlot => v.deployHash == v'.deployHash && v.deployHashKind == v'.deployHashKind
    case ReasonSlot => v.rejectionReason == v'.rejectionReason
  }

  /** A row as the router writes it. */
  ghost predicate RouterRow(c: Config, row: TraceRow) {
    (exists body :: IsCreation(row, body)) || IsValidation(c, row) || IsDenial(row) || row.kind.Execution? || row.kind.Rejection?
  }

  lemma CaptureShows(c: Config, v: View, row: TraceRow)
    requires RouterRow(c, row)
    ensures var v' := Captured(v, Exported(row));
      ShowsRow(v', row) && v'.state == v.state && forall slot :: slot != SlotOf(row) ==> SameSlot(v, v', slot)
  {
    if row.kind.Execution? {
      ExecutionCaptures(v, row);
    } else if row.kind.Rejection? {
      RejectionCaptures(v, row);
    } else if body :| IsCreation(row, body) {
      CreationCaptures(v, row, body);
      OneLookup(Member("body", BodyTree(body)), "body");
    } else if IsValidation(c, row) {
      ValidationCaptures(c, v, row);
      PairLookup(Member("allowed", Atom(Bool(true))), Member("policyDigest", Word(c.policyDigest)), "policyDigest");
    } else {
      var denial :| row.payload == DeniedPayload(denial);
      DenialCaptures(v, row, denial);
      PairLookup(Member("allowed", Atom(Bool(false))), Member("code", Word(DenialCode(denial))), "code");
    }
    hide Captured, Exported, Lookup, BodyTree, DenialCode;
  }

  predicate DistinctSlots(rows: seq<TraceRow>) {
    forall i, j :: 0 <= i < j < |rows| ==> SlotOf(rows[i]) != SlotOf(rows[j])
  }

  predicate Fills(rows: seq<TraceRow>, slot: Slot) {
    exists i :: 0 <= i < |rows| && SlotOf(rows[i]) == slot
  }

  /** Every row shows, and a field no row writes is as it was. */
  predicate ShowsAll(v: View, start: View, rows: seq<TraceRow>) {
    v.state == start.state
    && (forall i :: 0 <= i < |rows| ==> ShowsRow(v, rows[i]))
    && (forall slot :: !Fills(rows, slot) ==> SameSlot(start, v, slot))
  }

  lemma {:induction false} FoldShowsAll(c: Config, start: View, rows: seq<TraceRow>)
    requires DistinctSlots(rows) && forall i :: 0 <= i < |rows| ==> RouterRow(c, rows[i])
    ensures ShowsAll(CapturedAll(start, ExportAll(rows)), start, rows)
  {
    if rows == [] {
      assert ExportAll(rows) == [];
    } else {
      var front, last := rows[..|rows| - 1], rows[|rows| - 1];
      FoldShowsAll(c, start, front);
      assert rows == front + [last];
      CapturedAppend(start, front, last);
      var v := CapturedAll(start, ExportAll(front));
      CaptureShows(c, v, last);
      hide RouterRow, Captured, Exported, CapturedAll, ExportAll;
      AppendShowsAll(start, v, Captured(v, Exported(last)), front, last);
    }
  }

  lemma AppendShowsAll(start: View, v: View, v': View, front: seq<TraceRow>, last: TraceRow)
    requires DistinctSlots(front + [last]) && ShowsAll(v, start, front)
    requires ShowsRow(v', last) && v'.state == v.state && forall slot :: slot != SlotOf(last) ==> SameSlot(v, v', slot)
    ensures ShowsAll(v', start, front + [last])
  {
    var rows := front + [last];
    forall i | 0 <= i < |rows| ensures ShowsRow(v', rows[i]) {
      if i < |front| {
        assert SlotOf(rows[i]) != SlotOf(rows[|front|]);
        assert ShowsRow(v, front[i]) && SameSlot(v, v', SlotOf(front[i]));
      }
    }
    forall slot | !Fills(rows, slot) ensures SameSlot(start, v', slot) {
      assert rows[|front|] == last;
      assert forall i :: 0 <= i < |front| ==> rows[i] == front[i];
      assert !Fills(front, slot);
      assert SameSlot(v, v', slot);
    }
  }

  lemma StorySlots(c: Config, intent: Intent, entry: Option<Entry>, rows: seq<TraceRow>)
    requires Tells(c, intent, entry, rows)
    ensures DistinctSlots(rows) && forall i :: 0 <= i < |rows| ==> RouterRow(c, rows[i])
  {
    StoryKinds(c, intent, entry, rows);
    hide *;
    SlotsOfKinds(c, intent, rows);
    FourRows(c, rows);
  }

  lemma FourRows(c: Config, rows: seq<TraceRow>)
    requires 1 <= |rows| <= 4 && SlotOf(rows[0]) == BodySlot && RouterRow(c, rows[0])
    requires |rows| >= 2 ==> SlotOf(rows[1]) != BodySlot && RouterRow(c, rows[1])
    requires |rows| >= 3 ==> SlotOf(rows[1]) == DigestSlot && SlotOf(rows[2]) in {HashSlot, ReasonSlot} && RouterRow(c, rows[2])
    requires |rows| == 4 ==> SlotOf(rows[2]) == HashSlot && SlotOf(rows[3]) == ReasonSlot && RouterRow(c, rows[3])
    ensures DistinctSlots(rows) && forall i :: 0 <= i < |rows| ==> RouterRow(c, rows[i])
  {
    hide RouterRow, SlotOf;
    forall i | 0 <= i < |rows| ensures RouterRow(c, rows[i]) {
      assert i == 0 || i == 1 || i == 2 || i == 3;
    }
  }

  lemma SlotsOfKinds(c: Config, intent: Intent, rows: seq<TraceRow>)
    requires 1 <= |rows| <= 4 && IsCreation(rows[0], intent.body)
    requires |rows| == 2 ==> IsValidation(c, rows[1]) || IsDenial(rows[1]) || IsRejection(rows[1])
    requires |rows| >= 3 ==> IsValidation(c, rows[1]) && (rows[2].kind.Execution? || (|rows| == 3 && rows[2].kind.Rejection?))
    requires |rows| == 4 ==> rows[3].kind.Rejection?
    ensures SlotOf(rows[0]) == BodySlot && RouterRow(c, rows[0])
    ensures |rows| >= 2 ==> SlotOf(rows[1]) != BodySlot && RouterRow(c, rows[1])
    ensures |rows| >= 3 ==> SlotOf(rows[1]) == DigestSlot && SlotOf(rows[2]) in {HashSlot, ReasonSlot} && RouterRow(c, rows[2])
    ensures |rows| == 4 ==> SlotOf(rows[2]) == HashSlot && SlotOf(rows[3]) == ReasonSlot && RouterRow(c, rows[3])
  {
    hide CreatedPayload, ValidatedPayload, RejectedPayload, DeniedPayload;
  }

  lemma StoryKinds(c: Config, intent: Intent, entry: Option<Entry>, rows: seq<TraceRow>)
    requires Tells(c, intent, entry, rows)
    ensures 1 <= |rows| <= 4 && IsCreation(rows[0], intent.body)
    ensures |rows| == 2 ==> IsValidation(c, rows[1]) || IsDenial(rows[1]) || IsRejection(rows[1])
    ensures |rows| >= 3 ==> IsValidation(c, rows[1]) && (rows[2].kind.Execution? || (|rows| == 3 && rows[2].kind.Rejection?))
    ensures |rows| == 4 ==> rows[3].kind.Rejection?
  {
    hide Backs, IsDenial, IsCreation, IsValidation;
  }

  /** The intent was executed, and the hash it was executed with is a JSON string. */
  ghost predicate ExecutedWithText(s: Server, id: string) {
    exists row :: row in s.trace && row.intentId == id && HasTextHash(row)
  }

  lemma StoryIsListed(c: Config, s: Server, id: string)
    requires Told(c, s) && Chronological(s.trace) && id in s.intents
    ensures GetTrace(s, id) == ExportAll(RowsOf(s.trace, id)) != []
    ensures Tells(c, s.intents[id], EntryAt(s.table, id), RowsOf(s.trace, id))
  {
    ListingIsInsertionOrder(s.trace, id);
    hide RowsOf, Exported, UniqueIds, WithinCap;
    assert Tells(c, s.intents[id], EntryAt(s.table, id), RowsOf(s.trace, id));
  }

  ghost predicate ShowsValidated(rows: seq<TraceRow>) {
    exists i :: 0 <= i < |rows| && rows[i].state.PolicyValidated?
  }

  ghost predicate ShowsText(rows: seq<TraceRow>) {
    exists i :: 0 <= i < |rows| && HasTextHash(rows[i])
  }

  lemma StoryFacts(c: Config, s: Server, id: string)
    requires Told(c, s) && id in s.intents
    ensures var rows := RowsOf(s.trace, id);
      (WasValidated(s, id) <==> id in s.table) && (ExecutedWithText(s, id) <==> ShowsText(rows))
  {
    var rows := RowsOf(s.trace, id);
    assert Tells(c, s.intents[id], EntryAt(s.table, id), rows);
    StoryRows(c, s.intents[id], EntryAt(s.table, id), rows);
    forall row ensures row in rows <==> row in s.trace && row.intentId == id {
      RowsOfMember(s.trace, id, row);
    }
    hide Told, RowsOf, Tells, HasTextHash;
  }

  lemma BackedIsValidated(c: Config, intent: Intent, entry: Option<Entry>, rows: seq<TraceRow>)
    requires Tells(c, intent, entry, rows)
    ensures entry.Some? ==> |rows| > 1 && rows[1].state.PolicyValidated?
    ensures entry == None ==> 1 <= |rows| <= 2 && (|rows| == 2 ==> rows[1].state.Rejected?)
  {
    hide IsExecution, IsCreation, ValidatedPayload, DeniedPayload, RejectedPayload;
  }

  lemma StoryRows(c: Config, intent: Intent, entry: Option<Entry>, rows: seq<TraceRow>)
    requires Tells(c, intent, entry, rows)
    ensures ShowsValidated(rows) <==> entry.Some?
  {
    hide Backs, Text, Field;
    hide CreatedPayload, DeniedPayload, ValidatedPayload, MarkedPayload, ConfirmedPayload, RejectedPayload, PassesHashTest, IsLowerHex;
    BackedIsValidated(c, intent, entry, rows);
  }

  /**
   * What replaying an intent's redacted trace gives back: its state and body always, the policy
   * digest iff it was ever validated, a deploy hash iff it was executed with a hash given as a
   * string, and what every one of its rows says, whatever rows follow.
   */
  ghost predicate Replayed(c: Config, s: Server, id: string)
    requires id in s.intents
  {
    var v, intent := Derived(GetTrace(s, id)), s.intents[id];
    && v.state == Some(intent.state)
    && v.body == Some(BodyTree(intent.body))
    && v.policyDigest == (if WasValidated(s, id) then Some(c.policyDigest) else None)
    && (v.deployHash.Some? <==> ExecutedWithText(s, id))
    && (intent.deployHash.Some? ==> v.deployHash == intent.deployHash)
    && (forall row :: row in s.trace && row.intentId == id ==> ShowsRow(v, row))
  }

  lemma ReplayRebuildsIntent(c: Config, s: Server, id: string)
    requires Told(c, s) && Chronological(s.trace) && id in s.intents
    ensures Replayed(c, s, id)
  {
    var v, intent, rows := Derived(GetTrace(s, id)), s.intents[id], RowsOf(s.trace, id);
    StoryIsListed(c, s, id);
    StoryFacts(c, s, id);
    StoryDerived(c, intent, EntryAt(s.table, id), rows);
    forall row ensures row in rows <==> row in s.trace && row.intentId == id {
      RowsOfMember(s.trace, id, row);
    }
    assert EntryAt(s.table, id).Some? <==> id in s.table;
    hide Told, RowsOf, Tells, ShowsRow, Derived, GetTrace, BodyTree, WasValidated, ExecutedWithText, ExportAll, ShowsText;
  }

  lemma StoryDerived(c: Config, intent: Intent, entry: Option<Entry>, rows: seq<TraceRow>)
    requires Tells(c, intent, entry, rows)
    ensures var v := Derived(ExportAll(rows));
      && v.state == Some(intent.state)
      && v.body == Some(BodyTree(intent.body))
      && v.policyDigest == (if entry.Some? then Some(c.policyDigest) else None)
      && (v.deployHash.Some? <==> ShowsText(rows))
      && (intent.deployHash.Some? ==> v.deployHash == intent.deployHash)
      && (forall i :: 0 <= i < |rows| ==> ShowsRow(v, rows[i]))
  {
    var start := BLANK.(state := Some(intent.state));
    LastState(c, intent, entry, rows);
    StorySlots(c, intent, entry, rows);
    FoldShowsAll(c, start, rows);
    var v := CapturedAll(start, ExportAll(rows));
    assert Derived(ExportAll(rows)) == v by { hide CapturedAll, Exported; }
    BodyShown(c, intent, entry, rows, v);
    DigestShown(c, intent, entry, rows, start, v);
    HashShown(rows, start, v);
    HashRecorded(c, intent, entry, rows, v);
    hide *;
    assert start.deployHash == None;
  }

  lemma BodyShown(c: Config, intent: Intent, entry: Option<Entry>, rows: seq<TraceRow>, v: View)
    requires Tells(c, intent, entry, rows) && forall i :: 0 <= i < |rows| ==> ShowsRow(v, rows[i])
    ensures v.body == Some(BodyTree(intent.body))
  {
    StoryKinds(c, intent, entry, rows);
    hide Tells, BodyTree;
    assert ShowsRow(v, rows[0]);
    OneLookup(Member("body", BodyTree(intent.body)), "body");
  }

  lemma DigestShown(c: Config, intent: Intent, entry: Option<Entry>, rows: seq<TraceRow>, start: View, v: View)
    requires Tells(c, intent, entry, rows) && ShowsAll(v, start, rows) && start.policyDigest == None
    ensures v.policyDigest == if entry.Some? then Some(c.policyDigest) else None
  {
    StoryKinds(c, intent, entry, rows);
    BackedIsValidated(c, intent, entry, rows);
    hide Tells, IsCreation, IsDenial, IsRejection;
    if entry.Some? {
      assert ShowsRow(v, rows[1]);
      assert IsValidation(c, rows[1]) by { StoryValidated(c, intent, entry, rows); }
      PairLookup(Member("allowed", Atom(Bool(true))), Member("policyDigest", Word(c.policyDigest)), "policyDigest");
    } else {
      assert !Fills(rows, DigestSlot) by { NoDigestRow(c, intent, entry, rows); }
      assert SameSlot(start, v, DigestSlot);
    }
  }

  lemma StoryValidated(c: Config, intent: Intent, entry: Option<Entry>, rows: seq<TraceRow>)
    requires Tells(c, intent, entry, rows) && entry.Some?
    ensures |rows| > 1 && IsValidation(c, rows[1])
  {
    hide IsCreation, IsDenial, IsExecution, IsRejection, IsValidation, Backs;
  }

  lemma NoDigestRow(c: Config, intent: Intent, entry: Option<Entry>, rows: seq<TraceRow>)
    requires Tells(c, intent, entry, rows) && entry == None
    ensures !Fills(rows, DigestSlot)
  {
    BackedIsValidated(c, intent, entry, rows);
    StoryKinds(c, intent, entry, rows);
    hide Tells, IsDenial, IsRejection, CreatedPayload;
  }

  /** A hash shows exactly when an execution row holds one as text. */
  lemma HashShown(rows: seq<TraceRow>, start: View, v: View)
    requires ShowsAll(v, start, rows) && start.deployHash == None
    ensures v.deployHash.Some? <==> ShowsText(rows)
  {
    hide Text, Field, KindOf;
    if Fills(rows, HashSlot) {
      var i :| 0 <= i < |rows| && SlotOf(rows[i]) == HashSlot;
      assert ShowsRow(v, rows[i]);
      forall j | 0 <= j < |rows| && HasTextHash(rows[j]) ensures v.deployHash.Some? {
        assert ShowsRow(v, rows[j]);
      }
    } else {
      assert SameSlot(start, v, HashSlot);
      forall j | 0 <= j < |rows| ensures !HasTextHash(rows[j]) {
        assert SlotOf(rows[j]) != HashSlot;
      }
    }
  }

  /** The hash the router keeps is the one the view shows. */
  lemma HashRecorded(c: Config, intent: Intent, entry: Option<Entry>, rows: seq<TraceRow>, v: View)
    requires Tells(c, intent, entry, rows) && forall i :: 0 <= i < |rows| ==> ShowsRow(v, rows[i])
    ensures intent.deployHash.Some? ==> v.deployHash == intent.deployHash
  {
    hide Backs, IsValidation, IsCreation, ConfirmedPayload, MarkedPayload, Text, Field, KindOf;
    if intent.deployHash.Some? {
      var height, kind :| rows[2].payload == ConfirmedPayload(intent.deployHash.value, height, kind);
      ConfirmedText(intent.deployHash.value, height, kind);
      assert ShowsRow(v, rows[2]);
    }
  }

  lemma LastState(c: Config, intent: Intent, entry: Option<Entry>, rows: seq<TraceRow>)
    requires Tells(c, intent, entry, rows)
    ensures rows[|rows| - 1].state == intent.state
  {
    hide Backs;
    hide CreatedPayload, DeniedPayload, ValidatedPayload, MarkedPayload, ConfirmedPayload, RejectedPayload, PassesHashTest, IsLowerHex;
  }

  // ---- When a marked hash can be read back ----

  /** The browser sees a marked hash exactly when the request gave it as a JSON string. */
  lemma MarkedHashReadBack(c: Config, s: Server, id: string, tree: Tree, nowMs: int)
    requires Told(c, s) && Chronological(s.trace) && (forall i :: 0 <= i < |s.trace| ==> s.trace[i].atMs <= nowMs)
    requires MarkStep(s, id, Parsed(tree), nowMs).1.Moved?
    ensures var s' := MarkStep(s, id, Parsed(tree), nowMs).0;
      Derived(GetTrace(s', id)).deployHash == Text(Field(tree, "deployHash"))
  {
    var s' := MarkStep(s, id, Parsed(tree), nowMs).0;
    MarkedHash(s, id, tree, nowMs);
    var hash := Field(tree, "deployHash").value;
    var row := TraceRow(|s.trace| + 1, id, Executed, nowMs, Execution, MarkedPayload(hash));
    MarkedText(hash);
    MarkKeepsTold(c, s, id, Parsed(tree), nowMs);
    hide *;
    ChronologicalGrows(s.trace, row);
    ReplayRebuildsIntent(c, s', id);
    ExecutionReplayed(c, s', id, row);
  }

  lemma ExecutionReplayed(c: Config, s: Server, id: string, row: TraceRow)
    requires id in s.intents && Replayed(c, s, id) && row in s.trace && row.intentId == id && row.kind.Execution?
    ensures Derived(GetTrace(s, id)).deployHash == Text(Field(row.payload, "deployHash"))
  {
    hide Derived, GetTrace, Field, Text, WasValidated, ExecutedWithText, BodyTree;
    assert ShowsRow(Derived(GetTrace(s, id)), row);
  }

  lemma ChronologicalGrows(rows: seq<TraceRow>, row: TraceRow)
    requires Chronological(rows) && forall i :: 0 <= i < |rows| ==> rows[i].atMs <= row.atMs
    ensures Chronological(rows + [row])
  {
  }

  lemma MarkedHash(s: Server, id: string, tree: Tree, nowMs: int)
    requires MarkStep(s, id, Parsed(tree), nowMs).1.Moved?
    ensures var s' := MarkStep(s, id, Parsed(tree), nowMs).0;
      Field(tree, "deployHash").Some? && id in s'.intents && s'.intents[id].state.Executed?
      && s'.trace == s.trace + [TraceRow(|s.trace| + 1, id, Executed, nowMs, Execution, MarkedPayload(Field(tree, "deployHash").value))]
  {
    hide Field, PassesHashTest, Unprintable, SettleOpen, MarkedPayload;
  }

  /** mark-executed accepts an array of one hash, and the trace then shows no hash at all. */
  lemma CoercedHashIsLost(c: Config, s: Server, id: string, hash: string, nowMs: int)
    requires Told(c, s) && Chronological(s.trace) && (forall i :: 0 <= i < |s.trace| ==> s.trace[i].atMs <= nowMs)
    requires id in s.intents && s.intents[id].state.PolicyValidated? && IsLowerHex(hash, 64)
    ensures var (s', r) := MarkStep(s, id, Parsed(Obj([Member("deployHash", Arr([Word(hash)]))])), nowMs);
      r == Moved(id, Executed) && Derived(GetTrace(s', id)).deployHash == None
  {
    var tree := Obj([Member("deployHash", Arr([Word(hash)]))]);
    ArrayPasses(hash);
    assert MarkStep(s, id, Parsed(tree), nowMs).1 == Moved(id, Executed) by {
      hide PassesHashTest, Unprintable, Field, Told, Record, IsLowerHex;
    }
    hide *;
    MarkedHashReadBack(c, s, id, tree, nowMs);
    NoTextInArray(tree, Arr([Word(hash)]));
  }

  lemma ArrayPasses(hash: string)
    requires IsLowerHex(hash, 64)
    ensures Field(Obj([Member("deployHash", Arr([Word(hash)]))]), "deployHash") == Some(Arr([Word(hash)]))
    ensures PassesHashTest(Arr([Word(hash)])) && !Unprintable(Arr([Word(hash)]))
  {
    OneLookup(Member("deployHash", Arr([Word(hash)])), "deployHash");
    hide IsLowerHex;
    assert PassesHashTest(Word(hash)) && !Unprintable(Word(hash));
  }

  lemma NoTextInArray(tree: Tree, v: Tree)
    requires Field(tree, "deployHash") == Some(v) && v.Arr?
    ensures Text(Field(tree, "deployHash")) == None
  {
    hide Field;
  }

  // ---- What the newest row says ----

  /** Whatever came before, the newest row's fields and state are the view's. */
  lemma LastRowCaptured(rows: seq<TraceRow>, row: TraceRow, id: string)
    requires Numbered(rows + [row]) && Chronological(rows + [row]) && row.intentId == id
    ensures Derived(ExportAll(ListByIntent(rows + [row], id)))
      == Captured(CapturedAll(BLANK.(state := Some(row.state)), ExportAll(RowsOf(rows, id))), Exported(row))
  {
    ListingIsInsertionOrder(rows + [row], id);
    RowsOfAppended(rows, row, id);
    CapturedAppend(BLANK.(state := Some(row.state)), RowsOf(rows, id), row);
    hide Captured, CapturedAll, RowsOf, ListByIntent, Numbered, Chronological;
    assert ExportAll(RowsOf(rows, id) + [row])[|RowsOf(rows, id)|] == Exported(row);
  }

  lemma {:induction false} LookupPast(a: seq<TreeMember>, b: seq<TreeMember>, key: string)
    requires forall i :: 0 <= i < |a| ==> a[i].key != key
    ensures Lookup(a + b, key) == Lookup(b, key)
  {
    if a == [] {
      assert a + b == b;
    } else {
      LookupPast(a[1..], b, key);
      assert (a + b)[1..] == a[1..] + b;
    }
  }

  lemma ConfirmedKind(hash: string, height: string, kind: Option<HashKind>)
    ensures KindOf(Text(Field(ConfirmedPayload(hash, height, kind), "hashKind"))) == kind
  {
    var base := [
      Member("deployHash", Word(hash)), Member("signerRole", Word("user_cspr_click")),
      Member("approval", Word("human_cosign")), Member("finalizedHeight", Atom(Num(height)))];
    assert forall i :: 0 <= i < |base| ==> base[i].key != "hashKind" by {
      assert |base[0].key| == 10 && |base[1].key| == 10 && base[2].key[0] == 'a' && |base[3].key| == 15;
    }
    LookupPast(base, KindMembers(kind), "hashKind");
    match kind {
      case None =>
      case Some(DeployKind) => OneLookup(Member("hashKind", Word("deploy")), "hashKind");
      case Some(TransactionKind) => OneLookup(Member("hashKind", Word("transaction")), "hashKind");
    }
  }

  /** A confirmed execution is read back with its verified hash and the kind the chain resolved. */
  lemma ConfirmedReadBack(c: Config, s: Server, id: string, upload: Upload, chain: Finality, nowMs: int)
    requires Told(c, s) && Clocked(s, nowMs) && ConfirmStep(s, id, upload, chain, nowMs).1.Moved?
    ensures var s' := ConfirmStep(s, id, upload, chain, nowMs).0;
      var v := Derived(GetTrace(s', id));
      id in s'.intents && v.deployHash == s'.intents[id].deployHash && v.deployHash.Some? && v.deployHashKind == chain.hashKind
  {
    hide Field, IsLowerHex, SettleOpen;
    var hash := Text(Field(upload.tree, "deployHash")).value;
    var payload := ConfirmedPayload(hash, chain.height, chain.hashKind);
    var row := TraceRow(|s.trace| + 1, id, Executed, nowMs, Execution, payload);
    var s' := ConfirmStep(s, id, upload, chain, nowMs).0;
    assert s'.trace == s.trace + [row] && id in s'.intents && s'.intents[id].deployHash == Some(hash);
    hide ConfirmedPayload, Text, ConfirmStep, Told;
    NumberedGrows(c, s, row);
    LastRowCaptured(s.trace, row, id);
    ConfirmedText(hash, chain.height, chain.hashKind);
    ConfirmedKind(hash, chain.height, chain.hashKind);
    ExecutionCaptures(CapturedAll(BLANK.(state := Some(row.state)), ExportAll(RowsOf(s.trace, id))), row);
    hide *;
  }

  lemma NumberedGrows(c: Config, s: Server, row: TraceRow)
    requires Told(c, s) && Clocked(s, row.atMs) && row.id == |s.trace| + 1
    ensures Numbered(s.trace + [row]) && Chronological(s.trace + [row])
  {
  }

  /** A refused validation is read back with its code. */
  lemma RefusalReadBack(c: Config, s: Server, id: string, denial: Denial, nowMs: int)
    requires Told(c, s) && Clocked(s, nowMs) && id in s.intents
    ensures var v := Derived(GetTrace(Refuse(s, id, denial, nowMs).0, id));
      v.state == Some(Rejected) && v.rejectionCode == Some(DenialCode(denial))
  {
    var row := TraceRow(|s.trace| + 1, id, Rejected, nowMs, PolicyCheck, DeniedPayload(denial));
    assert Refuse(s, id, denial, nowMs).0.trace == s.trace + [row];
    NumberedGrows(c, s, row);
    var before := CapturedAll(BLANK.(state := Some(Rejected)), ExportAll(RowsOf(s.trace, id)));
    hide Told, Refuse, DeniedPayload, DenialCode;
    LastRowCaptured(s.trace, row, id);
    DenialCaptures(before, row, denial);
    StateKept(BLANK.(state := Some(Rejected)), ExportAll(RowsOf(s.trace, id)));
    hide Captured, CapturedAll, Exported, Derived, RowsOf, ExportAll, ListByIntent;
  }

  lemma {:induction false} StateKept(view: View, entries: seq<TraceEntry>)
    ensures CapturedAll(view, entries).state == view.state
  {
    if entries != [] {
      StateKept(view, entries[..|entries| - 1]);
    }
  }

  /** A rejection is read back with its reason, when the reason is a string. */
  lemma RejectionReadBack(c: Config, s: Server, id: string, upload: Upload, nowMs: int)
    requires Told(c, s) && Clocked(s, nowMs) && RejectStep(s, id, upload, nowMs).1.Moved?
    ensures var v := Derived(GetTrace(RejectStep(s, id, upload, nowMs).0, id));
      v.state == Some(Rejected) && v.rejectionReason == Text(Some(Reason(upload)))
  {
    var reason := Reason(upload);
    hide Reason, SettleOpen;
    var row := TraceRow(|s.trace| + 1, id, Rejected, nowMs, Rejection, RejectedPayload(reason));
    assert RejectStep(s, id, upload, nowMs).0.trace == s.trace + [row];
    OneLookup(Member("reason", reason), "reason");
    NumberedGrows(c, s, row);
    var before := CapturedAll(BLANK.(state := Some(Rejected)), ExportAll(RowsOf(s.trace, id)));
    hide Told, RejectStep;
    LastRowCaptured(s.trace, row, id);
    RejectionCaptures(before, row);
    assert Field(row.payload, "reason") == Some(reason);
    StateKept(BLANK.(state := Some(Rejected)), ExportAll(RowsOf(s.trace, id)));
    hide Captured, CapturedAll, Exported, Derived, RowsOf, ExportAll, ListByIntent, Field, Text;
  }

  // ---- Runs under a clock that does not run backwards ----

  ghost predicate Clocked(s: Server, nowMs: int) {
    Chronological(s.trace) && forall i :: 0 <= i < |s.trace| ==> s.trace[i].atMs <= nowMs
  }

  predicate Timely(events: seq<Event>) {
    forall i, j :: 0 <= i < j < |events| ==> events[i].nowMs <= events[j].nowMs
  }

  lemma StepAppends(c: Config, s: Server, e: Event)
    ensures var s' := Step(c, s, e).0;
      s'.trace == s.trace || (|s'.trace| == |s.trace| + 1 && s'.trace[..|s.trace|] == s.trace && s'.trace[|s.trace|].atMs == e.nowMs)
  {
    hide CheckPolicyRules, AllDigits, ValueOf, Used, ParseBody, Reason, PassesHashTest, Unprintable, Field, Text, IsLowerHex, SettleOpen;
    hide CreatedPayload, DeniedPayload, ValidatedPayload, MarkedPayload, ConfirmedPayload, RejectedPayload;
    hide Calendar.DayUtc;
  }

  lemma ClockedLater(s: Server, events: seq<Event>)
    requires events != [] && Timely(events) && Clocked(s, events[0].nowMs)
    ensures Chronological(s.trace) && Timely(events[1..])
    ensures events[1..] != [] ==> Clocked(s, events[1..][0].nowMs)
  {
  }

  lemma {:induction false} RunReplays(c: Config, s: Server, events: seq<Event>, id: string)
    requires Told(c, s) && FreshAll(c, s, events) && Timely(events)
    requires events != [] ==> Clocked(s, events[0].nowMs)
    requires Chronological(s.trace)
    ensures var s' := Run(c, s, events);
      id in s'.intents ==> Replayed(c, s', id)
    decreases |events|
  {
    hide Told, Replayed;
    if events == [] {
      if id in s.intents { ReplayRebuildsIntent(c, s, id); }
    } else {
      var s1 := Step(c, s, events[0]).0;
      StepAppends(c, s, events[0]);
      StepKeepsTold(c, s, events[0]);
      hide Step, Fresh;
      assert Clocked(s1, events[0].nowMs);
      hide Clocked, Chronological;
      ClockedLater(s1, events);
      RunReplays(c, s1, events[1..], id);
    }
  }

  /** From an empty store, whatever requests arrive under such a clock. */
  lemma EveryRunReplays(c: Config, events: seq<Event>, id: string)
    requires FreshAll(c, EMPTY, events) && Timely(events) && id in Run(c, EMPTY, events).intents
    ensures Replayed(c, Run(c, EMPTY, events), id)
  {
    EmptyIsTold(c);
    assert Chronological(EMPTY.trace);
    hide *;
    EmptyIsClocked(events);
    RunReplays(c, EMPTY, events, id);
  }

  lemma EmptyIsClocked(events: seq<Event>)
    ensures events != [] ==> Clocked(EMPTY, events[0].nowMs)
  {
  }

  // ---- buildStepper ----

  const HAPPY_PATH: seq<IntentState> := [
    Draft, PolicyValidated, PaymentRequired, PaymentVerified, ReadyToSubmit, SignedReceived, AcceptedByNode, Executed, Finalized
  ]

  function Position(state: IntentState): Option<nat> {
    match state
    case Draft => Some(0)
    case PolicyValidated => Some(1)
    case PaymentRequired => Some(2)
    case PaymentVerified => Some(3)
    case ReadyToSubmit => Some(4)
    case SignedReceived => Some(5)
    case AcceptedByNode => Some(6)
    case Executed => Some(7)
    case Finalized => Some(8)
    case _ => None
  }

  lemma PositionOnPath(state: IntentState)
    ensures |HAPPY_PATH| == 9
    ensures Position(state) == None <==> OffRamp(state)
    ensures Position(state).Some? ==> Position(state).value < 9 && HAPPY_PATH[Position(state).value] == state
    ensures forall i :: 0 <= i < 9 ==> Position(HAPPY_PATH[i]) == Some(i)
  {
  }

  predicate OffRamp(state: IntentState) {
    state.Rejected? || state.ExecutionFailed? || state.Timeout?
  }

  datatype StepStatus = Done | Current | Future

  datatype StepNode = StepNode(state: IntentState, status: StepStatus, linkDone: bool)

  datatype StepperModel = StepperModel(steps: seq<StepNode>, activeOffRamp: Option<IntentState>)

  predicate Reached(entries: seq<TraceEntry>, state: IntentState) {
    exists i :: 0 <= i < |entries| && entries[i].state == state
  }

  function StepAt(entries: seq<TraceEntry>, offRamp: bool, i: nat): StepNode
    requires i < |HAPPY_PATH|
  {
    var state := HAPPY_PATH[i];
    StepNode(
      state,
      if !offRamp && entries != [] && state == entries[|entries| - 1].state then Current
      else if Reached(entries, state) then Done
      else Future,
      i + 1 < |HAPPY_PATH| && Reached(entries, state) && Reached(entries, HAPPY_PATH[i + 1]))
  }

  function Steps(entries: seq<TraceEntry>, offRamp: bool): (r: seq<StepNode>)
    ensures |r| == |HAPPY_PATH| && forall i :: 0 <= i < |r| ==> r[i] == StepAt(entries, offRamp, i)
  {
    seq(|HAPPY_PATH|, i requires 0 <= i < |HAPPY_PATH| => StepAt(entries, offRamp, i))
  }

  function BuildStepper(entries: seq<TraceEntry>): StepperModel {
    var offRamp := entries != [] && OffRamp(entries[|entries| - 1].state);
    StepperModel(
      Steps(entries, offRamp),
      if offRamp then Some(entries[|entries| - 1].state) else None)
  }

  lemma ReachedLast(entries: seq<TraceEntry>)
    requires entries != []
    ensures Reached(entries, entries[|entries| - 1].state)
  {
  }

  /**
   * At most one step is current, none exactly when there is no trace or it ends on an off-ramp;
   * a step is lit exactly when its state is on the trace.
   */
  lemma StepperIsHonest(entries: seq<TraceEntry>)
    ensures var m := BuildStepper(entries);
      && (forall i, j :: 0 <= i < |m.steps| && 0 <= j < |m.steps| && m.steps[i].status.Current? && m.steps[j].status.Current? ==> i == j)
      && ((forall i :: 0 <= i < |m.steps| ==> !m.steps[i].status.Current?) <==> entries == [] || m.activeOffRamp.Some?)
      && (forall i :: 0 <= i < |m.steps| ==> (m.steps[i].status.Future? <==> !Reached(entries, m.steps[i].state)))
  {
    var m := BuildStepper(entries);
    PositionOnPath(Draft);
    hide Position, OffRamp, Steps, Reached;
    if entries != [] {
      var final := entries[|entries| - 1].state;
      PositionOnPath(final);
      ReachedLast(entries);
      if !OffRamp(final) {
        assert m.steps[Position(final).value].status.Current?;
      }
    }
  }

  /** The happy states a router's intent can have passed. */
  predicate Passed(state: IntentState, validated: bool, executed: bool) {
    state.Draft? || (state.PolicyValidated? && validated) || (state.Executed? && executed)
  }

  lemma StoryReaches(c: Config, intent: Intent, entry: Option<Entry>, rows: seq<TraceRow>, state: IntentState)
    requires Tells(c, intent, entry, rows) && !OffRamp(state)
    ensures Reached(ExportAll(rows), state) <==> Passed(state, entry.Some?, ShowsExecution(rows))
  {
    BackedIsValidated(c, intent, entry, rows);
    assert rows[0].state.Draft?;
    var entries := ExportAll(rows);
    assert forall i :: 0 <= i < |rows| ==> entries[i].state == rows[i].state;
    StoryShows(c, intent, entry, rows, "");
    StoryStates(c, intent, entry, rows);
    hide Tells, Exported, ExportAll;
  }

  lemma StoryStates(c: Config, intent: Intent, entry: Option<Entry>, rows: seq<TraceRow>)
    requires Tells(c, intent, entry, rows)
    ensures forall i :: 0 <= i < |rows| ==>
      rows[i].state.Draft? || rows[i].state.PolicyValidated? || rows[i].state.Executed? || rows[i].state.Rejected?
    ensures forall i :: 0 <= i < |rows| && rows[i].state.PolicyValidated? ==> entry.Some?
  {
    BackedIsValidated(c, intent, entry, rows);
    LaterRows(c, intent, entry, rows);
    hide *;
    forall i | 0 <= i < |rows|
      ensures rows[i].state.Draft? || rows[i].state.PolicyValidated? || rows[i].state.Executed? || rows[i].state.Rejected?
      ensures rows[i].state.PolicyValidated? ==> entry.Some?
    {
      assert i == 0 || i == 1 || i == 2 || i == 3;
    }
  }

  /** On a router's trace the rail lights only what happened: the skipped payment states stay in the future. */
  lemma StepperShowsOnlyWhatHappened(c: Config, s: Server, id: string)
    requires Told(c, s) && Chronological(s.trace) && id in s.intents
    ensures var m := BuildStepper(GetTrace(s, id));
      && (m.activeOffRamp.Some? <==> s.intents[id].state.Rejected?)
      && (forall i :: 0 <= i < |m.steps| ==>
           (m.steps[i].status.Future? <==> !Passed(m.steps[i].state, WasValidated(s, id), WasExecuted(s, id))))
      && (forall i :: 0 <= i < |m.steps| ==> (m.steps[i].linkDone <==> i == 0 && WasValidated(s, id)))
  {
    var entries, rows := GetTrace(s, id), RowsOf(s.trace, id);
    StoryIsListed(c, s, id);
    StoryFacts(c, s, id);
    StoryOnTrace(c, s, id, "");
    OpenStates(c, s, id);
    var intent, entry := s.intents[id], EntryAt(s.table, id);
    assert entry.Some? <==> WasValidated(s, id);
    LastState(c, intent, entry, rows);
    var validated, executed := WasValidated(s, id), WasExecuted(s, id);
    hide *;
    LastEntry(rows);
    forall state: IntentState | !OffRamp(state)
      ensures Reached(entries, state) <==> Passed(state, validated, executed)
    {
      StoryReaches(c, intent, entry, rows, state);
    }
    StepperFromReached(entries, intent.state, validated, executed);
  }

  lemma LastEntry(rows: seq<TraceRow>)
    ensures rows != [] ==> ExportAll(rows)[|rows| - 1].state == rows[|rows| - 1].state
  {
    hide Sanitize, Exposes;
  }

  lemma StepperFromReached(entries: seq<TraceEntry>, final: IntentState, validated: bool, executed: bool)
    requires entries != [] && entries[|entries| - 1].state == final
    requires final.Draft? || final.PolicyValidated? || final.Executed? || final.Rejected?
    requires forall state: IntentState :: !OffRamp(state) ==> (Reached(entries, state) <==> Passed(state, validated, executed))
    ensures var m := BuildStepper(entries);
      && (m.activeOffRamp.Some? <==> final.Rejected?)
      && (forall i :: 0 <= i < |m.steps| ==> (m.steps[i].status.Future? <==> !Passed(m.steps[i].state, validated, executed)))
      && (forall i :: 0 <= i < |m.steps| ==> (m.steps[i].linkDone <==> i == 0 && validated))
  {
    var m := BuildStepper(entries);
    StepperIsHonest(entries);
    OnPath();
    assert OffRamp(final) <==> final.Rejected?;
    hide Position, Reached, Steps, OffRamp, Passed;
    forall i | 0 <= i < |m.steps|
      ensures m.steps[i].linkDone <==> i == 0 && validated
      ensures m.steps[i].status.Future? <==> !Passed(m.steps[i].state, validated, executed)
    {
      assert m.steps[i] == StepAt(entries, m.activeOffRamp.Some?, i);
      LinkOnPath(i, validated, executed);
    }
  }

  lemma OnPath()
    ensures |HAPPY_PATH| == 9 && forall i :: 0 <= i < 9 ==> !OffRamp(HAPPY_PATH[i])
  {
    forall i | 0 <= i < 9 ensures !OffRamp(HAPPY_PATH[i]) {
      PositionOnPath(HAPPY_PATH[i]);
    }
  }

  /** Of two neighbours on the path, both were passed only at the first link. */
  lemma LinkOnPath(i: nat, validated: bool, executed: bool)
    requires i < 9
    ensures i + 1 < |HAPPY_PATH| && Passed(HAPPY_PATH[i], validated, executed) && Passed(HAPPY_PATH[i + 1], validated, executed)
      <==> i == 0 && validated
  {
  }
}
