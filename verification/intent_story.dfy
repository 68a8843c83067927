/**
 * What every run of the router keeps: each intent's state, its ledger row and its trace rows
 * tell one story. The coupling of intents and ledger and the projected day sum follow from it.
 */
module IntentStories {
  import opened Wrappers
  import opened Decimal
  import opened MapSums
  import opened JsonTrees
  import opened ApiTrees
  import opened SpendTable
  import opened SpendLedgerRows
  import opened PolicyRules
  import opened AuditTraces
  import opened IntentRouters
  import Calendar

  // ---- One intent's story ----

  predicate IsCreation(row: TraceRow, body: IntentBody) {
    row.kind.Creation? && row.state.Draft? && row.payload == CreatedPayload(body)
  }

  ghost predicate IsDenial(row: TraceRow) {
    row.kind.PolicyCheck? && row.state.Rejected? && exists d :: row.payload == DeniedPayload(d)
  }

  predicate IsValidation(c: Config, row: TraceRow) {
    row.kind.PolicyCheck? && row.state.PolicyValidated? && row.payload == ValidatedPayload(c.policyDigest)
  }

  /** Only a confirmed execution leaves a deploy hash on the intent. */
  ghost predicate IsExecution(row: TraceRow, deployHash: Option<string>) {
    row.kind.Execution? && row.state.Executed?
    && match deployHash
       case None => exists hash :: PassesHashTest(hash) && row.payload == MarkedPayload(hash)
       case Some(h) => IsLowerHex(h, 64) && exists height, kind :: row.payload == ConfirmedPayload(h, height, kind)
  }

  ghost predicate IsRejection(row: TraceRow) {
    row.kind.Rejection? && row.state.Rejected? && exists reason :: row.payload == RejectedPayload(reason)
  }

  /** The ledger row is the intent's own: its amount and token, reserved when it was validated. */
  predicate Backs(c: Config, entry: Option<Entry>, body: IntentBody, validated: TraceRow, status: Status) {
    entry.Some? && entry.value.status == status
    && AllDigits(body.amount) && entry.value.amount == ValueOf(body.amount)
    && entry.value.createdAt == validated.atMs
    && Calendar.DayUtc(validated.atMs) == Some(entry.value.scope.day)
    && entry.value.scope == ScopeOf(c, body.token, entry.value.scope.day)
  }

  ghost predicate Tells(c: Config, intent: Intent, entry: Option<Entry>, rows: seq<TraceRow>) {
    && 1 <= |rows| <= 4
    && IsCreation(rows[0], intent.body)
    && rows[|rows| - 1].atMs == intent.updatedAtMs
    && match intent.state
       case Draft => |rows| == 1 && entry == None && intent.deployHash == None
       case PolicyValidated =>
         |rows| == 2 && IsValidation(c, rows[1]) && Backs(c, entry, intent.body, rows[1], Status.Reserved) && intent.deployHash == None
       case Executed =>
         |rows| == 3 && IsValidation(c, rows[1]) && IsExecution(rows[2], intent.deployHash)
         && Backs(c, entry, intent.body, rows[1], Status.Committed)
       case Rejected => TellsRejection(c, intent, entry, rows)
       case _ => false
  }

  /** Denied or withdrawn as a draft, withdrawn once validated, or withdrawn after execution. */
  ghost predicate TellsRejection(c: Config, intent: Intent, entry: Option<Entry>, rows: seq<TraceRow>)
    requires 1 <= |rows| <= 4
  {
    if |rows| == 2 then entry == None && intent.deployHash == None && (IsDenial(rows[1]) || IsRejection(rows[1]))
    else if |rows| == 3 then
      IsValidation(c, rows[1]) && IsRejection(rows[2]) && Backs(c, entry, intent.body, rows[1], Status.Released)
      && intent.deployHash == None
    else
      |rows| == 4 && IsValidation(c, rows[1]) && IsExecution(rows[2], intent.deployHash) && IsRejection(rows[3])
      && Backs(c, entry, intent.body, rows[1], Status.Committed)
  }

  // ---- The invariant ----

  function EntryAt(t: Table, id: string): Option<Entry> {
    if id in t then Some(t[id]) else None
  }

  function CapOf(c: Config): nat {
    if AllDigits(c.policy.perDayCapAtomic) then ValueOf(c.policy.perDayCapAtomic) else 0
  }

  ghost predicate Told(c: Config, s: Server) {
    && UniqueIds(s.table) && WithinCap(s.table, CapOf(c)) && Numbered(s.trace)
    && s.table.Keys <= s.intents.Keys
    && (forall i :: 0 <= i < |s.trace| ==> s.trace[i].intentId in s.intents)
    && (forall id :: id in s.intents ==> Tells(c, s.intents[id], EntryAt(s.table, id), RowsOf(s.trace, id)))
  }

  const EMPTY: Server := Server(map[], map[], [])

  lemma EmptyIsTold(c: Config)
    ensures Told(c, EMPTY)
  {
    forall scope ensures Used(EMPTY.table, scope) <= CapOf(c) {
      UsedEmpty(scope);
    }
  }

  /** Minted intent ids and row ids are new. */
  ghost predicate Fresh(s: Server, e: Event) {
    match e.request
    case Create(_, newId) => newId !in s.intents
    case ValidatePolicy(_, rowId) => IdFresh(s.table, rowId)
    case _ => true
  }

  lemma RowsOfAppended(rows: seq<TraceRow>, row: TraceRow, id: string)
    ensures RowsOf(rows + [row], id) == RowsOf(rows, id) + (if row.intentId == id then [row] else [])
  {
    assert (rows + [row])[..|rows|] == rows;
  }

  lemma {:induction false} RowsOfAbsent(rows: seq<TraceRow>, id: string)
    requires forall i :: 0 <= i < |rows| ==> rows[i].intentId != id
    ensures RowsOf(rows, id) == []
  {
    if rows != [] {
      RowsOfAbsent(rows[..|rows| - 1], id);
    }
  }

  lemma {:induction false} RowsOfMember(rows: seq<TraceRow>, id: string, row: TraceRow)
    ensures row in RowsOf(rows, id) <==> row in rows && row.intentId == id
  {
    if rows != [] {
      RowsOfMember(rows[..|rows| - 1], id, row);
      assert rows == rows[..|rows| - 1] + [rows[|rows| - 1]];
    }
  }

  lemma OtherRowsKept(rows: seq<TraceRow>, row: TraceRow, id: string)
    ensures row.intentId != id ==> RowsOf(rows + [row], id) == RowsOf(rows, id)
    ensures row.intentId == id ==> RowsOf(rows + [row], id) == RowsOf(rows, id) + [row]
  {
    RowsOfAppended(rows, row, id);
    hide RowsOf;
    assert RowsOf(rows, id) + [] == RowsOf(rows, id);
  }

  /** Recording one event under a table that differs at most in that intent's row keeps every other story. */
  lemma RecordKeepsTold(c: Config, s: Server, table: Table, id: string, intent: Intent, nowMs: int, kind: Kind, payload: Tree)
    requires Told(c, s)
    requires UniqueIds(table) && WithinCap(table, CapOf(c)) && table.Keys <= s.intents.Keys + {id}
    requires forall k :: k != id ==> EntryAt(table, k) == EntryAt(s.table, k)
    requires id !in s.intents ==> RowsOf(s.trace, id) == []
    requires Tells(c, intent.(updatedAtMs := nowMs), EntryAt(table, id),
      RowsOf(s.trace, id) + [TraceRow(|s.trace| + 1, id, intent.state, nowMs, kind, payload)])
    ensures Told(c, Record(s.(table := table), id, intent, nowMs, kind, payload))
  {
    var row := TraceRow(|s.trace| + 1, id, intent.state, nowMs, kind, payload);
    var s' := Record(s.(table := table), id, intent, nowMs, kind, payload);
    hide *;
    RecordMeans(s, table, id, intent, nowMs, kind, payload);
    ToldKeys(c, s);
    RecordKeepsKeys(s, s', id, row);
    forall k | k in s'.intents ensures Tells(c, s'.intents[k], EntryAt(s'.table, k), RowsOf(s'.trace, k)) {
      StoryAfter(c, s, s', id, row, k);
    }
    ToldWhole(c, s');
  }

  lemma RecordMeans(s: Server, table: Table, id: string, intent: Intent, nowMs: int, kind: Kind, payload: Tree)
    ensures Record(s.(table := table), id, intent, nowMs, kind, payload)
      == Server(
        s.intents[id := intent.(updatedAtMs := nowMs)], table,
        s.trace + [TraceRow(|s.trace| + 1, id, intent.state, nowMs, kind, payload)])
  {
  }

  lemma StoryAfter(c: Config, s: Server, s': Server, id: string, row: TraceRow, k: string)
    requires Told(c, s) && k in s'.intents && s'.trace == s.trace + [row] && row.intentId == id
    requires k != id ==> k in s.intents && s'.intents[k] == s.intents[k] && EntryAt(s'.table, k) == EntryAt(s.table, k)
    requires k == id ==> Tells(c, s'.intents[k], EntryAt(s'.table, k), RowsOf(s.trace, k) + [row])
    ensures Tells(c, s'.intents[k], EntryAt(s'.table, k), RowsOf(s'.trace, k))
  {
    hide *;
    OtherRowsKept(s.trace, row, k);
    if k != id { OneTold(c, s, k); }
  }

  lemma ToldKeys(c: Config, s: Server)
    requires Told(c, s)
    ensures Numbered(s.trace) && forall i :: 0 <= i < |s.trace| ==> s.trace[i].intentId in s.intents
  {
    hide Tells, WithinCap, UniqueIds, RowsOf, EntryAt, Numbered;
  }

  lemma ToldWhole(c: Config, s: Server)
    requires UniqueIds(s.table) && WithinCap(s.table, CapOf(c)) && Numbered(s.trace) && s.table.Keys <= s.intents.Keys
    requires forall i :: 0 <= i < |s.trace| ==> s.trace[i].intentId in s.intents
    requires forall id :: id in s.intents ==> Tells(c, s.intents[id], EntryAt(s.table, id), RowsOf(s.trace, id))
    ensures Told(c, s)
  {
    hide Tells, WithinCap, UniqueIds, RowsOf, EntryAt, Numbered;
  }

  lemma OneTold(c: Config, s: Server, id: string)
    requires Told(c, s) && id in s.intents
    ensures Tells(c, s.intents[id], EntryAt(s.table, id), RowsOf(s.trace, id))
  {
    hide Tells, WithinCap, UniqueIds, RowsOf, EntryAt, Numbered;
  }

  lemma RecordKeepsKeys(s: Server, s': Server, id: string, row: TraceRow)
    requires Numbered(s.trace) && row.id == |s.trace| + 1 && row.intentId == id && s'.trace == s.trace + [row]
    requires s'.intents.Keys == s.intents.Keys + {id}
    requires forall i :: 0 <= i < |s.trace| ==> s.trace[i].intentId in s.intents
    ensures Numbered(s'.trace) && forall i :: 0 <= i < |s'.trace| ==> s'.trace[i].intentId in s'.intents
  {
  }

  lemma SettleOpenIsUpdate(c: Config, t: Table, id: string, status: Status)
    requires UniqueIds(t) && WithinCap(t, CapOf(c)) && !status.Reserved?
    ensures var t' := SettleOpen(t, id, status);
      UniqueIds(t') && WithinCap(t', CapOf(c)) && t'.Keys == t.Keys
      && (forall k :: k != id ==> EntryAt(t', k) == EntryAt(t, k))
      && (id in t ==> t'[id] == if t[id].status.Reserved? then t[id].(status := status) else t[id])
  {
    if id in t && t[id].status.Reserved? {
      SettleIsUpdate(t, id, status);
      forall scope ensures Used(Settle(t, t[id].id, status), scope) <= CapOf(c) {
        assert Used(t, scope) <= CapOf(c);
        SettleSums(t, id, status, scope);
      }
    }
  }

  lemma CreateKeepsTold(c: Config, s: Server, upload: Upload, newId: string, nowMs: int)
    requires Told(c, s) && newId !in s.intents
    ensures Told(c, CreateStep(s, upload, newId, nowMs).0)
  {
    if upload.Parsed? && ParseBody(upload.tree).Some? {
      var body := ParseBody(upload.tree).value;
      hide ParseBody, WithinCap, UniqueIds, CreatedPayload;
      RowsOfAbsent(s.trace, newId);
      RecordKeepsTold(c, s, s.table, newId, Intent(Draft, body, nowMs, nowMs, None), nowMs, Creation, CreatedPayload(body));
    }
  }

  lemma RefuseKeepsTold(c: Config, s: Server, id: string, denial: Denial, nowMs: int)
    requires Told(c, s) && id in s.intents && s.intents[id].state.Draft?
    ensures Told(c, Refuse(s, id, denial, nowMs).0)
  {
    hide WithinCap, UniqueIds, DeniedPayload, CreatedPayload;
    RecordKeepsTold(c, s, s.table, id, s.intents[id].(state := Rejected), nowMs, PolicyCheck, DeniedPayload(denial));
  }

  /** A draft holds no row, so the reservation cannot conflict; a malformed cap reserves nothing. */
  lemma ValidateKeepsTold(c: Config, s: Server, id: string, rowId: string, nowMs: int)
    requires Told(c, s) && IdFresh(s.table, rowId)
    ensures Told(c, ValidateStep(c, s, id, rowId, nowMs).0)
  {
    if id in s.intents && s.intents[id].state.Draft? {
      var intent := s.intents[id];
      var denial := CheckPolicyRules(PolicyRequest(c, id, intent.body));
      var day := Calendar.DayUtc(nowMs);
      if denial.Some? {
        hide Told, CheckPolicyRules;
        RefuseKeepsTold(c, s, id, denial.value, nowMs);
      } else if day.Some? && AllDigits(c.policy.perDayCapAtomic) {
        assert AllDigits(intent.body.amount);
        hide Told, CheckPolicyRules, AllDigits, ValueOf, Record;
        var scope, amount := ScopeOf(c, intent.body.token, day.value), ValueOf(intent.body.amount);
        var (table, r) := SpendTable.Reserve(s.table, id, rowId, scope, amount, nowMs, CapOf(c));
        hide SpendTable.Reserve, ScopeOf;
        match r {
          case DayCapExceeded => RefuseKeepsTold(c, s, id, Denial.DayCapExceeded, nowMs);
          case ReservationConflict => RefuseKeepsTold(c, s, id, Denial.ReservationConflict, nowMs);
          case Reserved(_) => ReservedKeepsTold(c, s, id, rowId, nowMs, day.value);
        }
      }
    }
  }

  lemma ReservedKeepsTold(c: Config, s: Server, id: string, rowId: string, nowMs: int, day: string)
    requires Told(c, s) && IdFresh(s.table, rowId) && id in s.intents && s.intents[id].state.Draft?
    requires AllDigits(s.intents[id].body.amount) && Calendar.DayUtc(nowMs) == Some(day)
    requires var r := SpendTable.Reserve(s.table, id, rowId, ScopeOf(c, s.intents[id].body.token, day),
        ValueOf(s.intents[id].body.amount), nowMs, CapOf(c));
      r.1.Reserved?
    ensures var r := SpendTable.Reserve(s.table, id, rowId, ScopeOf(c, s.intents[id].body.token, day),
        ValueOf(s.intents[id].body.amount), nowMs, CapOf(c));
      Told(c, Record(s.(table := r.0), id, s.intents[id].(state := PolicyValidated), nowMs, PolicyCheck, ValidatedPayload(c.policyDigest)))
  {
    var intent := s.intents[id];
    var rows := RowsOf(s.trace, id);
    var scope, amount := ScopeOf(c, intent.body.token, day), ValueOf(intent.body.amount);
    var (table, r) := SpendTable.Reserve(s.table, id, rowId, scope, amount, nowMs, CapOf(c));
    var payload := ValidatedPayload(c.policyDigest);
    var row := TraceRow(|s.trace| + 1, id, PolicyValidated, nowMs, PolicyCheck, payload);
    ReservedIsUpdate(c, s.table, id, rowId, scope, amount, nowMs);
    var entry := Entry(rowId, scope, amount, Status.Reserved, nowMs);
    assert Tells(c, intent, EntryAt(s.table, id), rows);
    ValidationTells(c, intent, rows, row, entry);
    assert EntryAt(table, id) == Some(entry);
    hide *;
    RecordKeepsTold(c, s, table, id, intent.(state := PolicyValidated), nowMs, PolicyCheck, payload);
  }

  lemma ReservedIsUpdate(c: Config, t: Table, id: string, rowId: string, scope: Scope, amount: nat, nowMs: int)
    requires UniqueIds(t) && WithinCap(t, CapOf(c)) && IdFresh(t, rowId)
    requires SpendTable.Reserve(t, id, rowId, scope, amount, nowMs, CapOf(c)).1.Reserved?
    ensures var t' := SpendTable.Reserve(t, id, rowId, scope, amount, nowMs, CapOf(c)).0;
      t' == t[id := Entry(rowId, scope, amount, Status.Reserved, nowMs)]
      && UniqueIds(t') && WithinCap(t', CapOf(c)) && t'.Keys == t.Keys + {id}
      && (forall k :: k != id ==> EntryAt(t', k) == EntryAt(t, k))
  {
    var (t', r) := SpendTable.Reserve(t, id, rowId, scope, amount, nowMs, CapOf(c));
    assert t' == t[id := Entry(rowId, scope, amount, Status.Reserved, nowMs)];
    forall other ensures Used(t', other) <= CapOf(c) {
      assert Used(t, other) <= CapOf(c);
      ReserveSums(t, id, rowId, scope, amount, nowMs, CapOf(c), other);
    }
  }

  lemma ValidationTells(c: Config, intent: Intent, rows: seq<TraceRow>, row: TraceRow, entry: Entry)
    requires Tells(c, intent, None, rows) && intent.state.Draft?
    requires IsValidation(c, row) && Backs(c, Some(entry), intent.body, row, Status.Reserved)
    ensures Tells(c, intent.(state := PolicyValidated, updatedAtMs := row.atMs), Some(entry), rows + [row])
  {
    hide IsValidation, Backs, IsCreation;
  }

  lemma ExecutionTells(c: Config, intent: Intent, rows: seq<TraceRow>, row: TraceRow, entry: Entry, deployHash: Option<string>)
    requires Tells(c, intent, Some(entry), rows) && intent.state.PolicyValidated? && IsExecution(row, deployHash)
    ensures entry.status.Reserved?
    ensures Tells(
      c, intent.(state := Executed, updatedAtMs := row.atMs, deployHash := deployHash),
      Some(entry.(status := Status.Committed)), rows + [row])
  {
    hide AllDigits, ValueOf, ScopeOf, IsValidation, IsCreation, TellsRejection, CreatedPayload;
    hide Calendar.DayUtc;
    BackedMoves(c, entry, intent.body, rows[1], Status.Reserved, Status.Committed);
    hide IsExecution, Backs;
  }

  lemma BackedMoves(c: Config, entry: Entry, body: IntentBody, row: TraceRow, status: Status, status': Status)
    requires Backs(c, Some(entry), body, row, status)
    ensures entry.status == status && Backs(c, Some(entry.(status := status')), body, row, status')
  {
  }

  lemma RejectionTells(c: Config, intent: Intent, entry: Option<Entry>, rows: seq<TraceRow>, row: TraceRow)
    requires Tells(c, intent, entry, rows) && !AlreadyTerminal(intent.state) && IsRejection(row)
    ensures var entry' := if entry.Some? && entry.value.status.Reserved? then Some(entry.value.(status := Status.Released)) else entry;
      Tells(c, intent.(state := Rejected, updatedAtMs := row.atMs), entry', rows + [row])
  {
    hide AllDigits, ValueOf, ScopeOf, IsExecution, IsValidation, IsCreation, IsDenial, IsRejection;
    hide Calendar.DayUtc;
    if intent.state.PolicyValidated? {
      BackedMoves(c, entry.value, intent.body, rows[1], Status.Reserved, Status.Released);
      hide Backs;
    } else if intent.state.Executed? {
      BackedMoves(c, entry.value, intent.body, rows[1], Status.Committed, Status.Committed);
      hide Backs;
    }
  }

  /** The router never reaches ACCEPTED_BY_NODE, and an intent not yet executed carries no hash. */
  lemma OpenStates(c: Config, s: Server, id: string)
    requires Told(c, s)
    ensures id in s.intents ==> var state := s.intents[id].state;
      (state.Draft? || state.PolicyValidated? || state.Executed? || state.Rejected?)
      && (state.Draft? || state.PolicyValidated? ==> s.intents[id].deployHash == None)
  {
    hide UniqueIds, WithinCap, RowsOf, Backs, IsCreation, IsValidation, IsExecution, TellsRejection;
    if id in s.intents {
      assert Tells(c, s.intents[id], EntryAt(s.table, id), RowsOf(s.trace, id));
    }
  }

  lemma MarkShape(s: Server, id: string, upload: Upload, nowMs: int) returns (hash: Tree)
    ensures var (s', r) := MarkStep(s, id, upload, nowMs);
      if r.Moved? then
        id in s.intents && (s.intents[id].state.PolicyValidated? || s.intents[id].state.AcceptedByNode?) && PassesHashTest(hash)
        && s' == Record(s.(table := SettleOpen(s.table, id, Status.Committed)), id, s.intents[id].(state := Executed), nowMs,
             Execution, MarkedPayload(hash))
      else s' == s
  {
    hide Field, PassesHashTest, Unprintable, Record, SettleOpen, MarkedPayload;
    hash := Atom(Null);
    if MarkStep(s, id, upload, nowMs).1.Moved? {
      hash := Field(upload.tree, "deployHash").value;
    }
  }

  lemma MarkedIsExecution(row: TraceRow, hash: Tree)
    requires row.kind.Execution? && row.state.Executed? && PassesHashTest(hash) && row.payload == MarkedPayload(hash)
    ensures IsExecution(row, None)
  {
  }

  lemma MarkKeepsTold(c: Config, s: Server, id: string, upload: Upload, nowMs: int)
    requires Told(c, s)
    ensures Told(c, MarkStep(s, id, upload, nowMs).0)
  {
    var hash := MarkShape(s, id, upload, nowMs);
    OpenStates(c, s, id);
    hide *;
    if MarkStep(s, id, upload, nowMs).1.Moved? {
      var payload := MarkedPayload(hash);
      MarkedIsExecution(TraceRow(|s.trace| + 1, id, Executed, nowMs, Execution, payload), hash);
      ExecutionKeepsTold(c, s, id, s.intents[id].(state := Executed), nowMs, payload);
    }
  }

  lemma ConfirmKeepsTold(c: Config, s: Server, id: string, upload: Upload, chain: Finality, nowMs: int)
    requires Told(c, s)
    ensures Told(c, ConfirmStep(s, id, upload, chain, nowMs).0)
  {
    hide Told, Field, Text, IsLowerHex, ConfirmedPayload;
    var (s', r) := ConfirmStep(s, id, upload, chain, nowMs);
    if r.Moved? {
      var hash := Text(Field(upload.tree, "deployHash")).value;
      ExecutionKeepsTold(
        c, s, id, s.intents[id].(state := Executed, deployHash := Some(hash)), nowMs,
        ConfirmedPayload(hash, chain.height, chain.hashKind));
    }
  }

  /** Either way of executing a validated intent. */
  lemma ExecutionKeepsTold(c: Config, s: Server, id: string, intent: Intent, nowMs: int, payload: Tree)
    requires Told(c, s) && id in s.intents && s.intents[id].state.PolicyValidated?
    requires intent == s.intents[id].(state := Executed, deployHash := intent.deployHash)
    requires IsExecution(TraceRow(|s.trace| + 1, id, Executed, nowMs, Execution, payload), intent.deployHash)
    ensures Told(c, Record(s.(table := SettleOpen(s.table, id, Status.Committed)), id, intent, nowMs, Execution, payload))
  {
    var row := TraceRow(|s.trace| + 1, id, Executed, nowMs, Execution, payload);
    var table := SettleOpen(s.table, id, Status.Committed);
    SettleOpenIsUpdate(c, s.table, id, Status.Committed);
    hide SettleOpen, IsExecution, WithinCap, UniqueIds, RowsOf;
    assert Tells(c, s.intents[id], EntryAt(s.table, id), RowsOf(s.trace, id));
    assert id in s.table;
    ExecutionTells(c, s.intents[id], RowsOf(s.trace, id), row, s.table[id], intent.deployHash);
    assert EntryAt(table, id) == Some(s.table[id].(status := Status.Committed));
    hide *;
    RecordKeepsTold(c, s, table, id, intent, nowMs, Execution, payload);
  }

  lemma RejectKeepsTold(c: Config, s: Server, id: string, upload: Upload, nowMs: int)
    requires Told(c, s)
    ensures Told(c, RejectStep(s, id, upload, nowMs).0)
  {
    if id in s.intents && !AlreadyTerminal(s.intents[id].state) && upload != Parsed(Atom(Null)) {
      WithdrawalKeepsTold(c, s, id, nowMs, Reason(upload));
    }
  }

  lemma WithdrawalKeepsTold(c: Config, s: Server, id: string, nowMs: int, reason: Tree)
    requires Told(c, s) && id in s.intents && !AlreadyTerminal(s.intents[id].state)
    ensures Told(c, Record(s.(table := SettleOpen(s.table, id, Status.Released)), id, s.intents[id].(state := Rejected),
      nowMs, Rejection, RejectedPayload(reason)))
  {
    var payload := RejectedPayload(reason);
    var row := TraceRow(|s.trace| + 1, id, Rejected, nowMs, Rejection, payload);
    var table := SettleOpen(s.table, id, Status.Released);
    assert IsRejection(row);
    SettleOpenIsUpdate(c, s.table, id, Status.Released);
    hide SettleOpen, IsRejection, WithinCap, UniqueIds, RowsOf, RejectedPayload;
    assert Tells(c, s.intents[id], EntryAt(s.table, id), RowsOf(s.trace, id));
    RejectionTells(c, s.intents[id], EntryAt(s.table, id), RowsOf(s.trace, id), row);
    hide Tells;
    assert id !in s.table ==> id !in table;
    hide *;
    RecordKeepsTold(c, s, table, id, s.intents[id].(state := Rejected), nowMs, Rejection, payload);
  }

  /** Every handler keeps every story. */
  lemma StepKeepsTold(c: Config, s: Server, e: Event)
    requires Told(c, s) && Fresh(s, e)
    ensures Told(c, Step(c, s, e).0)
  {
    hide Told;
    match e.request
    case Create(upload, newId) => CreateKeepsTold(c, s, upload, newId, e.nowMs);
    case ValidatePolicy(id, rowId) => ValidateKeepsTold(c, s, id, rowId, e.nowMs);
    case MarkExecuted(id, upload) => MarkKeepsTold(c, s, id, upload, e.nowMs);
    case ConfirmOnchain(id, upload, chain) => ConfirmKeepsTold(c, s, id, upload, chain, e.nowMs);
    case Reject(id, upload) => RejectKeepsTold(c, s, id, upload, e.nowMs);
  }

  // ---- Runs ----

  ghost function Run(c: Config, s: Server, events: seq<Event>): Server
    decreases |events|
  {
    if events == [] then s else Run(c, Step(c, s, events[0]).0, events[1..])
  }

  ghost predicate FreshAll(c: Config, s: Server, events: seq<Event>)
    decreases |events|
  {
    events == [] || (Fresh(s, events[0]) && FreshAll(c, Step(c, s, events[0]).0, events[1..]))
  }

  lemma {:induction false} RunKeepsTold(c: Config, s: Server, events: seq<Event>)
    requires Told(c, s) && FreshAll(c, s, events)
    ensures Told(c, Run(c, s, events))
    decreases |events|
  {
    if events != [] {
      StepKeepsTold(c, s, events[0]);
      RunKeepsTold(c, Step(c, s, events[0]).0, events[1..]);
    }
  }

  // ---- Intents and ledger agree ----

  /** A row is open exactly while its intent is validated; execution committed it; a draft has none. */
  lemma IntentsMatchLedger(c: Config, s: Server, id: string)
    requires Told(c, s)
    ensures id in s.table ==> id in s.intents
    ensures id in s.table && s.table[id].status.Reserved? <==> id in s.intents && s.intents[id].state.PolicyValidated?
    ensures id in s.intents && s.intents[id].state.Executed? ==> id in s.table && s.table[id].status.Committed?
    ensures id in s.intents && s.intents[id].state.Draft? ==> id !in s.table
    ensures id in s.table ==>
      ParseAtomic(s.intents[id].body.amount) == Some(s.table[id].amount)
      && s.table[id].scope == ScopeOf(c, s.intents[id].body.token, s.table[id].scope.day)
      && Calendar.DayUtc(s.table[id].createdAt) == Some(s.table[id].scope.day)
  {
    hide UniqueIds, WithinCap, RowsOf, Numbered, IsValidation, IsExecution, IsRejection, IsDenial, IsCreation, ValueOf, AllDigits;
    hide Calendar.DayUtc;
    if id in s.intents {
      assert Tells(c, s.intents[id], EntryAt(s.table, id), RowsOf(s.trace, id));
    }
  }

  /** The ledger's UNIQUE(intent_id) never fires: validate-policy never answers reservation_conflict. */
  lemma ConflictNeverHappens(c: Config, s: Server, id: string, rowId: string, nowMs: int)
    requires Told(c, s)
    ensures ValidateStep(c, s, id, rowId, nowMs).1 != Denied(id, Denial.ReservationConflict)
  {
    IntentsMatchLedger(c, s, id);
    hide Told, AllDigits, ValueOf, Used;
    hide Calendar.DayUtc;
  }

  // ---- The projected day sum ----

  ghost predicate ValidatedOn(s: Server, id: string, day: string) {
    exists row :: row in s.trace && row.intentId == id && row.state.PolicyValidated? && Calendar.DayUtc(row.atMs) == Some(day)
  }

  ghost predicate WasValidated(s: Server, id: string) {
    exists row :: row in s.trace && row.intentId == id && row.state.PolicyValidated?
  }

  ghost predicate WasExecuted(s: Server, id: string) {
    exists row :: row in s.trace && row.intentId == id && row.state.Executed?
  }

  /** Validated that day, and not released: still validated, executed, or rejected only after execution. */
  ghost predicate HoldsBudget(s: Server, id: string, token: string, day: string) {
    id in s.intents && s.intents[id].body.token == token && ValidatedOn(s, id, day)
    && (s.intents[id].state.PolicyValidated? || WasExecuted(s, id))
  }

  ghost function HeldAmounts(s: Server, token: string, day: string): map<string, nat> {
    map id | id in s.intents && HoldsBudget(s, id, token, day) :: AmountOf(s.intents[id].body)
  }

  function AmountOf(body: IntentBody): nat {
    match ParseAtomic(body.amount)
    case None => 0
    case Some(n) => n
  }

  ghost predicate ShowsValidation(rows: seq<TraceRow>, day: string) {
    exists i :: 0 <= i < |rows| && rows[i].state.PolicyValidated? && Calendar.DayUtc(rows[i].atMs) == Some(day)
  }

  ghost predicate ShowsExecution(rows: seq<TraceRow>) {
    exists i :: 0 <= i < |rows| && rows[i].state.Executed?
  }

  lemma StoryOnTrace(c: Config, s: Server, id: string, day: string)
    requires Told(c, s) && id in s.intents
    ensures ValidatedOn(s, id, day) <==> ShowsValidation(RowsOf(s.trace, id), day)
    ensures WasExecuted(s, id) <==> ShowsExecution(RowsOf(s.trace, id))
  {
    hide Told;
    hide Calendar.DayUtc;
    forall row ensures row in RowsOf(s.trace, id) <==> row in s.trace && row.intentId == id {
      RowsOfMember(s.trace, id, row);
    }
    hide RowsOf;
  }

  lemma StoryShows(c: Config, intent: Intent, entry: Option<Entry>, rows: seq<TraceRow>, day: string)
    requires Tells(c, intent, entry, rows)
    ensures ShowsValidation(rows, day) <==> entry.Some? && |rows| > 1 && Calendar.DayUtc(rows[1].atMs) == Some(day)
    ensures ShowsExecution(rows) <==> entry.Some? && entry.value.status.Committed?
    ensures entry.Some? ==> |rows| > 1 && Backs(c, entry, intent.body, rows[1], entry.value.status)
    ensures intent.state.PolicyValidated? <==> entry.Some? && entry.value.status.Reserved?
  {
    hide AllDigits, ValueOf, ScopeOf, CreatedPayload, DeniedPayload, ValidatedPayload, MarkedPayload, ConfirmedPayload, RejectedPayload;
    hide PassesHashTest, IsLowerHex;
    hide Calendar.DayUtc;
    assert entry.Some? ==> rows[1].state.PolicyValidated?;
    assert entry.Some? && entry.value.status.Committed? ==> rows[2].state.Executed?;
  }

  lemma HoldsBudgetIsLive(c: Config, s: Server, id: string, token: string, day: string)
    requires Told(c, s)
    ensures HoldsBudget(s, id, token, day) <==> id in s.table && s.table[id].scope == ScopeOf(c, token, day) && Live(s.table[id])
    ensures id in s.table ==> id in s.intents && AmountOf(s.intents[id].body) == s.table[id].amount
  {
    if id in s.intents {
      var rows := RowsOf(s.trace, id);
      assert Tells(c, s.intents[id], EntryAt(s.table, id), rows);
      StoryOnTrace(c, s, id, day);
      StoryShows(c, s.intents[id], EntryAt(s.table, id), rows, day);
      hide Told, RowsOf, ValueOf, AllDigits, ValidatedOn, WasExecuted, Tells, ShowsValidation, ShowsExecution;
      hide Calendar.DayUtc;
    }
  }

  /** The ledger's cap sum is the sum over the intents that hold budget that day. */
  lemma UsedIsHeld(c: Config, s: Server, token: string, day: string)
    requires Told(c, s)
    ensures Used(s.table, ScopeOf(c, token, day)) == Total(HeldAmounts(s, token, day)) <= CapOf(c)
  {
    assert Used(s.table, ScopeOf(c, token, day)) <= CapOf(c);
    forall id: string
      ensures HoldsBudget(s, id, token, day) <==> id in s.table && s.table[id].scope == ScopeOf(c, token, day) && Live(s.table[id])
      ensures id in s.table ==> id in s.intents && AmountOf(s.intents[id].body) == s.table[id].amount
    {
      HoldsBudgetIsLive(c, s, id, token, day);
    }
    var scope := ScopeOf(c, token, day);
    hide *;
    MapsAgree(s, scope, token, day);
  }

  lemma MapsAgree(s: Server, scope: Scope, token: string, day: string)
    requires forall id: string :: HoldsBudget(s, id, token, day) <==> id in s.table && s.table[id].scope == scope && Live(s.table[id])
    requires forall id: string :: id in s.table ==> id in s.intents && AmountOf(s.intents[id].body) == s.table[id].amount
    ensures Used(s.table, scope) == Total(HeldAmounts(s, token, day))
  {
    hide HoldsBudget, AmountOf, Live;
    assert HeldAmounts(s, token, day) == LiveAmounts(s.table, scope);
  }

  /** After any run from an empty store: open rows are exactly the validated intents, and each day's usage is what its intents hold. */
  lemma EveryRunIsCoupled(c: Config, events: seq<Event>, id: string, token: string, day: string)
    requires FreshAll(c, EMPTY, events)
    ensures var s := Run(c, EMPTY, events);
      && (id in s.table && s.table[id].status.Reserved? <==> id in s.intents && s.intents[id].state.PolicyValidated?)
      && (id in s.intents && s.intents[id].state.Executed? ==> id in s.table && s.table[id].status.Committed?)
      && (id in s.intents && s.intents[id].state.Draft? ==> id !in s.table)
      && Used(s.table, ScopeOf(c, token, day)) == Total(HeldAmounts(s, token, day)) <= CapOf(c)
  {
    EmptyIsTold(c);
    RunKeepsTold(c, EMPTY, events);
    IntentsMatchLedger(c, Run(c, EMPTY, events), id);
    UsedIsHeld(c, Run(c, EMPTY, events), token, day);
    hide *;
  }

  // ---- projectVault ----

  datatype VaultSummary = VaultSummary(
    id: string,
    signerRole: string,
    token: string,
    contract: string,
    receiverPolicy: ReceiverPolicy,
    allowedReceivers: seq<string>,
    maxSinglePaymentAtomic: string,
    perDayCapAtomic: string,
    usedTodayAtomic: string,
    dayUtc: string,
    policyDigest: string)

  /** The first allowed token or contract; an empty list reads as the empty string. */
  function FirstOf(list: seq<string>): string {
    if list == [] then "" else list[0]
  }

  /**
   * The summary's usage, read off a router's ledger, is the printed sum of the amounts held
   * that day; it throws only when the date has no day string.
   */
  method ProjectVault(router: IntentRouter, nowMs: int) returns (r: Call<VaultSummary>)
    requires router.Valid() && Told(router.config, router.Model())
    ensures r == Threw <==> Calendar.DayUtc(nowMs) == None
    ensures r.Returned? ==>
      var p, v := router.config.policy, r.value;
      Calendar.DayUtc(nowMs) == Some(v.dayUtc)
      && v.token == FirstOf(p.allowedTokens)
      && v.usedTodayAtomic == Print(Total(HeldAmounts(router.Model(), v.token, v.dayUtc)))
      && Total(HeldAmounts(router.Model(), v.token, v.dayUtc)) <= CapOf(router.config)
      && v.perDayCapAtomic == p.perDayCapAtomic && v.policyDigest == router.config.policyDigest
      && v.signerRole == p.signerRole && v.contract == FirstOf(p.allowedContractPackages)
      && v.receiverPolicy == p.receiverPolicy && v.allowedReceivers == p.allowedReceivers
      && v.maxSinglePaymentAtomic == p.maxSinglePaymentAtomic
      && |v.id| == 6 + (if |v.policyDigest| < 16 then |v.policyDigest| else 16) && v.id <= "vault_" + v.policyDigest
  {
    var p := router.config.policy;
    var day := Calendar.DayUtc(nowMs);
    if day == None { return Threw; }
    var token := FirstOf(p.allowedTokens);
    hide *;
    UsedIsHeld(router.config, router.Model(), token, day.value);
    var used := router.ledger.UsedOnDay(ScopeOf(router.config, token, day.value));
    var digest := router.config.policyDigest;
    return Returned(VaultSummary(
      "vault_" + digest[..if |digest| < 16 then |digest| else 16],
      p.signerRole, token, FirstOf(p.allowedContractPackages), p.receiverPolicy, p.allowedReceivers,
      p.maxSinglePaymentAtomic, p.perDayCapAtomic, used.value, day.value, digest));
  }
}
