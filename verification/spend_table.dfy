/**
 * What the spend ledger means: a map from intent to its scope, amount and status. The row
 * table of SpendLedger refines these operations; the guard and the router reason with them.
 */
module SpendTable {
  import opened MapSums

  /** The tuple a day cap is keyed on. */
  datatype Scope = Scope(role: string, pk: string, token: string, day: string)

  datatype Status = Reserved | Committed | Released

  datatype Entry = Entry(id: string, scope: Scope, amount: nat, status: Status, createdAt: int)

  type Table = map<string, Entry>

  datatype ReserveResult = Reserved(id: string) | DayCapExceeded | ReservationConflict

  predicate Live(e: Entry) {
    e.status != Status.Released
  }

  function LiveAmounts(t: Table, scope: Scope): map<string, nat> {
    map k | k in t && t[k].scope == scope && Live(t[k]) :: t[k].amount
  }

  /** The cap sum: reserved and committed amounts of one scope. */
  ghost function Used(t: Table, scope: Scope): nat {
    Total(LiveAmounts(t, scope))
  }

  ghost predicate IdFresh(t: Table, id: string) {
    forall k :: k in t ==> t[k].id != id
  }

  ghost predicate UniqueIds(t: Table) {
    forall j, k :: j in t && k in t && t[j].id == t[k].id ==> j == k
  }

  ghost function Reserve(t: Table, intent: string, id: string, scope: Scope, amount: nat, createdAt: int, cap: nat)
    : (Table, ReserveResult)
  {
    if Used(t, scope) + amount > cap then (t, DayCapExceeded)
    else if intent in t then (t, ReservationConflict)
    else (t[intent := Entry(id, scope, amount, Status.Reserved, createdAt)], ReserveResult.Reserved(id))
  }

  /** The cap is judged first, then the one row per intent; only a grant adds a row. */
  lemma ReserveAnswers(t: Table, intent: string, id: string, scope: Scope, amount: nat, createdAt: int, cap: nat)
    ensures var (t', r) := Reserve(t, intent, id, scope, amount, createdAt, cap);
      && (r == DayCapExceeded <==> Used(t, scope) + amount > cap)
      && (r == ReservationConflict <==> Used(t, scope) + amount <= cap && intent in t)
      && (r == ReserveResult.Reserved(id) <==> Used(t, scope) + amount <= cap && intent !in t)
      && t' == if r.Reserved? then t[intent := Entry(id, scope, amount, Status.Reserved, createdAt)] else t
  {
    hide Used;
  }

  /** commit and release: only a reserved row moves. */
  function Settle(t: Table, id: string, status: Status): Table {
    map k | k in t :: if t[k].id == id && t[k].status.Reserved? then t[k].(status := status) else t[k]
  }

  predicate Stale(e: Entry, nowMs: int, ttlMs: int) {
    e.status.Reserved? && e.createdAt <= nowMs - ttlMs
  }

  function StaleIntents(t: Table, nowMs: int, ttlMs: int): set<string> {
    set k | k in t && Stale(t[k], nowMs, ttlMs)
  }

  function ReleaseStale(t: Table, nowMs: int, ttlMs: int): Table {
    map k | k in t :: if Stale(t[k], nowMs, ttlMs) then t[k].(status := Status.Released) else t[k]
  }

  // ---- Sums under each operation ----

  /** Replacing one entry changes only the sums of the old and the new scope. */
  lemma UsedUpdate(t: Table, intent: string, e: Entry, scope: Scope)
    ensures Used(t[intent := e], scope)
         == Used(t, scope)
          - (if intent in t && t[intent].scope == scope && Live(t[intent]) then t[intent].amount else 0)
          + (if e.scope == scope && Live(e) then e.amount else 0)
  {
    var before, after := LiveAmounts(t, scope), LiveAmounts(t[intent := e], scope);
    assert after - {intent} == before - {intent};
    if intent in before {
      TotalRemove(before, intent);
    } else {
      assert before - {intent} == before;
    }
    if intent in after {
      TotalRemove(after, intent);
    } else {
      assert after - {intent} == after;
    }
  }

  /** A successful reservation adds its amount to its own scope, stays within the cap, and touches no other scope. */
  lemma ReserveSums(t: Table, intent: string, id: string, scope: Scope, amount: nat, createdAt: int, cap: nat, other: Scope)
    ensures var (t', r) := Reserve(t, intent, id, scope, amount, createdAt, cap);
            Used(t', other) == Used(t, other) + (if r.Reserved? && other == scope then amount else 0)
    ensures var (t', r) := Reserve(t, intent, id, scope, amount, createdAt, cap);
            r.Reserved? ==> Used(t', scope) <= cap
  {
    var (t', r) := Reserve(t, intent, id, scope, amount, createdAt, cap);
    if r.Reserved? {
      UsedUpdate(t, intent, Entry(id, scope, amount, Status.Reserved, createdAt), other);
      UsedUpdate(t, intent, Entry(id, scope, amount, Status.Reserved, createdAt), scope);
    }
  }

  lemma SettleIsUpdate(t: Table, intent: string, status: Status)
    requires UniqueIds(t) && intent in t
    ensures Settle(t, t[intent].id, status)
         == if t[intent].status.Reserved? then t[intent := t[intent].(status := status)] else t
  {
  }

  /** Committing moves no sum; releasing a reserved row returns exactly that row's amount to its own scope. */
  lemma SettleSums(t: Table, intent: string, status: Status, scope: Scope)
    requires UniqueIds(t) && intent in t && !status.Reserved?
    ensures Used(Settle(t, t[intent].id, status), scope)
         == Used(t, scope)
          - (if status.Released? && t[intent].status.Reserved? && t[intent].scope == scope then t[intent].amount else 0)
  {
    SettleIsUpdate(t, intent, status);
    if t[intent].status.Reserved? {
      UsedUpdate(t, intent, t[intent].(status := status), scope);
    }
  }

  /** An id that no row carries settles nothing. */
  lemma SettleUnknown(t: Table, id: string, status: Status)
    requires IdFresh(t, id)
    ensures Settle(t, id, status) == t
  {
  }

  /** Sweeping returns, scope by scope, exactly what the stale rows held. */
  lemma SweepSums(t: Table, nowMs: int, ttlMs: int, scope: Scope)
    ensures Used(ReleaseStale(t, nowMs, ttlMs), scope)
         == Total(LiveAmounts(t, scope) - StaleIntents(t, nowMs, ttlMs))
    ensures Used(ReleaseStale(t, nowMs, ttlMs), scope) <= Used(t, scope)
  {
    assert LiveAmounts(ReleaseStale(t, nowMs, ttlMs), scope) == LiveAmounts(t, scope) - StaleIntents(t, nowMs, ttlMs);
    TotalMonotone(LiveAmounts(t, scope) - StaleIntents(t, nowMs, ttlMs), LiveAmounts(t, scope));
  }

  // ---- Runs of ledger operations under one cap ----

  datatype Op =
    | DoReserve(intent: string, id: string, scope: Scope, amount: nat, createdAt: int)
    | DoCommit(id: string)
    | DoRelease(id: string)
    | DoSweep(nowMs: int, ttlMs: int)

  ghost function Apply(t: Table, op: Op, cap: nat): Table {
    match op
    case DoReserve(intent, id, scope, amount, createdAt) => Reserve(t, intent, id, scope, amount, createdAt, cap).0
    case DoCommit(id) => Settle(t, id, Status.Committed)
    case DoRelease(id) => Settle(t, id, Status.Released)
    case DoSweep(nowMs, ttlMs) => ReleaseStale(t, nowMs, ttlMs)
  }

  ghost function ApplyAll(t: Table, ops: seq<Op>, cap: nat): Table {
    if ops == [] then t else Apply(ApplyAll(t, ops[..|ops| - 1], cap), ops[|ops| - 1], cap)
  }

  /** Row ids come from randomUUID: each reservation offers an id that no row carries. */
  ghost predicate FreshIds(t: Table, ops: seq<Op>, cap: nat) {
    forall i :: 0 <= i < |ops| && ops[i].DoReserve? ==> IdFresh(ApplyAll(t, ops[..i], cap), ops[i].id)
  }

  /** Statuses move only from reserved to committed or released; nothing else of an entry ever changes. */
  predicate Evolves(e: Entry, e': Entry) {
    e' == e || (e.status.Reserved? && (e' == e.(status := Status.Committed) || e' == e.(status := Status.Released)))
  }

  ghost predicate Grows(t: Table, t': Table) {
    forall k :: k in t ==> k in t' && Evolves(t[k], t'[k])
  }

  ghost predicate WithinCap(t: Table, cap: nat) {
    forall scope :: Used(t, scope) <= cap
  }

  lemma ApplyGrows(t: Table, op: Op, cap: nat)
    ensures Grows(t, Apply(t, op, cap))
  {
  }

  lemma ApplyKeepsIds(t: Table, op: Op, cap: nat)
    requires UniqueIds(t) && (op.DoReserve? ==> IdFresh(t, op.id))
    ensures UniqueIds(Apply(t, op, cap))
  {
  }

  lemma ApplyKeepsCap(t: Table, op: Op, cap: nat)
    requires UniqueIds(t) && WithinCap(t, cap)
    ensures WithinCap(Apply(t, op, cap), cap)
  {
    forall scope ensures Used(Apply(t, op, cap), scope) <= cap {
      assert Used(t, scope) <= cap;
      match op
      case DoReserve(intent, id, sc, amount, createdAt) =>
        ReserveSums(t, intent, id, sc, amount, createdAt, cap, scope);
      case DoCommit(id) =>
        SettleNeverRaises(t, id, Status.Committed, scope);
      case DoRelease(id) =>
        SettleNeverRaises(t, id, Status.Released, scope);
      case DoSweep(nowMs, ttlMs) =>
        SweepSums(t, nowMs, ttlMs, scope);
    }
  }

  lemma SettleNeverRaises(t: Table, id: string, status: Status, scope: Scope)
    requires UniqueIds(t) && !status.Reserved?
    ensures Used(Settle(t, id, status), scope) <= Used(t, scope)
  {
    if intent :| intent in t && t[intent].id == id {
      SettleSums(t, intent, status, scope);
    } else {
      SettleUnknown(t, id, status);
    }
  }

  /** Any run under one fixed cap keeps ids unique, every scope within the cap, and history monotone. */
  lemma {:induction false} EveryRunWithinCap(t: Table, ops: seq<Op>, cap: nat)
    requires UniqueIds(t) && WithinCap(t, cap) && FreshIds(t, ops, cap)
    ensures var t' := ApplyAll(t, ops, cap);
            UniqueIds(t') && WithinCap(t', cap) && Grows(t, t')
  {
    if ops != [] {
      var front := ops[..|ops| - 1];
      forall i | 0 <= i < |front| && front[i].DoReserve? ensures IdFresh(ApplyAll(t, front[..i], cap), front[i].id) {
        assert front[..i] == ops[..i] && front[i] == ops[i];
      }
      EveryRunWithinCap(t, front, cap);
      var t1 := ApplyAll(t, front, cap);
      assert ops[|ops| - 1].DoReserve? ==> IdFresh(t1, ops[|ops| - 1].id);
      ApplyKeepsIds(t1, ops[|ops| - 1], cap);
      ApplyKeepsCap(t1, ops[|ops| - 1], cap);
      ApplyGrows(t1, ops[|ops| - 1], cap);
    }
  }
}
