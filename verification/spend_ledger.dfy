/**
 * makeSpendLedger: the row table behind the caps, with UNIQUE(intent_id) and fresh row ids.
 * Each operation is proved to act on the rows as SpendTable's operation acts on the map.
 */
module SpendLedgerRows {
  import opened Wrappers
  import opened Decimal
  import opened SpendTable

  datatype Reservation = Reservation(scope: Scope, amount: string, intentId: string, traceId: string)

  datatype Row = Row(
    id: string,
    scope: Scope,
    amount: string,
    status: Status,
    intentId: string,
    traceId: string,
    createdAt: int,
    updatedAt: int)

  /** A call either returns or throws the TypeError of parseAtomic. */
  datatype Call<+T> = Returned(value: T) | Threw

  predicate Counts(row: Row, scope: Scope) {
    row.scope == scope && row.status != Status.Released
  }

  /** The reduce over the selected rows: a malformed amount throws rather than count as zero. */
  function SumRows(rows: seq<Row>, scope: Scope): Option<nat> {
    if rows == [] then Some(0) else
      var last := rows[|rows| - 1];
      var sum := SumRows(rows[..|rows| - 1], scope);
      if sum == None || !Counts(last, scope) then sum
      else match ParseAtomic(last.amount)
        case None => None
        case Some(a) => Some(sum.value + a)
  }

  function EntryOf(row: Row): Entry {
    Entry(row.id, row.scope, if AllDigits(row.amount) then ValueOf(row.amount) else 0, row.status, row.createdAt)
  }

  /** The map the rows stand for. */
  function TableOf(rows: seq<Row>): Table {
    if rows == [] then map[] else
      TableOf(rows[..|rows| - 1])[rows[|rows| - 1].intentId := EntryOf(rows[|rows| - 1])]
  }

  predicate UniqueRows(rows: seq<Row>) {
    forall i, j :: 0 <= i < j < |rows| ==> rows[i].intentId != rows[j].intentId && rows[i].id != rows[j].id
  }

  predicate CleanRows(rows: seq<Row>) {
    forall i :: 0 <= i < |rows| ==> AllDigits(rows[i].amount)
  }

  lemma {:induction false} TableLookup(rows: seq<Row>)
    requires UniqueRows(rows)
    ensures forall i :: 0 <= i < |rows| ==> rows[i].intentId in TableOf(rows) && TableOf(rows)[rows[i].intentId] == EntryOf(rows[i])
    ensures forall k :: k in TableOf(rows) ==> exists i :: 0 <= i < |rows| && rows[i].intentId == k
  {
    hide EntryOf;
    if rows != [] {
      var front := rows[..|rows| - 1];
      TableLookup(front);
      forall k | k in TableOf(rows) ensures exists i :: 0 <= i < |rows| && rows[i].intentId == k {
        if k in TableOf(front) {
          var i :| 0 <= i < |front| && front[i].intentId == k;
          assert rows[i].intentId == k;
        } else {
          assert rows[|rows| - 1].intentId == k;
        }
      }
    }
  }

  /** A table is known by its rows. */
  lemma TableExtensional(rows: seq<Row>, t: Table)
    requires UniqueRows(rows)
    requires forall i :: 0 <= i < |rows| ==> rows[i].intentId in t && t[rows[i].intentId] == EntryOf(rows[i])
    requires forall k :: k in t ==> exists i :: 0 <= i < |rows| && rows[i].intentId == k
    ensures TableOf(rows) == t
  {
    TableLookup(rows);
    forall k | k in t ensures k in TableOf(rows) && TableOf(rows)[k] == t[k] {
      var i :| 0 <= i < |rows| && rows[i].intentId == k;
    }
    forall k | k in TableOf(rows) ensures k in t {
      var i :| 0 <= i < |rows| && rows[i].intentId == k;
    }
  }

  /** The sum over rows is the map's cap sum. */
  lemma {:induction false} SumRowsIsUsed(rows: seq<Row>, scope: Scope)
    requires UniqueRows(rows) && CleanRows(rows)
    ensures SumRows(rows, scope) == Some(Used(TableOf(rows), scope))
  {
    hide AllDigits, ValueOf, Used;
    if rows == [] {
      UsedEmpty(scope);
    } else {
      var front, last := rows[..|rows| - 1], rows[|rows| - 1];
      assert UniqueRows(front) && CleanRows(front);
      SumRowsIsUsed(front, scope);
      assert last.intentId !in TableOf(front) by { TableLookup(front); }
      UsedUpdate(TableOf(front), last.intentId, EntryOf(last), scope);
    }
  }

  lemma UsedEmpty(scope: Scope)
    ensures Used(map[], scope) == 0
  {
    assert LiveAmounts(map[], scope) == map[];
  }

  /** The sum fails exactly when some counted row is malformed: it never under-counts. */
  lemma {:induction false} SumRowsFailsClosed(rows: seq<Row>, scope: Scope)
    ensures SumRows(rows, scope) == None <==>
      exists i :: 0 <= i < |rows| && Counts(rows[i], scope) && !AllDigits(rows[i].amount)
  {
    if rows != [] {
      var front, last := rows[..|rows| - 1], rows[|rows| - 1];
      SumRowsFailsClosed(front, scope);
      assert last == rows[|rows| - 1];
      if SumRows(front, scope) == None {
        var i :| 0 <= i < |front| && Counts(front[i], scope) && !AllDigits(front[i].amount);
        assert rows[i] == front[i];
      }
    }
  }

  /** A row whose status changed carries the time; nothing else of any row changed. */
  predicate Stamped(before: seq<Row>, after: seq<Row>, nowMs: int) {
    |after| == |before|
    && forall i :: 0 <= i < |before| ==>
         after[i] == if after[i].status == before[i].status then before[i]
                     else before[i].(status := after[i].status, updatedAt := nowMs)
  }

  /** UPDATE ... SET status WHERE id = ... AND status = 'reserved'. */
  function WithStatus(rows: seq<Row>, id: string, status: Status, nowMs: int): (r: seq<Row>)
    ensures |r| == |rows|
  {
    seq(|rows|, i requires 0 <= i < |rows| =>
      if rows[i].id == id && rows[i].status.Reserved? then rows[i].(status := status, updatedAt := nowMs) else rows[i])
  }

  /** Rewriting rows in place, intents kept, rewrites the table entry by entry. */
  lemma RowwiseTable(rows: seq<Row>, after: seq<Row>, t: Table)
    requires UniqueRows(rows) && |after| == |rows|
    requires forall i :: 0 <= i < |rows| ==> after[i].intentId == rows[i].intentId && after[i].id == rows[i].id
    requires t.Keys == TableOf(rows).Keys
    requires forall i :: 0 <= i < |rows| && rows[i].intentId in t ==> t[rows[i].intentId] == EntryOf(after[i])
    ensures UniqueRows(after) && TableOf(after) == t
  {
    hide EntryOf;
    TableLookup(rows);
    forall k | k in t ensures exists i :: 0 <= i < |after| && after[i].intentId == k {
      var i :| 0 <= i < |rows| && rows[i].intentId == k;
      assert after[i].intentId == k;
    }
    TableExtensional(after, t);
  }

  lemma WithStatusIsSettle(rows: seq<Row>, id: string, status: Status, nowMs: int)
    requires UniqueRows(rows)
    ensures UniqueRows(WithStatus(rows, id, status, nowMs))
    ensures TableOf(WithStatus(rows, id, status, nowMs)) == Settle(TableOf(rows), id, status)
  {
    hide AllDigits, ValueOf;
    TableLookup(rows);
    RowwiseTable(rows, WithStatus(rows, id, status, nowMs), Settle(TableOf(rows), id, status));
  }

  predicate StaleRow(row: Row, nowMs: int, ttlMs: int) {
    row.status.Reserved? && row.createdAt <= nowMs - ttlMs
  }

  /** The sweep's UPDATE ... WHERE status = 'reserved' AND created_at <= now - ttl. */
  function Swept(rows: seq<Row>, nowMs: int, ttlMs: int): (r: seq<Row>)
    ensures |r| == |rows|
  {
    seq(|rows|, i requires 0 <= i < |rows| =>
      if StaleRow(rows[i], nowMs, ttlMs) then rows[i].(status := Status.Released, updatedAt := nowMs) else rows[i])
  }

  /** The number of rows the sweep changes. */
  function Changes(rows: seq<Row>, nowMs: int, ttlMs: int): nat {
    if rows == [] then 0
    else Changes(rows[..|rows| - 1], nowMs, ttlMs) + (if StaleRow(rows[|rows| - 1], nowMs, ttlMs) then 1 else 0)
  }

  lemma SweptIsReleaseStale(rows: seq<Row>, nowMs: int, ttlMs: int)
    requires UniqueRows(rows)
    ensures UniqueRows(Swept(rows, nowMs, ttlMs))
    ensures TableOf(Swept(rows, nowMs, ttlMs)) == ReleaseStale(TableOf(rows), nowMs, ttlMs)
  {
    hide AllDigits, ValueOf;
    TableLookup(rows);
    RowwiseTable(rows, Swept(rows, nowMs, ttlMs), ReleaseStale(TableOf(rows), nowMs, ttlMs));
  }

  lemma {:induction false} ChangesCountsStale(rows: seq<Row>, nowMs: int, ttlMs: int)
    requires UniqueRows(rows)
    ensures Changes(rows, nowMs, ttlMs) == |StaleIntents(TableOf(rows), nowMs, ttlMs)|
  {
    hide AllDigits, ValueOf;
    if rows != [] {
      var front, last := rows[..|rows| - 1], rows[|rows| - 1];
      ChangesCountsStale(front, nowMs, ttlMs);
      assert last.intentId !in TableOf(front) by { TableLookup(front); }
      assert StaleIntents(TableOf(rows), nowMs, ttlMs)
          == StaleIntents(TableOf(front), nowMs, ttlMs) + (if StaleRow(last, nowMs, ttlMs) then {last.intentId} else {});
    }
  }

  class SpendLedger {
    var rows: seq<Row>

    /** What the database's constraints guarantee. */
    predicate Valid()
      reads this
    {
      UniqueRows(rows)
    }

    /** What the ledger's own operations keep: every stored amount is a digit string. */
    predicate Clean()
      reads this
    {
      CleanRows(rows)
    }

    function Contents(): Table
      reads this
    {
      TableOf(rows)
    }

    constructor ()
      ensures Valid() && Clean() && Contents() == map[]
    {
      rows := [];
    }

    /** One transaction: sum, compare, insert. The id is a new UUID. */
    method Reserve(reservation: Reservation, dayCapAtomic: string, id: string, nowMs: int) returns (r: Call<ReserveResult>)
      requires Valid() && IdFresh(Contents(), id)
      modifies this
      ensures Valid() && (old(Clean()) ==> Clean())
      ensures r == Threw <==>
        || !AllDigits(reservation.amount) || !AllDigits(dayCapAtomic)
        || exists i :: 0 <= i < |old(rows)| && Counts(old(rows)[i], reservation.scope) && !AllDigits(old(rows)[i].amount)
      ensures r == Threw ==> rows == old(rows)
      ensures r.Returned? && old(Clean()) ==>
        (Contents(), r.value) == SpendTable.Reserve(
          old(Contents()), reservation.intentId, id, reservation.scope,
          ValueOf(reservation.amount), nowMs, ValueOf(dayCapAtomic))
      ensures r.Returned? && !r.value.Reserved? ==> rows == old(rows)
      ensures r.Returned? && r.value.Reserved? ==>
        |rows| == |old(rows)| + 1 && rows[..|old(rows)|] == old(rows)
        && var row := rows[|old(rows)|];
        && row.id == id && row.scope == reservation.scope && row.amount == reservation.amount && row.status.Reserved?
        && row.intentId == reservation.intentId && row.traceId == reservation.traceId && row.createdAt == row.updatedAt == nowMs
    {
      var requested, dayCap := ParseAtomic(reservation.amount), ParseAtomic(dayCapAtomic);
      if requested == None || dayCap == None { return Threw; }
      hide AllDigits, ValueOf, Used;
      SumRowsFailsClosed(rows, reservation.scope);
      var spent := SumRows(rows, reservation.scope);
      if spent == None { return Threw; }
      if Clean() { SumRowsIsUsed(rows, reservation.scope); }
      if spent.value + requested.value > dayCap.value { return Returned(DayCapExceeded); }
      TableLookup(rows);
      if exists i :: 0 <= i < |rows| && rows[i].intentId == reservation.intentId {
        return Returned(ReservationConflict);
      }
      Insert(Row(
        id, reservation.scope, reservation.amount, Status.Reserved,
        reservation.intentId, reservation.traceId, nowMs, nowMs));
      return Returned(ReserveResult.Reserved(id));
    }

    method Insert(row: Row)
      requires Valid() && IdFresh(Contents(), row.id) && row.intentId !in Contents()
      modifies this
      ensures Valid() && Contents() == old(Contents())[row.intentId := EntryOf(row)]
      ensures rows == old(rows) + [row]
    {
      hide AllDigits, ValueOf;
      TableLookup(rows);
      forall i | 0 <= i < |rows| ensures rows[i].id != row.id {
        assert Contents()[rows[i].intentId].id == rows[i].id;
      }
      assert (rows + [row])[..|rows|] == rows;
      rows := rows + [row];
    }

    method Commit(reservationId: string, nowMs: int)
      requires Valid()
      modifies this
      ensures Valid() && (old(Clean()) ==> Clean())
      ensures Contents() == Settle(old(Contents()), reservationId, Status.Committed)
      ensures Stamped(old(rows), rows, nowMs)
    {
      WithStatusIsSettle(rows, reservationId, Status.Committed, nowMs);
      rows := WithStatus(rows, reservationId, Status.Committed, nowMs);
    }

    method Release(reservationId: string, nowMs: int)
      requires Valid()
      modifies this
      ensures Valid() && (old(Clean()) ==> Clean())
      ensures Contents() == Settle(old(Contents()), reservationId, Status.Released)
      ensures Stamped(old(rows), rows, nowMs)
    {
      WithStatusIsSettle(rows, reservationId, Status.Released, nowMs);
      rows := WithStatus(rows, reservationId, Status.Released, nowMs);
    }

    /** Flips exactly the stale reserved rows and returns how many there were. */
    method ReleaseExpired(nowMs: int, ttlMs: int) returns (changes: nat)
      requires Valid()
      modifies this
      ensures Valid() && (old(Clean()) ==> Clean())
      ensures Contents() == ReleaseStale(old(Contents()), nowMs, ttlMs) && Stamped(old(rows), rows, nowMs)
      ensures changes == |StaleIntents(old(Contents()), nowMs, ttlMs)|
    {
      SweptIsReleaseStale(rows, nowMs, ttlMs);
      ChangesCountsStale(rows, nowMs, ttlMs);
      changes := Changes(rows, nowMs, ttlMs);
      rows := Swept(rows, nowMs, ttlMs);
    }

    method FindByIntentId(intentId: string) returns (row: Option<Row>)
      requires Valid()
      ensures row.Some? <==> intentId in Contents()
      ensures row.Some? ==> row.value.intentId == intentId && EntryOf(row.value) == Contents()[intentId]
    {
      TableLookup(rows);
      var found := rows;
      while |found| > 0
        invariant |found| <= |rows| && found == rows[|rows| - |found|..]
        invariant forall i :: 0 <= i < |rows| - |found| ==> rows[i].intentId != intentId
      {
        if found[0].intentId == intentId { return Some(found[0]); }
        found := found[1..];
      }
      return None;
    }

    /** Fails closed like reserve's own sum; otherwise prints the cap sum. */
    method UsedOnDay(scope: Scope) returns (r: Call<string>)
      requires Valid()
      ensures r == Threw <==> exists i :: 0 <= i < |rows| && Counts(rows[i], scope) && !AllDigits(rows[i].amount)
      ensures Clean() ==> r == Returned(Print(Used(Contents(), scope)))
    {
      SumRowsFailsClosed(rows, scope);
      var sum := SumRows(rows, scope);
      if Clean() { SumRowsIsUsed(rows, scope); }
      if sum == None { return Threw; }
      return Returned(Print(sum.value));
    }
  }
}
