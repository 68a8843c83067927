/** AuditTraceStore: an append-only table of intent events, read back per intent in time order. */
module AuditTraces {
  import opened ApiTrees

  datatype IntentState =
    | Draft
    | PolicyValidated
    | PaymentRequired
    | PaymentVerified
    | ReadyToSubmit
    | SignedReceived
    | AcceptedByNode
    | Executed
    | Finalized
    | Rejected
    | ExecutionFailed
    | Timeout

  datatype Kind = Creation | PolicyCheck | Execution | Rejection

  datatype TraceRow = TraceRow(id: nat, intentId: string, state: IntentState, atMs: int, kind: Kind, payload: Tree)

  /** INSERT: the key is AUTOINCREMENT over a table nothing is ever deleted from. */
  function Appended(rows: seq<TraceRow>, intentId: string, state: IntentState, atMs: int, kind: Kind, payload: Tree): seq<TraceRow> {
    rows + [TraceRow(|rows| + 1, intentId, state, atMs, kind, payload)]
  }

  /** The rows of one intent in insertion order. */
  function RowsOf(rows: seq<TraceRow>, intentId: string): seq<TraceRow> {
    if rows == [] then [] else
      var last := rows[|rows| - 1];
      RowsOf(rows[..|rows| - 1], intentId) + (if last.intentId == intentId then [last] else [])
  }

  /** ORDER BY at_ms ASC, id ASC. */
  predicate Before(a: TraceRow, b: TraceRow) {
    a.atMs < b.atMs || (a.atMs == b.atMs && a.id <= b.id)
  }

  function InsertRow(sorted: seq<TraceRow>, row: TraceRow): seq<TraceRow> {
    if sorted == [] || Before(sorted[|sorted| - 1], row) then sorted + [row]
    else InsertRow(sorted[..|sorted| - 1], row) + [sorted[|sorted| - 1]]
  }

  /** SELECT * WHERE intent_id = ? ORDER BY at_ms ASC, id ASC. */
  function ListByIntent(rows: seq<TraceRow>, intentId: string): seq<TraceRow> {
    if rows == [] then [] else
      var front, last := ListByIntent(rows[..|rows| - 1], intentId), rows[|rows| - 1];
      if last.intentId == intentId then InsertRow(front, last) else front
  }

  predicate Ordered(rows: seq<TraceRow>) {
    forall i, j :: 0 <= i < j < |rows| ==> Before(rows[i], rows[j])
  }

  lemma {:induction false} InsertKeepsRows(sorted: seq<TraceRow>, row: TraceRow)
    ensures multiset(InsertRow(sorted, row)) == multiset(sorted) + multiset{row}
  {
    hide Before;
    if sorted != [] && !Before(sorted[|sorted| - 1], row) {
      InsertKeepsRows(sorted[..|sorted| - 1], row);
      assert sorted == sorted[..|sorted| - 1] + [sorted[|sorted| - 1]];
    }
  }

  lemma {:induction false} InsertKeepsOrder(sorted: seq<TraceRow>, row: TraceRow)
    requires Ordered(sorted)
    ensures Ordered(InsertRow(sorted, row))
  {
    if sorted == [] || Before(sorted[|sorted| - 1], row) {
      BeforeChains(sorted, row);
    } else {
      var front, last := sorted[..|sorted| - 1], sorted[|sorted| - 1];
      InsertKeepsOrder(front, row);
      InsertKeepsRows(front, row);
      var inner := InsertRow(front, row);
      forall i | 0 <= i < |inner| ensures Before(inner[i], last) {
        assert inner[i] in multiset(inner);
        assert inner[i] == row || inner[i] in front;
      }
      hide Before;
      assert InsertRow(sorted, row) == inner + [last];
    }
  }

  lemma BeforeChains(sorted: seq<TraceRow>, row: TraceRow)
    requires Ordered(sorted) && (sorted == [] || Before(sorted[|sorted| - 1], row))
    ensures Ordered(sorted + [row])
  {
    forall i | 0 <= i < |sorted| ensures Before(sorted[i], row) {
      assert i == |sorted| - 1 || Before(sorted[i], sorted[|sorted| - 1]);
    }
  }

  /** Whatever the clock did, the listing holds exactly the intent's rows, sorted by time and then by key. */
  lemma {:induction false} ListingIsOrdered(rows: seq<TraceRow>, intentId: string)
    ensures Ordered(ListByIntent(rows, intentId))
    ensures multiset(ListByIntent(rows, intentId)) == multiset(RowsOf(rows, intentId))
  {
    if rows != [] {
      var front := rows[..|rows| - 1];
      ListingIsOrdered(front, intentId);
      InsertKeepsOrder(ListByIntent(front, intentId), rows[|rows| - 1]);
      InsertKeepsRows(ListByIntent(front, intentId), rows[|rows| - 1]);
    }
  }

  predicate Numbered(rows: seq<TraceRow>) {
    forall i :: 0 <= i < |rows| ==> rows[i].id == i + 1
  }

  predicate Chronological(rows: seq<TraceRow>) {
    forall i, j :: 0 <= i < j < |rows| ==> rows[i].atMs <= rows[j].atMs
  }

  /** While the clock does not run backwards, the listing is the insertion order. */
  lemma {:induction false} ListingIsInsertionOrder(rows: seq<TraceRow>, intentId: string)
    requires Numbered(rows) && Chronological(rows)
    ensures ListByIntent(rows, intentId) == RowsOf(rows, intentId)
    ensures forall i :: 0 <= i < |RowsOf(rows, intentId)| ==> RowsOf(rows, intentId)[i] in rows
  {
    if rows != [] {
      ListingIsInsertionOrder(rows[..|rows| - 1], intentId);
    }
  }

  class AuditTraceStore {
    var rows: seq<TraceRow>

    constructor ()
      ensures rows == []
    {
      rows := [];
    }

    method Append(intentId: string, state: IntentState, atMs: int, kind: Kind, payload: Tree) returns (id: nat)
      modifies this
      ensures rows == Appended(old(rows), intentId, state, atMs, kind, payload)
      ensures id == |rows| && rows[id - 1].id == id
    {
      id := |rows| + 1;
      rows := rows + [TraceRow(id, intentId, state, atMs, kind, payload)];
    }
  }
}
