/** The payment ledger: one row per verified payment, under two UNIQUE constraints. */
module PaymentLedgers {
  import opened Wrappers

  datatype PayState = Verified | Settled | Failed

  datatype PayRow = PayRow(
    id: string,
    payer: string,
    asset: string,
    nonce: string,
    payloadHash: string,
    amount: string,
    network: string,
    state: PayState,
    settleDeployHash: Option<string>,
    traceId: string,
    createdAt: int)

  /** UNIQUE (nonce, payer, asset) and UNIQUE (payload_hash). */
  predicate Clashes(a: PayRow, b: PayRow) {
    (a.nonce == b.nonce && a.payer == b.payer && a.asset == b.asset) || a.payloadHash == b.payloadHash
  }

  predicate Taken(rows: seq<PayRow>, row: PayRow) {
    exists i :: 0 <= i < |rows| && Clashes(rows[i], row)
  }

  predicate IdUnused(rows: seq<PayRow>, id: string) {
    forall i :: 0 <= i < |rows| ==> rows[i].id != id
  }

  /** What the constraints keep of any table. */
  predicate Keyed(rows: seq<PayRow>) {
    forall i, j :: 0 <= i < j < |rows| ==> rows[i].id != rows[j].id && !Clashes(rows[i], rows[j])
  }

  /** UPDATE ... WHERE id = ...; markFailed leaves the deploy hash as it is. */
  function Marked(rows: seq<PayRow>, id: string, state: PayState, deployHash: Option<string>): (r: seq<PayRow>)
    ensures |r| == |rows|
  {
    seq(|rows|, i requires 0 <= i < |rows| =>
      if rows[i].id == id
      then rows[i].(state := state, settleDeployHash := if deployHash.Some? then deployHash else rows[i].settleDeployHash)
      else rows[i])
  }

  /** SELECT ... WHERE payload_hash = ... LIMIT 1. */
  function FindHash(rows: seq<PayRow>, payloadHash: string): (r: Option<string>)
    ensures r.Some? ==> exists i :: 0 <= i < |rows| && rows[i].payloadHash == payloadHash && rows[i].id == r.value
    ensures r == None ==> forall i :: 0 <= i < |rows| ==> rows[i].payloadHash != payloadHash
  {
    if rows == [] then None
    else if rows[0].payloadHash == payloadHash then Some(rows[0].id)
    else
      var rest := FindHash(rows[1..], payloadHash);
      assert forall i :: 0 <= i < |rows| - 1 ==> rows[1..][i] == rows[i + 1];
      rest
  }

  class PaymentLedger {
    var rows: seq<PayRow>

    predicate Valid()
      reads this
    {
      Keyed(rows)
    }

    constructor ()
      ensures Valid() && rows == []
    {
      rows := [];
    }

    /** false is the caught UNIQUE violation; the id is a new UUID. */
    method InsertVerified(row: PayRow) returns (ok: bool)
      requires Valid() && row.state.Verified? && IdUnused(rows, row.id)
      modifies this
      ensures Valid() && ok == !Taken(old(rows), row)
      ensures rows == if ok then old(rows) + [row] else old(rows)
    {
      ok := true;
      for i := 0 to |rows|
        invariant ok <==> forall j :: 0 <= j < i ==> !Clashes(rows[j], row)
        invariant rows == old(rows)
      {
        if Clashes(rows[i], row) { ok := false; }
      }
      if ok { rows := rows + [row]; }
    }

    method MarkSettled(id: string, deployHash: string)
      requires Valid()
      modifies this
      ensures Valid() && |rows| == |old(rows)|
      ensures forall i :: 0 <= i < |rows| && rows[i].id == id ==>
        rows[i] == old(rows)[i].(state := Settled, settleDeployHash := Some(deployHash))
      ensures forall i :: 0 <= i < |rows| && rows[i].id != id ==> rows[i] == old(rows)[i]
    {
      rows := Marked(rows, id, Settled, Some(deployHash));
    }

    method MarkFailed(id: string)
      requires Valid()
      modifies this
      ensures Valid() && |rows| == |old(rows)|
      ensures forall i :: 0 <= i < |rows| && rows[i].id == id ==> rows[i] == old(rows)[i].(state := Failed)
      ensures forall i :: 0 <= i < |rows| && rows[i].id != id ==> rows[i] == old(rows)[i]
    {
      rows := Marked(rows, id, Failed, None);
    }
  }
}
