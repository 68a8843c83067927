/**
 * The x402 gateway: verify and settle each await the facilitator, so calls interleave. verify
 * inserts and answers when the facilitator resolves; settle looks its row up, then marks it.
 */
module X402Gateways {
  import opened Wrappers
  import opened Sequences
  import opened JsStrings
  import opened Digests
  import opened PaymentLedgers

  datatype PaymentRequest = PaymentRequest(auth: Authorization, asset: string, amount: string, network: string)

  datatype VerifyAnswer = VerifyThrew | Invalid | Valid(payer: Option<string>)

  datatype SettleAnswer = SettleThrew | SettleFailed | SettleSucceeded(deployHash: string)

  /** A settle call between its lookup and its update. */
  datatype PendingMark = PendingMark(auth: Authorization, rowId: string, answer: SettleAnswer)

  /** A valid verdict, with what it was given for. */
  datatype Verdict = Verdict(auth: Authorization, payer: string, asset: string)

  datatype Gateway = Gateway(
    rows: seq<PayRow>,
    verifying: seq<PaymentRequest>,
    settling: seq<PaymentRequest>,
    marking: seq<PendingMark>,
    verdicts: seq<Verdict>)

  datatype Event =
    | StartVerify(req: PaymentRequest)
    | VerifyAnswered(i: nat, answer: VerifyAnswer, id: string, traceId: string, nowMs: int)
    | StartSettle(req: PaymentRequest)
    | SettleAnswered(i: nat, settled: SettleAnswer)
    | MarkRow(i: nat)

  function RowFor(hash: JsString -> string, req: PaymentRequest, payer: string, id: string, traceId: string, nowMs: int): PayRow {
    PayRow(
      id, payer, req.asset, req.auth.nonce, Digest(hash, AuthDoc(req.auth)), req.amount, req.network,
      Verified, None, traceId, nowMs)
  }

  /** payer is the facilitator's, or else the authorization's own. */
  function PayerOf(req: PaymentRequest, answer: VerifyAnswer): string
    requires answer.Valid?
  {
    if answer.payer.Some? then answer.payer.value else req.auth.from
  }

  function AnswerVerify(hash: JsString -> string, g: Gateway, i: nat, answer: VerifyAnswer, id: string, traceId: string, nowMs: int): Gateway
    requires i < |g.verifying|
  {
    var req, g' := g.verifying[i], g.(verifying := Without(g.verifying, i));
    if !answer.Valid? then g' else
      var row := RowFor(hash, req, PayerOf(req, answer), id, traceId, nowMs);
      if Taken(g.rows, row) then g'
      else g'.(rows := g.rows + [row], verdicts := g.verdicts + [Verdict(req.auth, row.payer, req.asset)])
  }

  function AnswerSettle(hash: JsString -> string, g: Gateway, i: nat, answer: SettleAnswer): Gateway
    requires i < |g.settling|
  {
    var auth, g' := g.settling[i].auth, g.(settling := Without(g.settling, i));
    if answer.SettleThrew? then g' else
      match FindHash(g.rows, Digest(hash, AuthDoc(auth)))
      case None => g'
      case Some(rowId) => g'.(marking := g.marking + [PendingMark(auth, rowId, answer)])
  }

  function MarkedBy(rows: seq<PayRow>, m: PendingMark): seq<PayRow> {
    if m.answer.SettleSucceeded? then Marked(rows, m.rowId, Settled, Some(m.answer.deployHash))
    else Marked(rows, m.rowId, Failed, None)
  }

  function Next(hash: JsString -> string, g: Gateway, e: Event): Gateway {
    match e
    case StartVerify(req) => g.(verifying := g.verifying + [req])
    case StartSettle(req) => g.(settling := g.settling + [req])
    case VerifyAnswered(i, answer, id, traceId, nowMs) =>
      if i < |g.verifying| then AnswerVerify(hash, g, i, answer, id, traceId, nowMs) else g
    case SettleAnswered(i, answer) =>
      if i < |g.settling| then AnswerSettle(hash, g, i, answer) else g
    case MarkRow(i) =>
      if i < |g.marking| then g.(rows := MarkedBy(g.rows, g.marking[i]), marking := Without(g.marking, i)) else g
  }

  /** Requests come through their schema, and row ids are new. */
  predicate Fits(g: Gateway, e: Event) {
    match e
    case StartVerify(req) => AuthValid(req.auth)
    case StartSettle(req) => AuthValid(req.auth)
    case VerifyAnswered(_, _, id, _, _) => IdUnused(g.rows, id)
    case _ => true
  }

  predicate FitsAll(hash: JsString -> string, g: Gateway, events: seq<Event>)
    decreases |events|
  {
    events == [] || (Fits(g, events[0]) && FitsAll(hash, Next(hash, g, events[0]), events[1..]))
  }

  function Run(hash: JsString -> string, g: Gateway, events: seq<Event>): Gateway
    decreases |events|
  {
    if events == [] then g else Run(hash, Next(hash, g, events[0]), events[1..])
  }

  const IDLE: Gateway := Gateway([], [], [], [], [])

  // ---- What every interleaving keeps ----

  /** A row records its verdict. */
  predicate Records(hash: JsString -> string, row: PayRow, v: Verdict) {
    row.payloadHash == Digest(hash, AuthDoc(v.auth)) && row.nonce == v.auth.nonce && row.payer == v.payer && row.asset == v.asset
  }

  /** Rows and valid verdicts correspond one to one; a pending mark aims at the row of its own authorization. */
  predicate Sound(hash: JsString -> string, g: Gateway) {
    && Keyed(g.rows) && |g.rows| == |g.verdicts|
    && (forall k :: 0 <= k < |g.rows| ==> Records(hash, g.rows[k], g.verdicts[k]) && AuthValid(g.verdicts[k].auth))
    && (forall m :: m in g.marking ==> AuthValid(m.auth) && Aims(hash, g.rows, m))
    && (forall r :: r in g.verifying ==> AuthValid(r.auth))
    && (forall r :: r in g.settling ==> AuthValid(r.auth))
  }

  predicate Aims(hash: JsString -> string, rows: seq<PayRow>, m: PendingMark) {
    exists k :: 0 <= k < |rows| && rows[k].id == m.rowId && rows[k].payloadHash == Digest(hash, AuthDoc(m.auth))
  }

  lemma AnswerKeepsSound(hash: JsString -> string, g: Gateway, e: Event)
    requires Sound(hash, g) && Fits(g, e) && e.VerifyAnswered?
    ensures Sound(hash, Next(hash, g, e))
  {
    hide AuthValid, Digest, Clashes, Aims, Records;
    if e.i < |g.verifying| && e.answer.Valid? {
      var req := g.verifying[e.i];
      var row := RowFor(hash, req, PayerOf(req, e.answer), e.id, e.traceId, e.nowMs);
      var v := Verdict(req.auth, row.payer, req.asset);
      RowRecords(hash, req, row.payer, e.id, e.traceId, e.nowMs);
      hide RowFor, PayerOf;
      if !Taken(g.rows, row) {
        assert req in g.verifying;
        forall m | m in g.marking ensures Aims(hash, g.rows + [row], m) {
          AimsLater(hash, g.rows, row, m);
        }
      }
    }
  }

  lemma RowRecords(hash: JsString -> string, req: PaymentRequest, payer: string, id: string, traceId: string, nowMs: int)
    ensures Records(hash, RowFor(hash, req, payer, id, traceId, nowMs), Verdict(req.auth, payer, req.asset))
    ensures RowFor(hash, req, payer, id, traceId, nowMs).id == id && RowFor(hash, req, payer, id, traceId, nowMs).payer == payer
  {
    hide Digest;
  }

  lemma AimsLater(hash: JsString -> string, rows: seq<PayRow>, row: PayRow, m: PendingMark)
    requires Aims(hash, rows, m)
    ensures Aims(hash, rows + [row], m)
  {
    hide Digest;
    var k :| 0 <= k < |rows| && rows[k].id == m.rowId && rows[k].payloadHash == Digest(hash, AuthDoc(m.auth));
    assert (rows + [row])[k] == rows[k];
  }

  predicate SameKeys(a: seq<PayRow>, b: seq<PayRow>) {
    |a| == |b|
    && forall i :: 0 <= i < |a| ==>
         a[i].id == b[i].id && a[i].payer == b[i].payer && a[i].asset == b[i].asset
         && a[i].nonce == b[i].nonce && a[i].payloadHash == b[i].payloadHash
  }

  lemma MarkedKeepsKeys(rows: seq<PayRow>, m: PendingMark)
    ensures SameKeys(rows, MarkedBy(rows, m))
  {
  }

  lemma KeysKeepKeyed(a: seq<PayRow>, b: seq<PayRow>)
    requires SameKeys(a, b) && Keyed(a)
    ensures Keyed(b)
  {
    forall i, j | 0 <= i < j < |b| ensures b[i].id != b[j].id && !Clashes(b[i], b[j]) {
      assert !Clashes(a[i], a[j]);
    }
  }

  lemma KeysKeepAims(hash: JsString -> string, a: seq<PayRow>, b: seq<PayRow>, m: PendingMark)
    requires SameKeys(a, b) && Aims(hash, a, m)
    ensures Aims(hash, b, m)
  {
    hide Digest;
    var k :| 0 <= k < |a| && a[k].id == m.rowId && a[k].payloadHash == Digest(hash, AuthDoc(m.auth));
    assert b[k].id == a[k].id;
  }

  lemma MarkKeepsSound(hash: JsString -> string, g: Gateway, i: nat)
    requires Sound(hash, g) && i < |g.marking|
    ensures Sound(hash, g.(rows := MarkedBy(g.rows, g.marking[i]), marking := Without(g.marking, i)))
  {
    var rows := MarkedBy(g.rows, g.marking[i]);
    MarkedKeepsKeys(g.rows, g.marking[i]);
    hide MarkedBy, AuthValid, Digest;
    KeysKeepKeyed(g.rows, rows);
    hide Keyed;
    forall m | m in Without(g.marking, i) ensures Aims(hash, rows, m) {
      KeysKeepAims(hash, g.rows, rows, m);
    }
    hide Aims, Without;
  }

  lemma SettleKeepsSound(hash: JsString -> string, g: Gateway, i: nat, answer: SettleAnswer)
    requires Sound(hash, g) && i < |g.settling|
    ensures Sound(hash, AnswerSettle(hash, g, i, answer))
  {
    hide AuthValid, Digest, Keyed, Records;
    assert g.settling[i] in g.settling;
  }

  lemma NextKeepsSound(hash: JsString -> string, g: Gateway, e: Event)
    requires Sound(hash, g) && Fits(g, e)
    ensures Sound(hash, Next(hash, g, e))
  {
    match e
    case VerifyAnswered(_, _, _, _, _) =>
      AnswerKeepsSound(hash, g, e);
    case MarkRow(i) =>
      if i < |g.marking| { MarkKeepsSound(hash, g, i); }
      hide Sound, MarkedBy, Without;
    case SettleAnswered(i, answer) =>
      if i < |g.settling| { SettleKeepsSound(hash, g, i, answer); }
      hide Sound, AnswerSettle;
    case _ =>
      hide AuthValid, Digest, Keyed, Aims, Records;
  }

  lemma {:induction false} RunKeepsSound(hash: JsString -> string, g: Gateway, events: seq<Event>)
    requires Sound(hash, g) && FitsAll(hash, g, events)
    ensures Sound(hash, Run(hash, g, events))
    decreases |events|
  {
    if events != [] {
      NextKeepsSound(hash, g, events[0]);
      hide Sound, Next, Fits;
      RunKeepsSound(hash, Next(hash, g, events[0]), events[1..]);
    }
  }

  /** In every interleaving: no authorization and no (nonce, payer, asset) gets two valid verdicts. */
  lemma OneVerdictEach(hash: JsString -> string, events: seq<Event>, j: nat, k: nat)
    requires FitsAll(hash, IDLE, events)
    requires j < k < |Run(hash, IDLE, events).verdicts|
    ensures var v := Run(hash, IDLE, events).verdicts;
      v[j].auth != v[k].auth
      && !(v[j].auth.nonce == v[k].auth.nonce && v[j].payer == v[k].payer && v[j].asset == v[k].asset)
  {
    RunKeepsSound(hash, IDLE, events);
    var g := Run(hash, IDLE, events);
    hide AuthValid, Digest, Run, FitsAll;
    assert Records(hash, g.rows[j], g.verdicts[j]) && Records(hash, g.rows[k], g.verdicts[k]);
  }

  /** A payment that the facilitator validates is refused exactly when its authorization, or its triple, was already honoured. */
  lemma RefusedMeansReplayed(hash: JsString -> string, g: Gateway, i: nat, answer: VerifyAnswer, id: string, traceId: string, nowMs: int)
    requires Injective(hash) && Sound(hash, g) && i < |g.verifying| && answer.Valid?
    ensures var req := g.verifying[i];
      AnswerVerify(hash, g, i, answer, id, traceId, nowMs).verdicts == g.verdicts
      <==> exists v :: v in g.verdicts && (v.auth == req.auth
             || (v.auth.nonce == req.auth.nonce && v.payer == PayerOf(req, answer) && v.asset == req.asset))
  {
    var req := g.verifying[i];
    assert req in g.verifying;
    var row := RowFor(hash, req, PayerOf(req, answer), id, traceId, nowMs);
    forall k | 0 <= k < |g.rows|
      ensures Clashes(g.rows[k], row) <==> (g.verdicts[k].auth == req.auth
        || (g.verdicts[k].auth.nonce == req.auth.nonce && g.verdicts[k].payer == PayerOf(req, answer) && g.verdicts[k].asset == req.asset))
    {
      PayloadHashIdentifies(hash, g.verdicts[k].auth, req.auth);
    }
    hide AuthValid, Digest, Injective, PayerOf, Keyed;
    if Taken(g.rows, row) {
      var k :| 0 <= k < |g.rows| && Clashes(g.rows[k], row);
      assert g.verdicts[k] in g.verdicts;
    }
  }

  /** What an accepted verification inserts, field by field; anything else inserts nothing. */
  predicate RowOf(hash: JsString -> string, row: PayRow, req: PaymentRequest, answer: VerifyAnswer) {
    && row.nonce == req.auth.nonce && row.payloadHash == Digest(hash, AuthDoc(req.auth))
    && row.asset == req.asset && row.amount == req.amount && row.network == req.network
    && (answer.Valid? && (answer.payer == Some(row.payer) || (answer.payer == None && row.payer == req.auth.from)))
    && row.state.Verified? && row.settleDeployHash == None
  }

  lemma VerifyInserts(hash: JsString -> string, g: Gateway, i: nat, answer: VerifyAnswer, id: string, traceId: string, nowMs: int)
    requires i < |g.verifying|
    ensures var (req, g') := (g.verifying[i], AnswerVerify(hash, g, i, answer, id, traceId, nowMs));
      && g'.verifying == Without(g.verifying, i) && g'.settling == g.settling && g'.marking == g.marking
      && ((g'.rows == g.rows && g'.verdicts == g.verdicts)
          || exists row :: g'.rows == g.rows + [row] && RowOf(hash, row, req, answer)
               && row.id == id && row.traceId == traceId && row.createdAt == nowMs
               && g'.verdicts == g.verdicts + [Verdict(req.auth, row.payer, req.asset)])
      && (!answer.Valid? ==> g'.rows == g.rows)
  {
    hide Clashes, Digest;
  }

  /** Whatever happens later, a row keeps all it was inserted with but its state and its settlement hash. */
  predicate SameFacts(row: PayRow, row': PayRow) {
    row' == row.(state := row'.state, settleDeployHash := row'.settleDeployHash)
  }

  lemma {:induction false} RowsKeepFacts(hash: JsString -> string, g: Gateway, events: seq<Event>, k: nat)
    requires k < |g.rows|
    ensures var rows := Run(hash, g, events).rows;
      k < |rows| && SameFacts(g.rows[k], rows[k])
    decreases |events|
  {
    if events != [] {
      var g' := Next(hash, g, events[0]);
      assert k < |g'.rows| && SameFacts(g.rows[k], g'.rows[k]) by { hide RowFor, Digest, PayerOf, Clashes; }
      hide Next;
      RowsKeepFacts(hash, g', events[1..], k);
    }
  }

  /** A settle answer's effect on a row: its state, and the hash of a success. */
  predicate Settles(row: PayRow, row': PayRow, answer: SettleAnswer) {
    row' == row.(
      state := if answer.SettleSucceeded? then Settled else Failed,
      settleDeployHash := if answer.SettleSucceeded? then Some(answer.deployHash) else row.settleDeployHash)
  }

  /** Row k alone changed, and it is the only row of the mark's own authorization. */
  predicate OwnRowOnly(g: Gateway, rows: seq<PayRow>, m: PendingMark, k: nat) {
    && k < |g.rows| == |g.verdicts| == |rows|
    && g.verdicts[k].auth == m.auth && Settles(g.rows[k], rows[k], m.answer)
    && (forall j :: 0 <= j < |g.rows| && j != k ==> g.verdicts[j].auth != m.auth && rows[j] == g.rows[j])
  }

  /** settle's update changes the state of one row, the one its own authorization inserted, and no keyed field. */
  lemma SettleTouchesOwnRow(hash: JsString -> string, g: Gateway, i: nat)
    requires Injective(hash) && Sound(hash, g) && i < |g.marking|
    ensures exists k :: OwnRowOnly(g, Next(hash, g, MarkRow(i)).rows, g.marking[i], k)
  {
    var m := g.marking[i];
    var k := OwnRow(hash, g, m);
    hide AuthValid, Digest, Injective, Keyed, Clashes, Records, Aims, Sound;
    var rows := Next(hash, g, MarkRow(i)).rows;
    assert rows == MarkedBy(g.rows, m);
    hide Next;
    assert OwnRowOnly(g, rows, m, k);
  }

  /** The row a pending mark aims at is the only one of its id, and the only one of its authorization. */
  lemma OwnRow(hash: JsString -> string, g: Gateway, m: PendingMark) returns (k: nat)
    requires Injective(hash) && Sound(hash, g) && m in g.marking
    ensures k < |g.rows| == |g.verdicts| && g.rows[k].id == m.rowId && g.verdicts[k].auth == m.auth
    ensures forall j :: 0 <= j < |g.rows| && j != k ==> g.verdicts[j].auth != m.auth && g.rows[j].id != m.rowId
  {
    assert Aims(hash, g.rows, m);
    k :| 0 <= k < |g.rows| && g.rows[k].id == m.rowId && g.rows[k].payloadHash == Digest(hash, AuthDoc(m.auth));
    assert Records(hash, g.rows[k], g.verdicts[k]);
    PayloadHashIdentifies(hash, g.verdicts[k].auth, m.auth);
    hide AuthValid, Digest, Injective, Aims;
    forall j | 0 <= j < |g.rows| && j != k ensures g.verdicts[j].auth != m.auth && g.rows[j].id != m.rowId {
      assert Records(hash, g.rows[j], g.verdicts[j]);
      if j < k { assert !Clashes(g.rows[j], g.rows[k]); } else { assert !Clashes(g.rows[k], g.rows[j]); }
    }
  }

  /** A settle whose authorization was never verified finds no row and marks nothing. */
  lemma UnverifiedSettleIsIdle(hash: JsString -> string, g: Gateway, i: nat, answer: SettleAnswer)
    requires Injective(hash) && Sound(hash, g) && i < |g.settling|
    requires forall v :: v in g.verdicts ==> v.auth != g.settling[i].auth
    ensures AnswerSettle(hash, g, i, answer) == g.(settling := Without(g.settling, i))
  {
    var auth := g.settling[i].auth;
    assert g.settling[i] in g.settling;
    var found := FindHash(g.rows, Digest(hash, AuthDoc(auth)));
    if found.Some? {
      var k :| 0 <= k < |g.rows| && g.rows[k].payloadHash == Digest(hash, AuthDoc(auth));
      assert Records(hash, g.rows[k], g.verdicts[k]) && g.verdicts[k] in g.verdicts;
      PayloadHashIdentifies(hash, g.verdicts[k].auth, auth);
      assert false;
    }
  }

  // ---- The gateway object ----

  class X402Gateway {
    const hash: JsString -> string
    const ledger: PaymentLedger
    var verifying: seq<PaymentRequest>
    var settling: seq<PaymentRequest>
    var marking: seq<PendingMark>
    ghost var verdicts: seq<Verdict>

    ghost function Model(): Gateway
      reads this, ledger
    {
      Gateway(ledger.rows, verifying, settling, marking, verdicts)
    }

    constructor (hash: JsString -> string, ledger: PaymentLedger)
      ensures this.hash == hash && this.ledger == ledger && Model() == Gateway(ledger.rows, [], [], [], [])
    {
      this.hash, this.ledger := hash, ledger;
      verifying, settling, marking, verdicts := [], [], [], [];
    }

    /** verify, once the facilitator's promise settles; the result is whether the verdict is valid. */
    method ResumeVerify(i: nat, answer: VerifyAnswer, id: string, traceId: string, nowMs: int) returns (valid: bool)
      requires ledger.Valid() && i < |verifying| && IdUnused(ledger.rows, id)
      modifies this, ledger
      ensures ledger.Valid() && Model() == Next(hash, old(Model()), VerifyAnswered(i, answer, id, traceId, nowMs))
      ensures valid <==> |verdicts| == |old(verdicts)| + 1
    {
      var req := verifying[i];
      verifying := Without(verifying, i);
      if !answer.Valid? { return false; }
      var payer := PayerOf(req, answer);
      hide Digest, Clashes, Keyed, PayerOf;
      var inserted := ledger.InsertVerified(RowFor(hash, req, payer, id, traceId, nowMs));
      if !inserted { return false; }
      verdicts := verdicts + [Verdict(req.auth, payer, req.asset)];
      return true;
    }

    /** settle, once the facilitator's promise settles: find the row by the authorization's hash. */
    method ResumeSettle(i: nat, answer: SettleAnswer)
      requires ledger.Valid() && i < |settling|
      modifies this
      ensures ledger.Valid() && Model() == Next(hash, old(Model()), SettleAnswered(i, answer))
    {
      var auth := settling[i].auth;
      settling := Without(settling, i);
      if answer.SettleThrew? { return; }
      var row := FindHash(ledger.rows, Digest(hash, AuthDoc(auth)));
      if row.Some? { marking := marking + [PendingMark(auth, row.value, answer)]; }
    }

    /** settle, after its lookup: markSettled or markFailed. */
    method FinishSettle(i: nat)
      requires ledger.Valid() && i < |marking|
      modifies this, ledger
      ensures ledger.Valid() && Model() == Next(hash, old(Model()), MarkRow(i))
    {
      var m := marking[i];
      marking := Without(marking, i);
      hide Keyed;
      if m.answer.SettleSucceeded? {
        ledger.MarkSettled(m.rowId, m.answer.deployHash);
      } else {
        ledger.MarkFailed(m.rowId);
      }
      assert ledger.rows == MarkedBy(old(ledger.rows), m);
    }
  }
}
