/**
 * The router when its handlers interleave. A handler that checked the intent's state awaits a
 * request body or the chain; a handler that reserved, committed or released a row awaits the
 * ledger once more before it writes the state and the trace. Nothing is checked again after an
 * await. When intents and ledger count as coupled, and the check on the row that keeps them so.
 */
module IntentTurns {
  import opened Wrappers
  import opened Sequences
  import opened Decimal
  import opened JsonTrees
  import opened ApiTrees
  import opened SpendTable
  import opened PolicyRules
  import opened AuditTraces
  import opened IntentRouters
  import opened IntentStories
  import Calendar

  // ---- Handlers in pieces ----

  /** What a handler still has to write once the ledger has answered. */
  datatype Tail = Tail(state: IntentState, deployHash: Option<string>, nowMs: int, kind: Kind, payload: Tree)

  /** A suspended handler: past its state check, or past its ledger call. */
  datatype Waiting =
    | Marking(id: string)
    | Confirming(id: string, hash: string)
    | Rejecting(id: string)
    | Finishing(id: string, tail: Tail)

  datatype Answer = Body(upload: Upload) | FromChain(chain: Finality)

  datatype Live = Live(server: Server, waiting: seq<Waiting>)

  /** ValidateAtOnce is a validation whose ledger call nothing interrupts; create awaits nothing after it begins. */
  datatype Turn =
    | CreateAtOnce(upload: Upload, newId: string, nowMs: int)
    | ValidateAtOnce(id: string, rowId: string, nowMs: int)
    | BeginValidate(id: string, rowId: string, nowMs: int)
    | BeginMark(id: string)
    | BeginConfirm(id: string, hash: string)
    | BeginReject(id: string)
    | Resume(i: nat, answer: Answer, nowMs: int)
    | Finish(i: nat)

  /** entry.state and the rest are assigned on whatever the entry has become, and the event is appended. */
  function Write(s: Server, id: string, tail: Tail): Server {
    if id !in s.intents then s else
      var intent := s.intents[id];
      Record(
        s, id, intent.(state := tail.state, deployHash := if tail.deployHash.Some? then tail.deployHash else intent.deployHash),
        tail.nowMs, tail.kind, tail.payload)
  }

  datatype Action = Nothing | Settles(status: Status, tail: Tail)

  /** What a handler does with the answer it awaited; an answer of the other kind is not its own. */
  function ActionOf(w: Waiting, answer: Answer, nowMs: int): Action {
    match (w, answer)
    case (Marking(_), Body(upload)) =>
      if MarkAccepts(upload)
      then Settles(Status.Committed, Tail(Executed, None, nowMs, Execution, MarkedPayload(Field(upload.tree, "deployHash").value)))
      else Nothing
    case (Confirming(_, hash), FromChain(chain)) =>
      if chain.Success?
      then Settles(
        Status.Committed, Tail(Executed, Some(hash), nowMs, Execution, ConfirmedPayload(hash, chain.height, chain.hashKind)))
      else Nothing
    case (Rejecting(_), Body(upload)) =>
      if upload != Parsed(Atom(Null))
      then Settles(Status.Released, Tail(Rejected, None, nowMs, Rejection, RejectedPayload(Reason(upload))))
      else Nothing
    case _ => Nothing
  }

  predicate IsOpen(t: Table, id: string) {
    id in t && t[id].status.Reserved?
  }

  /** A reserved row is settled and the handler awaits the ledger; otherwise it writes at once. */
  function Act(s: Server, rest: seq<Waiting>, id: string, action: Action): Live {
    match action
    case Nothing => Live(s, rest)
    case Settles(status, tail) =>
      if IsOpen(s.table, id) then Live(s.(table := SettleOpen(s.table, id, status)), rest + [Finishing(id, tail)])
      else Live(Write(s, id, tail), rest)
  }

  function ValidateTail(c: Config, r: ReserveResult, nowMs: int): Tail {
    match r
    case Reserved(_) => Tail(PolicyValidated, None, nowMs, PolicyCheck, ValidatedPayload(c.policyDigest))
    case DayCapExceeded => Tail(Rejected, None, nowMs, PolicyCheck, DeniedPayload(Denial.DayCapExceeded))
    case ReservationConflict => Tail(Rejected, None, nowMs, PolicyCheck, DeniedPayload(Denial.ReservationConflict))
  }

  /** The ledger's transaction; the handler then awaits its result. */
  ghost function AwaitReserve(c: Config, l: Live, id: string, rowId: string, nowMs: int, day: string): Live
    requires id in l.server.intents && AllDigits(l.server.intents[id].body.amount) && AllDigits(c.policy.perDayCapAtomic)
  {
    var body := l.server.intents[id].body;
    var (table, r) := SpendTable.Reserve(
      l.server.table, id, rowId, ScopeOf(c, body.token, day), ValueOf(body.amount), nowMs, ValueOf(c.policy.perDayCapAtomic));
    Live(l.server.(table := table), l.waiting + [Finishing(id, ValidateTail(c, r, nowMs))])
  }

  /** validate-policy up to its await: the rules, then the ledger's transaction. */
  ghost function StartValidate(c: Config, l: Live, id: string, rowId: string, nowMs: int): Live {
    var s := l.server;
    if id !in s.intents || !s.intents[id].state.Draft? then l else
      var intent := s.intents[id];
      var denial := CheckPolicyRules(PolicyRequest(c, id, intent.body));
      if denial.Some? then l.(server := Refuse(s, id, denial.value, nowMs).0)
      else match Calendar.DayUtc(nowMs)
        case None => l
        case Some(day) => if !AllDigits(c.policy.perDayCapAtomic) then l else AwaitReserve(c, l, id, rowId, nowMs, day)
  }

  ghost function Next(c: Config, l: Live, t: Turn): Live {
    match t
    case CreateAtOnce(upload, newId, nowMs) => l.(server := CreateStep(l.server, upload, newId, nowMs).0)
    case ValidateAtOnce(id, rowId, nowMs) => l.(server := ValidateStep(c, l.server, id, rowId, nowMs).0)
    case BeginValidate(id, rowId, nowMs) => StartValidate(c, l, id, rowId, nowMs)
    case BeginMark(id) =>
      if MarkMayBegin(l.server, id) then l.(waiting := l.waiting + [Marking(id)]) else l
    case BeginConfirm(id, hash) =>
      if id in l.server.intents && IsLowerHex(hash, 64) && l.server.intents[id].state.PolicyValidated?
      then l.(waiting := l.waiting + [Confirming(id, hash)]) else l
    case BeginReject(id) =>
      if id in l.server.intents && !AlreadyTerminal(l.server.intents[id].state)
      then l.(waiting := l.waiting + [Rejecting(id)]) else l
    case Resume(i, answer, nowMs) =>
      if i < |l.waiting| && !l.waiting[i].Finishing?
      then Act(l.server, Without(l.waiting, i), l.waiting[i].id, ActionOf(l.waiting[i], answer, nowMs)) else l
    case Finish(i) =>
      if i < |l.waiting| && l.waiting[i].Finishing?
      then Live(Write(l.server, l.waiting[i].id, l.waiting[i].tail), Without(l.waiting, i)) else l
  }

  ghost function RunTurns(c: Config, l: Live, turns: seq<Turn>): Live
    decreases |turns|
  {
    if turns == [] then l else RunTurns(c, Next(c, l, turns[0]), turns[1..])
  }

  // ---- Pending writes ----

  predicate Pending(waiting: seq<Waiting>, id: string) {
    exists j :: 0 <= j < |waiting| && waiting[j].Finishing? && waiting[j].id == id
  }

  predicate PendingTo(waiting: seq<Waiting>, id: string, state: IntentState) {
    exists j :: 0 <= j < |waiting| && waiting[j].Finishing? && waiting[j].id == id && waiting[j].tail.state == state
  }

  predicate Adds(w: Waiting, id: string) {
    w.Finishing? && w.id == id
  }

  lemma PendingAppend(waiting: seq<Waiting>, w: Waiting, id: string, state: IntentState)
    ensures Pending(waiting + [w], id) <==> Pending(waiting, id) || Adds(w, id)
    ensures PendingTo(waiting + [w], id, state) <==> PendingTo(waiting, id, state) || (Adds(w, id) && w.tail.state == state)
  {
    var all := waiting + [w];
    assert all[|waiting|] == w && forall j :: 0 <= j < |waiting| ==> all[j] == waiting[j];
  }

  lemma PendingWithout(waiting: seq<Waiting>, i: nat, id: string, state: IntentState)
    requires i < |waiting|
    ensures Pending(waiting, id) <==> Pending(Without(waiting, i), id) || Adds(waiting[i], id)
    ensures PendingTo(waiting, id, state)
      <==> PendingTo(Without(waiting, i), id, state) || (Adds(waiting[i], id) && waiting[i].tail.state == state)
  {
    var rest := Without(waiting, i);
    assert forall j :: 0 <= j < i ==> rest[j] == waiting[j];
    assert forall j :: i <= j < |rest| ==> rest[j] == waiting[j + 1];
    assert forall j :: i < j < |waiting| ==> waiting[j] == rest[j - 1];
  }

  // ---- Coupling where an intent is at rest ----

  /** An intent and its ledger row agree: open while validated, committed once executed, the intent's own amount and token. */
  predicate Matches(c: Config, f: Facts) {
    && (f.state.Draft? || f.state.PolicyValidated? || f.state.Executed? || f.state.Rejected?)
    && (f.state.Draft? ==> f.entry == None)
    && (f.state.PolicyValidated? <==> Has(f.entry, Status.Reserved))
    && (f.state.Executed? ==> Has(f.entry, Status.Committed))
    && (f.executed <==> Has(f.entry, Status.Committed))
    && OwnRow(c, f)
  }

  predicate Has(entry: Option<Entry>, status: Status) {
    entry.Some? && entry.value.status == status
  }

  predicate OwnRow(c: Config, f: Facts) {
    f.entry.Some? ==>
      ParseAtomic(f.body.amount) == Some(f.entry.value.amount)
      && f.entry.value.scope == ScopeOf(c, f.body.token, f.entry.value.scope.day)
  }

  /** What one intent's coupling depends on; executed means the trace shows an execution. */
  datatype Facts = Facts(
    state: IntentState,
    body: IntentBody,
    entry: Option<Entry>,
    executed: bool,
    pending: bool,
    toExecuted: bool,
    toValidated: bool)

  ghost function FactsOf(l: Live, id: string): Facts
    requires id in l.server.intents
  {
    var intent := l.server.intents[id];
    Facts(
      intent.state, intent.body, EntryAt(l.server.table, id), WasExecuted(l.server, id), Pending(l.waiting, id),
      PendingTo(l.waiting, id, Executed), PendingTo(l.waiting, id, PolicyValidated))
  }

  /** An execution on the trace is over a committed row, always; with nothing pending the intent and its row match. */
  predicate Agrees(c: Config, f: Facts) {
    (f.executed ==> Has(f.entry, Status.Committed)) && (!f.pending ==> Matches(c, f))
  }

  ghost predicate Coupled(c: Config, l: Live) {
    forall id :: id in l.server.intents ==> Agrees(c, FactsOf(l, id))
  }

  predicate AtRest(l: Live) {
    forall j :: 0 <= j < |l.waiting| ==> !l.waiting[j].Finishing?
  }

  // ---- What every schedule keeps, coupled or not ----

  predicate Plausible(c: Config, f: Facts) {
    && (f.state.Draft? || f.state.PolicyValidated? || f.state.Executed? || f.state.Rejected?)
    && (f.state.Draft? && !f.pending ==> f.entry == None)
    && (f.state.PolicyValidated? ==> f.entry.Some?)
    && (Has(f.entry, Status.Committed) ==> f.executed || f.toExecuted)
    && (f.toExecuted ==> f.pending && Has(f.entry, Status.Committed))
    && (f.toValidated ==> f.pending && f.entry.Some?)
    && OwnRow(c, f)
  }

  predicate TailFits(s: Server, w: Waiting) {
    w.id in s.intents && (w.Marking? || w.Confirming? ==> w.id in s.table)
    && (w.Finishing? ==>
          (w.tail.state.PolicyValidated? || w.tail.state.Executed? || w.tail.state.Rejected?)
          && (w.tail.state.PolicyValidated? ==>
                w.id in s.table && Calendar.DayUtc(w.tail.nowMs) == Some(s.table[w.id].scope.day)))
  }

  /** The trace validates an intent only on its row's day, and does so for every row unless that write is pending. */
  ghost predicate DaysFit(l: Live, id: string) {
    (forall day: string :: ValidatedOn(l.server, id, day) ==> id in l.server.table && l.server.table[id].scope.day == day)
    && (id in l.server.table ==>
          ValidatedOn(l.server, id, l.server.table[id].scope.day) || PendingTo(l.waiting, id, PolicyValidated))
  }

  ghost predicate Possible(c: Config, l: Live) {
    var s := l.server;
    && UniqueIds(s.table) && WithinCap(s.table, CapOf(c)) && s.table.Keys <= s.intents.Keys
    && (forall i :: 0 <= i < |s.trace| ==> s.trace[i].intentId in s.intents)
    && (forall j :: 0 <= j < |l.waiting| ==> TailFits(s, l.waiting[j]))
    && (forall id :: id in s.intents ==> Plausible(c, FactsOf(l, id)))
    && (forall id :: DaysFit(l, id))
  }

  // ---- The check the handlers leave out ----

  datatype Effect = NoWrite | Writes(id: string, state: IntentState, others: seq<Waiting>)

  /** The state a turn writes after an await, and the handlers then still suspended. */
  function EffectOf(l: Live, t: Turn): Effect {
    match t
    case Resume(i, answer, nowMs) =>
      if i < |l.waiting| && !l.waiting[i].Finishing? then
        var w, action := l.waiting[i], ActionOf(l.waiting[i], answer, nowMs);
        if action.Settles? && !IsOpen(l.server.table, w.id) then Writes(w.id, action.tail.state, Without(l.waiting, i)) else NoWrite
      else NoWrite
    case Finish(i) =>
      if i < |l.waiting| && l.waiting[i].Finishing?
      then Writes(l.waiting[i].id, l.waiting[i].tail.state, Without(l.waiting, i)) else NoWrite
    case _ => NoWrite
  }

  /**
   * The row, looked up before the write, allows it: an execution only over a committed row; and
   * unless another write of the intent is pending, a validation only over a reserved row and a
   * rejection only over one that is not.
   */
  predicate RowAllows(entry: Option<Entry>, state: IntentState, last: bool) {
    && (state.Executed? ==> Has(entry, Status.Committed))
    && (last && state.PolicyValidated? ==> Has(entry, Status.Reserved))
    && (last && state.Rejected? ==> !Has(entry, Status.Reserved))
  }

  predicate Checks(l: Live, t: Turn) {
    var e := EffectOf(l, t);
    e.Writes? ==> RowAllows(EntryAt(l.server.table, e.id), e.state, !Pending(e.others, e.id))
  }
}
