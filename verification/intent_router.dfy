/**
 * The intent router: create, validate-policy, mark-executed, confirm-onchain and reject, each
 * one atomic step over the intent map, the spend ledger and the audit trace.
 */
module IntentRouters {
  import opened Wrappers
  import opened Decimal
  import opened JsonTrees
  import opened ApiTrees
  import opened SpendTable
  import opened SpendLedgerRows
  import opened PolicyRules
  import opened AuditTraces
  import opened HashKinds
  import Calendar

  datatype IntentBody = IntentBody(agent: string, receiver: string, token: string, contract: string, network: string, amount: string)

  datatype Intent = Intent(state: IntentState, body: IntentBody, createdAtMs: int, updatedAtMs: int, deployHash: Option<string>)

  datatype Config = Config(policy: SignerPolicy, policyDigest: string)

  datatype Server = Server(intents: map<string, Intent>, table: Table, trace: seq<TraceRow>)

  datatype Upload = Malformed | Parsed(tree: Tree)

  /** What awaitDeployFinalized comes back with: a throw, a revert, or a finalized success. */
  datatype Finality = Unfinalized | RevertedOnChain | Success(height: string, hashKind: Option<HashKind>)

  /** Minted intent ids and ledger row ids come with the request; a run offers fresh ones. */
  datatype Request =
    | Create(upload: Upload, newId: string)
    | ValidatePolicy(id: string, rowId: string)
    | MarkExecuted(id: string, upload: Upload)
    | ConfirmOnchain(id: string, upload: Upload, chain: Finality)
    | Reject(id: string, upload: Upload)

  datatype Event = Event(nowMs: int, request: Request)

  datatype Reply =
    | Moved(id: string, state: IntentState)
    | Denied(id: string, code: Denial)
    | Echoed(id: string, deployHash: string)
    | Failed(status: int)

  /** The placeholder under which the router reserves and the vault projection reads. */
  const SIGNER_PK_PLACEHOLDER: string := "01" + ZEROS

  const ZEROS: string := "0000000000000000000000000000000000000000000000000000000000000000"

  // ---- Reading request bodies ----

  function Lookup(members: seq<TreeMember>, key: string): Option<Tree> {
    if members == [] then None
    else if members[0].key == key then Some(members[0].value)
    else Lookup(members[1..], key)
  }

  /** Property access on a parsed body; on null it throws instead. */
  function Field(t: Tree, key: string): Option<Tree> {
    if t.Obj? then Lookup(t.members, key) else None
  }

  function Text(t: Option<Tree>): Option<string> {
    match t
    case Some(Atom(Str(s))) => Some(s)
    case _ => None
  }

  function Word(s: string): Tree {
    Atom(Str(s))
  }

  /** CreateBody.safeParse: six string fields; other keys are stripped. */
  function ParseBody(t: Tree): Option<IntentBody> {
    var agent, receiver, token := Text(Field(t, "agent")), Text(Field(t, "receiver")), Text(Field(t, "token"));
    var contract, network, amount := Text(Field(t, "contract")), Text(Field(t, "network")), Text(Field(t, "amount"));
    if agent == None || receiver == None || token == None || contract == None || network == None || amount == None then None
    else Some(IntentBody(agent.value, receiver.value, token.value, contract.value, network.value, amount.value))
  }

  function BodyTree(b: IntentBody): Tree {
    Obj([
      Member("agent", Word(b.agent)), Member("receiver", Word(b.receiver)), Member("token", Word(b.token)),
      Member("contract", Word(b.contract)), Member("network", Word(b.network)), Member("amount", Word(b.amount))])
  }

  /**
   * /^[0-9a-f]{64}$/.test(v) converts v to a string first. An array of one becomes its element's
   * text; a longer array holds a comma, and no number, boolean or object prints as 64 hex digits.
   */
  predicate PassesHashTest(v: Tree) {
    match v
    case Atom(Str(s)) => IsLowerHex(s, 64)
    case Arr(items) => |items| == 1 && PassesHashTest(items[0])
    case _ => false
  }

  /** A value that has no text: an own toString that is not a function makes the conversion throw. */
  predicate Unprintable(v: Tree) {
    match v
    case Atom(_) => false
    case Arr(items) => exists i :: 0 <= i < |items| && Unprintable(items[i])
    case Obj(_) => Field(v, "toString").Some?
  }

  // ---- The steps ----

  function PolicyRequest(c: Config, id: string, body: IntentBody): SignRequest {
    SignRequest(
      c.policy, id, id, c.policy.signerRole, SIGNER_PK_PLACEHOLDER,
      body.contract, body.receiver, body.token, body.amount, body.network)
  }

  function ScopeOf(c: Config, token: string, day: string): Scope {
    Scope(c.policy.signerRole, SIGNER_PK_PLACEHOLDER, token, day)
  }

  function DenialCode(d: Denial): string {
    match d
    case SignerRoleMismatch => "signer_role_mismatch"
    case TraceIdMissing => "trace_id_missing"
    case ChainNotAllowed => "chain_not_allowed"
    case PackageNotAllowed => "package_not_allowed"
    case TokenNotAllowed => "token_not_allowed"
    case ReceiverNotAllowed => "receiver_not_allowed"
    case AmountMalformed => "amount_malformed"
    case AmountAboveSingleCap => "amount_above_single_cap"
    case DayCapExceeded => "day_cap_exceeded"
    case ReservationConflict => "reservation_conflict"
    case SignerFailed => "signer_failed"
  }

  function CreatedPayload(b: IntentBody): Tree {
    Obj([Member("body", BodyTree(b))])
  }

  function DeniedPayload(d: Denial): Tree {
    Obj([Member("allowed", Atom(Bool(false))), Member("code", Word(DenialCode(d)))])
  }

  function ValidatedPayload(policyDigest: string): Tree {
    Obj([Member("allowed", Atom(Bool(true))), Member("policyDigest", Word(policyDigest))])
  }

  function MarkedPayload(deployHash: Tree): Tree {
    Obj([Member("deployHash", deployHash)])
  }

  function KindMembers(hashKind: Option<HashKind>): seq<TreeMember> {
    match hashKind
    case None => []
    case Some(DeployKind) => [Member("hashKind", Word("deploy"))]
    case Some(TransactionKind) => [Member("hashKind", Word("transaction"))]
  }

  function ConfirmedPayload(deployHash: string, height: string, hashKind: Option<HashKind>): Tree {
    Obj(
      [Member("deployHash", Word(deployHash)), Member("signerRole", Word("user_cspr_click")),
       Member("approval", Word("human_cosign")), Member("finalizedHeight", Atom(Num(height)))]
      + KindMembers(hashKind))
  }

  function RejectedPayload(reason: Tree): Tree {
    Obj([Member("reason", reason)])
  }

  /** Store the intent under its new state and append the event. */
  function Record(s: Server, id: string, intent: Intent, nowMs: int, kind: Kind, payload: Tree): Server {
    s.(intents := s.intents[id := intent.(updatedAtMs := nowMs)],
       trace := Appended(s.trace, id, intent.state, nowMs, kind, payload))
  }

  /** The row an intent still holds open is settled; any other row stays as it is. */
  function SettleOpen(t: Table, id: string, status: Status): Table {
    if id in t && t[id].status.Reserved? then Settle(t, t[id].id, status) else t
  }

  function CreateStep(s: Server, upload: Upload, newId: string, nowMs: int): (Server, Reply) {
    if upload.Malformed? then (s, Failed(400)) else
      match ParseBody(upload.tree)
      case None => (s, Failed(400))
      case Some(body) =>
        (Record(s, newId, Intent(Draft, body, nowMs, nowMs, None), nowMs, Creation, CreatedPayload(body)), Moved(newId, Draft))
  }

  function Refuse(s: Server, id: string, denial: Denial, nowMs: int): (Server, Reply)
    requires id in s.intents
  {
    (Record(s, id, s.intents[id].(state := Rejected), nowMs, PolicyCheck, DeniedPayload(denial)), Denied(id, denial))
  }

  ghost function ValidateStep(c: Config, s: Server, id: string, rowId: string, nowMs: int): (Server, Reply) {
    if id !in s.intents then (s, Failed(404))
    else if !s.intents[id].state.Draft? then (s, Failed(409))
    else
      var intent := s.intents[id];
      var denial := CheckPolicyRules(PolicyRequest(c, id, intent.body));
      if denial.Some? then Refuse(s, id, denial.value, nowMs)
      else match Calendar.DayUtc(nowMs)
        case None => (s, Failed(500))
        case Some(day) =>
          if !AllDigits(c.policy.perDayCapAtomic) then (s, Failed(500)) else
            var (table, r) := SpendTable.Reserve(
              s.table, id, rowId, ScopeOf(c, intent.body.token, day), ValueOf(intent.body.amount), nowMs,
              ValueOf(c.policy.perDayCapAtomic));
            match r
            case DayCapExceeded => Refuse(s, id, Denial.DayCapExceeded, nowMs)
            case ReservationConflict => Refuse(s, id, Denial.ReservationConflict, nowMs)
            case Reserved(_) =>
              (Record(s.(table := table), id, intent.(state := PolicyValidated), nowMs, PolicyCheck, ValidatedPayload(c.policyDigest)),
               Moved(id, PolicyValidated))
  }

  /** The body that mark-executed acts on. */
  predicate MarkAccepts(upload: Upload) {
    upload.Parsed? && upload.tree != Atom(Null)
    && Field(upload.tree, "deployHash").Some?
    && !Unprintable(Field(upload.tree, "deployHash").value) && PassesHashTest(Field(upload.tree, "deployHash").value)
  }

  /** mark-executed once its body is read; the state is not looked at again. */
  function ResumeMark(s: Server, id: string, upload: Upload, nowMs: int): (Server, Reply)
    requires id in s.intents
  {
    if upload.Malformed? then (s, Failed(400))
    else if upload.tree == Atom(Null) then (s, Failed(500))
    else match Field(upload.tree, "deployHash")
      case None => (s, Failed(400))
      case Some(hash) =>
        if Unprintable(hash) then (s, Failed(500))
        else if !PassesHashTest(hash) then (s, Failed(400))
        else
          (Record(s.(table := SettleOpen(s.table, id, Status.Committed)), id, s.intents[id].(state := Executed), nowMs,
             Execution, MarkedPayload(hash)),
           Moved(id, Executed))
  }

  predicate MarkMayBegin(s: Server, id: string) {
    id in s.intents && (s.intents[id].state.PolicyValidated? || s.intents[id].state.AcceptedByNode?)
  }

  function MarkStep(s: Server, id: string, upload: Upload, nowMs: int): (Server, Reply) {
    if id !in s.intents then (s, Failed(404))
    else if !MarkMayBegin(s, id) then (s, Failed(409))
    else ResumeMark(s, id, upload, nowMs)
  }

  /** What confirm-onchain does once the chain has answered; it does not look at the state again. */
  function ResumeConfirm(s: Server, id: string, hash: string, chain: Finality, nowMs: int): Server
    requires id in s.intents && chain.Success?
  {
    Record(
      s.(table := SettleOpen(s.table, id, Status.Committed)), id,
      s.intents[id].(state := Executed, deployHash := Some(hash)), nowMs,
      Execution, ConfirmedPayload(hash, chain.height, chain.hashKind))
  }

  function ConfirmStep(s: Server, id: string, upload: Upload, chain: Finality, nowMs: int): (Server, Reply) {
    if id !in s.intents then (s, Failed(404))
    else if upload.Malformed? then (s, Failed(400))
    else if upload.tree == Atom(Null) then (s, Failed(500))
    else match Text(Field(upload.tree, "deployHash"))
      case None => (s, Failed(400))
      case Some(hash) =>
        var intent := s.intents[id];
        if !IsLowerHex(hash, 64) then (s, Failed(400))
        else if intent.state.Executed? then
          (s, Echoed(id, if intent.deployHash.Some? then intent.deployHash.value else hash))
        else if !intent.state.PolicyValidated? then (s, Failed(409))
        else if !chain.Success? then (s, Failed(422))
        else (ResumeConfirm(s, id, hash, chain, nowMs), Moved(id, Executed))
  }

  /** body.reason ?? 'rejected'. */
  function Reason(upload: Upload): Tree {
    if upload.Malformed? then Word("rejected") else
      match Field(upload.tree, "reason")
      case None => Word("rejected")
      case Some(reason) => if reason == Atom(Null) then Word("rejected") else reason
  }

  predicate AlreadyTerminal(state: IntentState) {
    state.Finalized? || state.ExecutionFailed? || state.Rejected? || state.Timeout?
  }

  /** reject once its body is read. */
  function ResumeReject(s: Server, id: string, upload: Upload, nowMs: int): (Server, Reply)
    requires id in s.intents
  {
    if upload == Parsed(Atom(Null)) then (s, Failed(500))
    else
      (Record(s.(table := SettleOpen(s.table, id, Status.Released)), id, s.intents[id].(state := Rejected), nowMs,
         Rejection, RejectedPayload(Reason(upload))),
       Moved(id, Rejected))
  }

  function RejectStep(s: Server, id: string, upload: Upload, nowMs: int): (Server, Reply) {
    if id !in s.intents then (s, Failed(404))
    else if AlreadyTerminal(s.intents[id].state) then (s, Failed(409))
    else ResumeReject(s, id, upload, nowMs)
  }

  ghost function Step(c: Config, s: Server, e: Event): (Server, Reply) {
    match e.request
    case Create(upload, newId) => CreateStep(s, upload, newId, e.nowMs)
    case ValidatePolicy(id, rowId) => ValidateStep(c, s, id, rowId, e.nowMs)
    case MarkExecuted(id, upload) => MarkStep(s, id, upload, e.nowMs)
    case ConfirmOnchain(id, upload, chain) => ConfirmStep(s, id, upload, chain, e.nowMs)
    case Reject(id, upload) => RejectStep(s, id, upload, e.nowMs)
  }

  // ---- The router object ----

  class IntentRouter {
    const config: Config
    const ledger: SpendLedger
    const audit: AuditTraceStore
    var intents: map<string, Intent>

    ghost predicate Valid()
      reads this, ledger
    {
      ledger.Valid() && ledger.Clean()
    }

    function Model(): Server
      reads this, ledger, audit
    {
      Server(intents, ledger.Contents(), audit.rows)
    }

    constructor (config: Config, ledger: SpendLedger, audit: AuditTraceStore)
      requires ledger.Valid() && ledger.Clean()
      ensures Valid() && this.config == config && this.ledger == ledger && this.audit == audit
      ensures Model() == Server(map[], ledger.Contents(), audit.rows)
    {
      this.config, this.ledger, this.audit, intents := config, ledger, audit, map[];
    }

    method PostIntent(upload: Upload, newId: string, nowMs: int) returns (r: Reply)
      requires Valid()
      modifies this, audit
      ensures Valid() && (Model(), r) == Step(config, old(Model()), Event(nowMs, Create(upload, newId)))
    {
      if upload.Malformed? { return Failed(400); }
      var body := ParseBody(upload.tree);
      if body == None { return Failed(400); }
      hide ParseBody, CreatedPayload;
      intents := intents[newId := Intent(Draft, body.value, nowMs, nowMs, None)];
      var _ := audit.Append(newId, Draft, nowMs, Creation, CreatedPayload(body.value));
      return Moved(newId, Draft);
    }

    /** The ledger's findByIntentId, then commit or release while the row is still reserved. */
    method SettleReservation(id: string, commit: bool, nowMs: int)
      requires Valid()
      modifies ledger
      ensures Valid() && ledger.Contents() ==
        SettleOpen(old(ledger.Contents()), id, if commit then Status.Committed else Status.Released)
    {
      var reservation := ledger.FindByIntentId(id);
      if reservation.Some? && reservation.value.status.Reserved? {
        assert ledger.Contents()[id].id == reservation.value.id;
        if commit {
          ledger.Commit(reservation.value.id, nowMs);
        } else {
          ledger.Release(reservation.value.id, nowMs);
        }
      }
    }

    /** entry.state and entry.updatedAtMs are assigned, then the event is appended. */
    method Transition(id: string, intent: Intent, nowMs: int, kind: Kind, payload: Tree)
      requires Valid()
      modifies this, audit
      ensures Valid() && Model() == Record(old(Model()), id, intent, nowMs, kind, payload)
    {
      intents := intents[id := intent.(updatedAtMs := nowMs)];
      var _ := audit.Append(id, intent.state, nowMs, kind, payload);
    }

    method PostValidatePolicy(id: string, rowId: string, nowMs: int) returns (r: Reply)
      requires Valid() && IdFresh(ledger.Contents(), rowId)
      modifies this, ledger, audit
      ensures Valid() && (Model(), r) == Step(config, old(Model()), Event(nowMs, ValidatePolicy(id, rowId)))
    {
      if id !in intents { return Failed(404); }
      var intent := intents[id];
      if !intent.state.Draft? { return Failed(409); }
      var denial := CheckPolicyRules(PolicyRequest(config, id, intent.body));
      if denial.Some? {
        hide CheckPolicyRules;
        Transition(id, intent.(state := Rejected), nowMs, PolicyCheck, DeniedPayload(denial.value));
        return Denied(id, denial.value);
      }
      assert AllDigits(intent.body.amount);
      hide AllDigits, ValueOf, Used, CheckPolicyRules, DeniedPayload, ValidatedPayload, DenialCode;
      var day := Calendar.DayUtc(nowMs);
      if day == None { return Failed(500); }
      var reserved := ledger.Reserve(
        Reservation(ScopeOf(config, intent.body.token, day.value), intent.body.amount, id, id),
        config.policy.perDayCapAtomic, rowId, nowMs);
      match reserved {
        case Threw =>
          return Failed(500);
        case Returned(DayCapExceeded) =>
          Transition(id, intent.(state := Rejected), nowMs, PolicyCheck, DeniedPayload(Denial.DayCapExceeded));
          return Denied(id, Denial.DayCapExceeded);
        case Returned(ReservationConflict) =>
          Transition(id, intent.(state := Rejected), nowMs, PolicyCheck, DeniedPayload(Denial.ReservationConflict));
          return Denied(id, Denial.ReservationConflict);
        case Returned(Reserved(_)) =>
          Transition(id, intent.(state := PolicyValidated), nowMs, PolicyCheck, ValidatedPayload(config.policyDigest));
          return Moved(id, PolicyValidated);
      }
    }

    method PostMarkExecuted(id: string, upload: Upload, nowMs: int) returns (r: Reply)
      requires Valid()
      modifies this, ledger, audit
      ensures Valid() && (Model(), r) == Step(config, old(Model()), Event(nowMs, MarkExecuted(id, upload)))
    {
      if id !in intents { return Failed(404); }
      var intent := intents[id];
      if !intent.state.PolicyValidated? && !intent.state.AcceptedByNode? { return Failed(409); }
      if upload.Malformed? { return Failed(400); }
      if upload.tree == Atom(Null) { return Failed(500); }
      var hash := Field(upload.tree, "deployHash");
      if hash == None { return Failed(400); }
      if Unprintable(hash.value) { return Failed(500); }
      if !PassesHashTest(hash.value) { return Failed(400); }
      hide Field, PassesHashTest, Unprintable;
      SettleReservation(id, true, nowMs);
      Transition(id, intent.(state := Executed), nowMs, Execution, MarkedPayload(hash.value));
      return Moved(id, Executed);
    }

    method PostConfirmOnchain(id: string, upload: Upload, chain: Finality, nowMs: int) returns (r: Reply)
      requires Valid()
      modifies this, ledger, audit
      ensures Valid() && (Model(), r) == Step(config, old(Model()), Event(nowMs, ConfirmOnchain(id, upload, chain)))
    {
      if id !in intents { return Failed(404); }
      var intent := intents[id];
      if upload.Malformed? { return Failed(400); }
      if upload.tree == Atom(Null) { return Failed(500); }
      var hash := Text(Field(upload.tree, "deployHash"));
      if hash == None || !IsLowerHex(hash.value, 64) { return Failed(400); }
      if intent.state.Executed? {
        return Echoed(id, if intent.deployHash.Some? then intent.deployHash.value else hash.value);
      }
      if !intent.state.PolicyValidated? { return Failed(409); }
      if !chain.Success? { return Failed(422); }
      hide Field, Text, IsLowerHex, ConfirmedPayload;
      SettleReservation(id, true, nowMs);
      Transition(
        id, intent.(state := Executed, deployHash := Some(hash.value)), nowMs,
        Execution, ConfirmedPayload(hash.value, chain.height, chain.hashKind));
      return Moved(id, Executed);
    }

    method PostReject(id: string, upload: Upload, nowMs: int) returns (r: Reply)
      requires Valid()
      modifies this, ledger, audit
      ensures Valid() && (Model(), r) == Step(config, old(Model()), Event(nowMs, Reject(id, upload)))
    {
      if id !in intents { return Failed(404); }
      var intent := intents[id];
      if AlreadyTerminal(intent.state) { return Failed(409); }
      if upload == Parsed(Atom(Null)) { return Failed(500); }
      var reason := Reason(upload);
      hide Reason;
      SettleReservation(id, false, nowMs);
      Transition(id, intent.(state := Rejected), nowMs, Rejection, RejectedPayload(reason));
      return Moved(id, Rejected);
    }
  }
}
