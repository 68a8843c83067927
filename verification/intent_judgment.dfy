/**
 * What each request to the router does to an intent, said of the intent's own body and of the
 * policy: exactly when it is validated, under which code it is refused, and which moves there are.
 */
module IntentJudgments {
  import opened Wrappers
  import opened Decimal
  import opened JsonTrees
  import opened ApiTrees
  import opened SpendTable
  import opened PolicyRules
  import opened AuditTraces
  import opened IntentRouters
  import opened IntentStories
  import Calendar

  // ---- Creating ----

  /** The body that is stored: the six fields of the request, each a string. */
  predicate Carries(t: Tree, b: IntentBody) {
    && Text(Field(t, "agent")) == Some(b.agent) && Text(Field(t, "receiver")) == Some(b.receiver)
    && Text(Field(t, "token")) == Some(b.token) && Text(Field(t, "contract")) == Some(b.contract)
    && Text(Field(t, "network")) == Some(b.network) && Text(Field(t, "amount")) == Some(b.amount)
  }

  lemma ParseBodyMeans(t: Tree, b: IntentBody)
    ensures ParseBody(t) == Some(b) <==> Carries(t, b)
  {
  }

  /** A create request is stored as a draft of exactly the body it carries, or refused when it carries none. */
  lemma CreateAnswers(s: Server, upload: Upload, newId: string, nowMs: int)
    ensures var (s', r) := CreateStep(s, upload, newId, nowMs);
      && (r == Moved(newId, Draft) <==> upload.Parsed? && exists b :: Carries(upload.tree, b))
      && (r == Moved(newId, Draft) ==> forall b :: Carries(upload.tree, b) ==>
            s'.intents == s.intents[newId := Intent(Draft, b, nowMs, nowMs, None)] && s'.table == s.table)
      && (r != Moved(newId, Draft) ==> r == Failed(400) && s' == s)
  {
    hide Field, Text, CreatedPayload;
    if upload.Parsed? && ParseBody(upload.tree).Some? {
      ParseBodyMeans(upload.tree, ParseBody(upload.tree).value);
    }
    if upload.Parsed? && exists b :: Carries(upload.tree, b) {
      var b :| Carries(upload.tree, b);
      ParseBodyMeans(upload.tree, b);
    }
  }

  /** The body goes into the trace as the request it came from. */
  lemma BodyTreeCarries(b: IntentBody)
    ensures forall other :: Carries(BodyTree(b), other) <==> other == b
  {
    var ms := BodyTree(b).members;
    LookupAt(ms, 0);
    LookupAt(ms, 1);
    LookupAt(ms, 2);
    LookupAt(ms, 3);
    LookupAt(ms, 4);
    LookupAt(ms, 5);
    hide Lookup;
  }

  lemma {:induction false} LookupAt(ms: seq<TreeMember>, i: nat)
    requires i < |ms| && forall j :: 0 <= j < i ==> ms[j].key != ms[i].key
    ensures Lookup(ms, ms[i].key) == Some(ms[i].value)
  {
    if i > 0 { LookupAt(ms[1..], i - 1); }
  }

  // ---- Validating ----

  /** The rules of the policy, each about the field it names. */
  predicate TraceRule(p: SignerPolicy, id: string) { p.requireTraceId ==> id != "" }

  predicate ChainRule(p: SignerPolicy, b: IntentBody) { b.network in p.allowedChainIds }

  predicate PackageRule(p: SignerPolicy, b: IntentBody) { b.contract in p.allowedContractPackages }

  predicate TokenRule(p: SignerPolicy, b: IntentBody) { b.token in p.allowedTokens }

  predicate ReceiverRule(p: SignerPolicy, b: IntentBody) { p.receiverPolicy == Allowlist && b.receiver in p.allowedReceivers }

  predicate DigitsRule(p: SignerPolicy, b: IntentBody) { AllDigits(b.amount) && AllDigits(p.maxSinglePaymentAtomic) }

  predicate SingleRule(p: SignerPolicy, b: IntentBody) {
    DigitsRule(p, b) && ValueOf(b.amount) <= ValueOf(p.maxSinglePaymentAtomic)
  }

  predicate Meets(p: SignerPolicy, id: string, b: IntentBody) {
    TraceRule(p, id) && ChainRule(p, b) && PackageRule(p, b) && TokenRule(p, b) && ReceiverRule(p, b) && SingleRule(p, b)
  }

  /** The cap has room for the amount on the day of the clock, under the token of the body. */
  ghost predicate Fits(c: Config, s: Server, b: IntentBody, day: string)
    requires AllDigits(b.amount)
  {
    Used(s.table, Scope(c.policy.signerRole, SIGNER_PK_PLACEHOLDER, b.token, day)) + ValueOf(b.amount) <= CapOf(c)
  }

  /** The clock has a day string and the cap is a number; otherwise the handler throws. */
  predicate CapReadable(c: Config, nowMs: int) {
    Calendar.DayUtc(nowMs).Some? && AllDigits(c.policy.perDayCapAtomic)
  }

  /** Each answer to validate-policy on a draft: the first rule its body breaks, every earlier one holding. */
  lemma ValidateAnswers(c: Config, s: Server, id: string, rowId: string, nowMs: int)
    requires id in s.intents && s.intents[id].state.Draft?
    ensures var (p, b, r) := (c.policy, s.intents[id].body, ValidateStep(c, s, id, rowId, nowMs).1);
      var chain := TraceRule(p, id) && ChainRule(p, b);
      var token := chain && PackageRule(p, b) && TokenRule(p, b);
      var receiver := token && ReceiverRule(p, b);
      var judged := Meets(p, id, b) && CapReadable(c, nowMs);
      && (r == Denied(id, TraceIdMissing) <==> !TraceRule(p, id))
      && (r == Denied(id, ChainNotAllowed) <==> TraceRule(p, id) && !ChainRule(p, b))
      && (r == Denied(id, PackageNotAllowed) <==> chain && !PackageRule(p, b))
      && (r == Denied(id, TokenNotAllowed) <==> chain && PackageRule(p, b) && !TokenRule(p, b))
      && (r == Denied(id, ReceiverNotAllowed) <==> token && !ReceiverRule(p, b))
      && (r == Denied(id, AmountMalformed) <==> receiver && !DigitsRule(p, b))
      && (r == Denied(id, AmountAboveSingleCap) <==> receiver && DigitsRule(p, b) && !SingleRule(p, b))
      && (r == Failed(500) <==> Meets(p, id, b) && !CapReadable(c, nowMs))
      && (r == Denied(id, Denial.DayCapExceeded) <==> judged && !Fits(c, s, b, Calendar.DayUtc(nowMs).value))
      && (r == Denied(id, Denial.ReservationConflict)
          <==> judged && Fits(c, s, b, Calendar.DayUtc(nowMs).value) && id in s.table)
      && (r == Moved(id, PolicyValidated) <==> judged && Fits(c, s, b, Calendar.DayUtc(nowMs).value) && id !in s.table)
  {
    hide AllDigits, ValueOf, Used, DeniedPayload, ValidatedPayload, Record, CapOf;
    hide Calendar.DayUtc;
    CapIsValue(c);
  }

  lemma CapIsValue(c: Config)
    ensures AllDigits(c.policy.perDayCapAtomic) ==> CapOf(c) == ValueOf(c.policy.perDayCapAtomic)
  {
  }

  /** What the answer leaves behind: the intent's new state over its own body, and its own row when it is validated. */
  lemma ValidateLeaves(c: Config, s: Server, id: string, rowId: string, nowMs: int)
    requires id in s.intents && s.intents[id].state.Draft?
    ensures var (s', r) := ValidateStep(c, s, id, rowId, nowMs);
      var intent := s.intents[id];
      && (r == Moved(id, PolicyValidated) ==>
            s'.intents == s.intents[id := intent.(state := PolicyValidated, updatedAtMs := nowMs)]
            && AllDigits(intent.body.amount) && Calendar.DayUtc(nowMs).Some?
            && s'.table == s.table[id := Entry(
                 rowId, Scope(c.policy.signerRole, SIGNER_PK_PLACEHOLDER, intent.body.token, Calendar.DayUtc(nowMs).value),
                 ValueOf(intent.body.amount), Status.Reserved, nowMs)])
      && (r.Denied? ==> s'.intents == s.intents[id := intent.(state := Rejected, updatedAtMs := nowMs)] && s'.table == s.table)
      && (r.Failed? ==> s' == s)
  {
    hide AllDigits, ValueOf, Used, DeniedPayload, ValidatedPayload;
    hide Calendar.DayUtc;
    hide CheckPolicyRules;
  }

  // ---- The other requests ----

  /** The intent's row, if it is still reserved, gets the status; nothing else in the table changes. */
  predicate RowSettled(t: Table, t': Table, id: string, status: Status) {
    t'.Keys == t.Keys
    && forall k :: k in t ==> t'[k] == if k == id && t[k].status.Reserved? then t[k].(status := status) else t[k]
  }

  lemma SettleOpenSettles(t: Table, id: string, status: Status)
    requires UniqueIds(t)
    ensures RowSettled(t, SettleOpen(t, id, status), id, status)
  {
  }

  /** When mark-executed moves an intent, what it leaves, and what it answers otherwise. */
  lemma MarkAnswers(s: Server, id: string, upload: Upload, nowMs: int)
    requires UniqueIds(s.table)
    ensures var (s', r) := MarkStep(s, id, upload, nowMs);
      var open := id in s.intents && (s.intents[id].state.PolicyValidated? || s.intents[id].state.AcceptedByNode?);
      && (r == Moved(id, Executed) <==> open && MarkAccepts(upload))
      && (r == Moved(id, Executed) ==>
            s'.intents == s.intents[id := s.intents[id].(state := Executed, updatedAtMs := nowMs)]
            && RowSettled(s.table, s'.table, id, Status.Committed))
      && (r != Moved(id, Executed) ==> r.Failed? && s' == s)
      && (r == Failed(404) <==> id !in s.intents) && (r == Failed(409) <==> id in s.intents && !open)
  {
    SettleOpenSettles(s.table, id, Status.Committed);
    hide Field, Unprintable, PassesHashTest, SettleOpen, RowSettled, UniqueIds;
  }

  /** confirm-onchain: only a finalized success of a named hash moves a validated intent, and leaves that hash on it. */
  lemma ConfirmAnswers(s: Server, id: string, upload: Upload, chain: Finality, nowMs: int)
    requires UniqueIds(s.table)
    ensures var (s', r) := ConfirmStep(s, id, upload, chain, nowMs);
      var named := upload.Parsed? && Text(Field(upload.tree, "deployHash")).Some?
        && IsLowerHex(Text(Field(upload.tree, "deployHash")).value, 64);
      && (r == Moved(id, Executed) <==> id in s.intents && named && s.intents[id].state.PolicyValidated? && chain.Success?)
      && (r == Moved(id, Executed) ==>
            s'.intents == s.intents[id := s.intents[id].(
              state := Executed, deployHash := Text(Field(upload.tree, "deployHash")), updatedAtMs := nowMs)]
            && RowSettled(s.table, s'.table, id, Status.Committed))
      && (r.Echoed? <==> id in s.intents && named && s.intents[id].state.Executed?)
      && (r == Failed(422) <==> id in s.intents && named && s.intents[id].state.PolicyValidated? && !chain.Success?)
      && (r != Moved(id, Executed) ==> s' == s)
  {
    SettleOpenSettles(s.table, id, Status.Committed);
    hide IsLowerHex, SettleOpen, ConfirmedPayload, Lookup, RowSettled, UniqueIds;
  }

  /** A hash that is an object with a toString of its own, or an array that holds one at any depth, makes the handler throw. */
  predicate Throws(v: Tree) {
    (v.Obj? && exists i :: 0 <= i < |v.members| && v.members[i].key == "toString")
    || (v.Arr? && exists i :: 0 <= i < |v.items| && Throws(v.items[i]))
  }

  lemma {:induction false} LookupFinds(ms: seq<TreeMember>, key: string)
    ensures Lookup(ms, key).Some? <==> exists i :: 0 <= i < |ms| && ms[i].key == key
  {
    if ms != [] {
      LookupFinds(ms[1..], key);
      assert forall i :: 0 < i < |ms| ==> ms[i] == ms[1..][i - 1];
      assert forall i :: 0 <= i < |ms| - 1 ==> ms[1..][i] == ms[i + 1];
    }
  }

  lemma {:induction false} UnprintableMeans(v: Tree)
    ensures Unprintable(v) <==> Throws(v)
  {
    match v
    case Atom(_) =>
    case Arr(items) =>
      forall i | 0 <= i < |items| ensures Unprintable(items[i]) <==> Throws(items[i]) { UnprintableMeans(items[i]); }
    case Obj(members) => LookupFinds(members, "toString");
  }

  /** A malformed body, or a hash that is missing or fails the test, is the caller's error; null and a hash without a text throw. */
  lemma MarkFailures(s: Server, id: string, upload: Upload, nowMs: int)
    requires id in s.intents && s.intents[id].state.PolicyValidated?
    ensures var r := MarkStep(s, id, upload, nowMs).1;
      var hash := if upload.Parsed? then Field(upload.tree, "deployHash") else None;
      && (r == Failed(500) <==> upload == Parsed(Atom(Null)) || (hash.Some? && Throws(hash.value)))
      && (r == Failed(400) <==>
            upload.Malformed? || (upload.tree != Atom(Null) && (hash == None || (!Throws(hash.value) && !PassesHashTest(hash.value)))))
  {
    if upload.Parsed? && Field(upload.tree, "deployHash").Some? { UnprintableMeans(Field(upload.tree, "deployHash").value); }
    hide Unprintable, Throws, PassesHashTest, Record, SettleOpen, Lookup;
  }

  /** The codes in the trace tell the reasons apart. */
  lemma DenialCodesDiffer(d: Denial, e: Denial)
    requires DenialCode(d) == DenialCode(e)
    ensures d == e
  {
    CodeShape(d);
    CodeShape(e);
    hide DenialCode;
  }

  /** A code is told by its length and its third character. */
  lemma CodeShape(d: Denial)
    ensures |DenialCode(d)| > 4
    ensures var (n, c) := (|DenialCode(d)|, DenialCode(d)[2]);
      match d
      case SignerRoleMismatch => n == 20 && c == 'g'
      case TraceIdMissing => n == 16 && c == 'a'
      case ChainNotAllowed => n == 17 && c == 'a'
      case PackageNotAllowed => n == 19 && c == 'c'
      case TokenNotAllowed => n == 17 && c == 'k'
      case ReceiverNotAllowed => n == 20 && c == 'c'
      case AmountMalformed => n == 16 && c == 'o'
      case AmountAboveSingleCap => n == 23 && c == 'o'
      case DayCapExceeded => n == 16 && c == 'y'
      case ReservationConflict => n == 20 && c == 's'
      case SignerFailed => n == 13 && c == 'g'
  {
  }

  /** The reason on the trace: the request's own, or 'rejected' when it gives none. */
  lemma ReasonRecorded(s: Server, id: string, upload: Upload, nowMs: int)
    requires RejectStep(s, id, upload, nowMs).1 == Moved(id, Rejected)
    ensures var (s', own) := (RejectStep(s, id, upload, nowMs).0, if upload.Parsed? then Field(upload.tree, "reason") else None);
      && |s'.trace| == |s.trace| + 1 && s'.trace[..|s.trace|] == s.trace
      && var row := s'.trace[|s.trace|];
      && row.intentId == id && row.state.Rejected? && row.kind.Rejection? && row.atMs == nowMs
      && Field(row.payload, "reason") == Some(if own == None || own == Some(Atom(Null)) then Atom(Str("rejected")) else own.value)
  {
    LookupAt(RejectedPayload(Reason(upload)).members, 0);
    hide Lookup, SettleOpen;
  }

  /** reject: from every state that is not over, and the open row is released, a committed one kept. */
  lemma RejectAnswers(s: Server, id: string, upload: Upload, nowMs: int)
    requires UniqueIds(s.table)
    ensures var (s', r) := RejectStep(s, id, upload, nowMs);
      var over := id in s.intents && s.intents[id].state in {Finalized, ExecutionFailed, Rejected, Timeout};
      && (r == Moved(id, Rejected) <==> id in s.intents && !over && upload != Parsed(Atom(Null)))
      && (r == Moved(id, Rejected) ==>
            s'.intents == s.intents[id := s.intents[id].(state := Rejected, updatedAtMs := nowMs)]
            && RowSettled(s.table, s'.table, id, Status.Released))
      && (r == Failed(409) <==> over)
      && (r != Moved(id, Rejected) ==> r.Failed? && s' == s)
  {
    SettleOpenSettles(s.table, id, Status.Released);
    hide Reason, SettleOpen, RowSettled, UniqueIds;
  }

  /** An intent moves only by its own request and only along these edges; its body and its creation time never change. */
  predicate Edge(r: Request, from: IntentState, to: IntentState) {
    match r
    case Create(_, _) => false
    case ValidatePolicy(_, _) => from.Draft? && (to.PolicyValidated? || to.Rejected?)
    case MarkExecuted(_, _) => (from.PolicyValidated? || from.AcceptedByNode?) && to.Executed?
    case ConfirmOnchain(_, _, _) => from.PolicyValidated? && to.Executed?
    case Reject(_, _) => from !in {Finalized, ExecutionFailed, Rejected, Timeout} && to.Rejected?
  }

  function TargetOf(r: Request): string {
    match r
    case Create(_, newId) => newId
    case ValidatePolicy(id, _) => id
    case MarkExecuted(id, _) => id
    case ConfirmOnchain(id, _, _) => id
    case Reject(id, _) => id
  }

  lemma StepMoves(c: Config, s: Server, e: Event, id: string)
    requires id in s.intents && Fresh(s, e)
    ensures var s' := Step(c, s, e).0;
      && id in s'.intents
      && s'.intents[id].body == s.intents[id].body && s'.intents[id].createdAtMs == s.intents[id].createdAtMs
      && (s'.intents[id] != s.intents[id] ==>
            TargetOf(e.request) == id && Edge(e.request, s.intents[id].state, s'.intents[id].state))
  {
    hide Field, Lookup, ParseBody, CheckPolicyRules, AllDigits, ValueOf, Used, SettleOpen, Unprintable, PassesHashTest, IsLowerHex;
    hide DeniedPayload, ValidatedPayload, CreatedPayload, MarkedPayload, ConfirmedPayload, Reason, Appended;
    hide Calendar.DayUtc;
  }

  /** A rejected intent is never moved again. */
  lemma {:induction false} RejectedIsFinal(c: Config, s: Server, events: seq<Event>, id: string)
    requires id in s.intents && s.intents[id].state.Rejected? && FreshAll(c, s, events)
    ensures id in Run(c, s, events).intents && Run(c, s, events).intents[id] == s.intents[id]
    decreases |events|
  {
    if events != [] {
      StepMoves(c, s, events[0], id);
      hide Step, Fresh;
      RejectedIsFinal(c, Step(c, s, events[0]).0, events[1..], id);
    }
  }

  // ---- Every intent ever validated was allowed ----

  /** The intent's own receiver, contract, token and network are listed, and its amount is at most the single maximum. */
  ghost predicate AllowedOnceValidated(c: Config, s: Server) {
    forall id :: WasValidated(s, id) ==> id in s.intents && Meets(c.policy, id, s.intents[id].body)
  }

  /** A step's trace grows by at most one row, of the intent it concerns, in the state it leaves it in. */
  lemma TraceRowIsMove(c: Config, s: Server, e: Event)
    ensures var s' := Step(c, s, e).0;
      s'.trace == s.trace
      || (exists row :: s'.trace == s.trace + [row] && row.intentId == TargetOf(e.request)
            && row.intentId in s'.intents && row.state == s'.intents[row.intentId].state)
  {
    hide Field, Lookup, ParseBody, CheckPolicyRules, AllDigits, ValueOf, Used, SettleOpen, Unprintable, PassesHashTest, IsLowerHex;
    hide DeniedPayload, ValidatedPayload, CreatedPayload, MarkedPayload, ConfirmedPayload, Reason;
    hide Calendar.DayUtc;
  }

  lemma NewlyValidatedMeets(c: Config, s: Server, e: Event, id: string)
    requires TargetOf(e.request) == id && Fresh(s, e)
    requires var s' := Step(c, s, e).0; s'.trace != s.trace && id in s'.intents && s'.intents[id].state.PolicyValidated?
    ensures Meets(c.policy, id, Step(c, s, e).0.intents[id].body)
  {
    hide Field, Lookup, ParseBody, AllDigits, ValueOf, Used, SettleOpen, Unprintable, PassesHashTest, IsLowerHex;
    hide DeniedPayload, ValidatedPayload, CreatedPayload, MarkedPayload, ConfirmedPayload, Reason;
    hide Calendar.DayUtc;
  }

  lemma StepKeepsAllowed(c: Config, s: Server, e: Event)
    requires Told(c, s) && AllowedOnceValidated(c, s) && Fresh(s, e)
    ensures AllowedOnceValidated(c, Step(c, s, e).0)
  {
    var s' := Step(c, s, e).0;
    TraceRowIsMove(c, s, e);
    assert forall row :: row in s.trace ==> row.intentId in s.intents;
    hide Told, Meets, Step, Fresh;
    forall id | WasValidated(s', id) ensures id in s'.intents && Meets(c.policy, id, s'.intents[id].body) {
      var row :| row in s'.trace && row.intentId == id && row.state.PolicyValidated?;
      if row in s.trace {
        assert WasValidated(s, id);
        StepMoves(c, s, e, id);
      } else {
        NewlyValidatedMeets(c, s, e, id);
      }
    }
  }

  lemma {:induction false} RunKeepsAllowed(c: Config, s: Server, events: seq<Event>)
    requires Told(c, s) && AllowedOnceValidated(c, s) && FreshAll(c, s, events)
    ensures AllowedOnceValidated(c, Run(c, s, events))
    decreases |events|
  {
    if events != [] {
      StepKeepsAllowed(c, s, events[0]);
      StepKeepsTold(c, s, events[0]);
      hide Told, AllowedOnceValidated, Step, Fresh;
      RunKeepsAllowed(c, Step(c, s, events[0]).0, events[1..]);
    }
  }

  /** After any run from an empty store, every intent that was ever validated met every rule of the policy. */
  lemma EveryValidatedWasAllowed(c: Config, events: seq<Event>, id: string)
    requires FreshAll(c, EMPTY, events) && WasValidated(Run(c, EMPTY, events), id)
    ensures id in Run(c, EMPTY, events).intents && Meets(c.policy, id, Run(c, EMPTY, events).intents[id].body)
  {
    EmptyIsTold(c);
    assert AllowedOnceValidated(c, EMPTY);
    RunKeepsAllowed(c, EMPTY, events);
    hide Run, Meets, WasValidated;
  }
}
