/**
 * makeSignerGuard.authorize under concurrency. The call is synchronous up to its awaited sign,
 * and again from there on, so a run of the guard is a sequence of these events: a call begins
 * (checks and reserves), a pending signing returns, a pending signing fails, and, beside them,
 * whatever others do to the ledger.
 */
module SignerGuards {
  import opened Wrappers
  import opened Sequences
  import opened Decimal
  import opened MapSums
  import opened SpendTable
  import opened PolicyRules
  import opened SpendLedgerRows
  import Calendar

  /** A reservation made by one authorize call. */
  datatype Ticket = Ticket(intent: string, id: string, scope: Scope, amount: nat)

  /** Tickets whose sign is pending, and tickets signed, oldest first. */
  datatype Guard = Guard(table: Table, pending: seq<Ticket>, signed: seq<Ticket>)

  datatype Signer = Signer(role: string, pk: string)

  datatype Begun = Denied(reason: Denial) | Signing(ticket: Ticket) | Threw

  datatype Event =
    | Begin(req: SignRequest, nowMs: int, id: string)
    | SignReturned(index: nat)
    | SignThrew(index: nat)
    | CommitRow(id: string)
    | ReleaseRow(id: string)
    | Sweep(nowMs: int, ttlMs: int)

  ghost function Authorize(signer: Signer, s: Guard, req: SignRequest, nowMs: int, id: string): (Guard, Begun) {
    if req.policy.signerRole != req.signerRole || req.signerRole != signer.role || req.signerPk != signer.pk
    then (s, Denied(SignerRoleMismatch))
    else match CheckPolicyRules(req)
      case Some(reason) => (s, Denied(reason))
      case None =>
        if Calendar.DayUtc(nowMs) == None || !AllDigits(req.policy.perDayCapAtomic) then (s, Begun.Threw) else
          var scope := Scope(req.signerRole, req.signerPk, req.token, Calendar.DayUtc(nowMs).value);
          var amount := ValueOf(req.amount);
          var (table, r) := SpendTable.Reserve(
            s.table, req.intentId, id, scope, amount, nowMs, ValueOf(req.policy.perDayCapAtomic));
          match r
          case DayCapExceeded => (s, Denied(Denial.DayCapExceeded))
          case ReservationConflict => (s, Denied(Denial.ReservationConflict))
          case Reserved(_) =>
            var ticket := Ticket(req.intentId, id, scope, amount);
            (s.(table := table, pending := s.pending + [ticket]), Signing(ticket))
  }

  ghost function Next(signer: Signer, s: Guard, e: Event): Guard
    requires EventFits(s, e)
  {
    match e
    case Begin(req, nowMs, id) => Authorize(signer, s, req, nowMs, id).0
    case SignReturned(i) => s.(pending := Without(s.pending, i), signed := s.signed + [s.pending[i]])
    case SignThrew(i) => s.(pending := Without(s.pending, i), table := Settle(s.table, s.pending[i].id, Status.Released))
    case CommitRow(id) => s.(table := Settle(s.table, id, Status.Committed))
    case ReleaseRow(id) => s.(table := Settle(s.table, id, Status.Released))
    case Sweep(nowMs, ttlMs) => s.(table := ReleaseStale(s.table, nowMs, ttlMs))
  }

  /** A finishing event concerns a pending call, and a beginning one draws a new UUID. */
  ghost predicate EventFits(s: Guard, e: Event) {
    && (e.SignReturned? ==> e.index < |s.pending|)
    && (e.SignThrew? ==> e.index < |s.pending|)
    && (e.Begin? ==> IdFresh(s.table, e.id))
  }

  function Outstanding(s: Guard): seq<Ticket> {
    s.signed + s.pending
  }

  /** Every call's policy carries the shared cap. */
  predicate BringsCap(e: Event, cap: nat) {
    e.Begin? ==> ParseAtomic(e.req.policy.perDayCapAtomic) == Some(cap)
  }

  ghost predicate SharesCap(s: Guard, e: Event, cap: nat) {
    EventFits(s, e) && BringsCap(e, cap)
  }

  /** The event is an outside release that takes a ticket's row while it is still reserved; on any other row it is no change. */
  predicate Frees(t: Table, e: Event, k: Ticket) {
    k.intent in t && t[k.intent].status.Reserved?
    && ((e.ReleaseRow? && t[k.intent].id == e.id) || (e.Sweep? && Stale(t[k.intent], e.nowMs, e.ttlMs)))
  }

  /** The condition on outsiders: no outstanding ticket loses its reserved row. */
  predicate Spares(s: Guard, e: Event) {
    forall i :: 0 <= i < |Outstanding(s)| ==> !Frees(s.table, e, Outstanding(s)[i])
  }

  ghost predicate EventAllowed(s: Guard, e: Event, cap: nat) {
    SharesCap(s, e, cap) && Spares(s, e)
  }

  ghost predicate AllFit(signer: Signer, s: Guard, events: seq<Event>)
    decreases |events|
  {
    events == [] || (EventFits(s, events[0]) && AllFit(signer, Next(signer, s, events[0]), events[1..]))
  }

  predicate AllShareCap(events: seq<Event>, cap: nat) {
    forall i :: 0 <= i < |events| ==> BringsCap(events[i], cap)
  }

  ghost predicate AllSpare(signer: Signer, s: Guard, events: seq<Event>)
    requires AllFit(signer, s, events)
    decreases |events|
  {
    events == [] || (Spares(s, events[0]) && AllSpare(signer, Next(signer, s, events[0]), events[1..]))
  }

  ghost function Run(signer: Signer, s: Guard, events: seq<Event>): Guard
    requires AllFit(signer, s, events)
    decreases |events|
  {
    if events == [] then s else Run(signer, Next(signer, s, events[0]), events[1..])
  }

  // ---- Tickets and the rows behind them ----

  predicate DistinctIntents(ts: seq<Ticket>) {
    forall i, j :: 0 <= i < j < |ts| ==> ts[i].intent != ts[j].intent
  }

  predicate Backed(t: Table, k: Ticket) {
    && k.intent in t
    && t[k.intent].id == k.id && t[k.intent].scope == k.scope && t[k.intent].amount == k.amount
    && Live(t[k.intent])
  }

  predicate AllBacked(t: Table, ts: seq<Ticket>) {
    forall i :: 0 <= i < |ts| ==> Backed(t, ts[i])
  }

  function Amount(ts: seq<Ticket>, scope: Scope): nat {
    if ts == [] then 0
    else Amount(ts[..|ts| - 1], scope) + (if ts[|ts| - 1].scope == scope then ts[|ts| - 1].amount else 0)
  }

  lemma {:induction false} AmountConcat(a: seq<Ticket>, b: seq<Ticket>, scope: Scope)
    ensures Amount(a + b, scope) == Amount(a, scope) + Amount(b, scope)
  {
    if b == [] {
      assert a + b == a;
    } else {
      AmountConcat(a, b[..|b| - 1], scope);
      assert (a + b)[..|a + b| - 1] == a + b[..|b| - 1];
    }
  }

  /** Tickets of distinct intents, each backed by its live row, claim no more than the cap sum. */
  lemma {:induction false} BackedAmountWithinUsed(t: Table, ts: seq<Ticket>, scope: Scope)
    requires DistinctIntents(ts) && AllBacked(t, ts)
    ensures Amount(ts, scope) <= Used(t, scope)
  {
    if ts != [] {
      var front, last := ts[..|ts| - 1], ts[|ts| - 1];
      var rest := t - {last.intent};
      assert AllBacked(rest, front);
      BackedAmountWithinUsed(rest, front, scope);
      assert rest[last.intent := t[last.intent]] == t;
      UsedUpdate(rest, last.intent, t[last.intent], scope);
    }
  }

  // ---- The invariant of every interleaving ----

  ghost predicate Sound(s: Guard, cap: nat) {
    && UniqueIds(s.table) && WithinCap(s.table, cap)
    && DistinctIntents(Outstanding(s)) && AllBacked(s.table, Outstanding(s))
  }

  lemma NextKeepsSound(signer: Signer, s: Guard, e: Event, cap: nat)
    requires Sound(s, cap) && EventAllowed(s, e, cap)
    ensures Sound(Next(signer, s, e), cap)
  {
    hide Used;
    match e
    case Begin(req, nowMs, id) =>
      BeginKeepsSound(signer, s, req, nowMs, id, cap);
    case SignReturned(i) =>
      MovePending(s, i);
    case SignThrew(i) =>
      FailureKeepsSound(s, i, cap);
    case CommitRow(id) =>
      ApplyKeepsIds(s.table, DoCommit(id), cap);
      ApplyKeepsCap(s.table, DoCommit(id), cap);
    case ReleaseRow(id) =>
      ApplyKeepsIds(s.table, DoRelease(id), cap);
      ApplyKeepsCap(s.table, DoRelease(id), cap);
    case Sweep(nowMs, ttlMs) =>
      ApplyKeepsIds(s.table, DoSweep(nowMs, ttlMs), cap);
      ApplyKeepsCap(s.table, DoSweep(nowMs, ttlMs), cap);
  }

  lemma BeginKeepsSound(signer: Signer, s: Guard, req: SignRequest, nowMs: int, id: string, cap: nat)
    requires Sound(s, cap) && EventAllowed(s, Begin(req, nowMs, id), cap)
    ensures Sound(Authorize(signer, s, req, nowMs, id).0, cap)
  {
    hide Used, CheckPolicyRules;
    var (s', r) := Authorize(signer, s, req, nowMs, id);
    if r.Signing? {
      var op := DoReserve(req.intentId, id, r.ticket.scope, r.ticket.amount, nowMs);
      assert s'.table == Apply(s.table, op, cap);
      ApplyKeepsIds(s.table, op, cap);
      ApplyKeepsCap(s.table, op, cap);
      assert Outstanding(s') == Outstanding(s) + [r.ticket];
      assert r.ticket.intent !in s.table;
    }
  }

  lemma MovePending(s: Guard, i: nat)
    requires i < |s.pending| && DistinctIntents(Outstanding(s))
    ensures var after := s.signed + [s.pending[i]] + Without(s.pending, i);
            DistinctIntents(after) && forall a :: 0 <= a < |after| ==> after[a] in Outstanding(s)
  {
    var after := s.signed + [s.pending[i]] + Without(s.pending, i);
    var n := |s.signed|;
    forall a | 0 <= a < |after|
      ensures after[a] == Outstanding(s)[if a < n then a else if a == n then n + i else if a <= n + i then a - 1 else a]
    {
    }
  }

  lemma DropPending(s: Guard, i: nat)
    requires i < |s.pending| && DistinctIntents(Outstanding(s))
    ensures var after := s.signed + Without(s.pending, i);
            DistinctIntents(after)
            && forall a :: 0 <= a < |after| ==> after[a] in Outstanding(s) && after[a].intent != s.pending[i].intent
  {
    var after := s.signed + Without(s.pending, i);
    var n := |s.signed|;
    forall a | 0 <= a < |after|
      ensures after[a] == Outstanding(s)[if a < n + i then a else a + 1]
    {
    }
    assert Outstanding(s)[n + i] == s.pending[i];
  }

  lemma FailureKeepsSound(s: Guard, i: nat, cap: nat)
    requires Sound(s, cap) && i < |s.pending|
    ensures Sound(s.(pending := Without(s.pending, i), table := Settle(s.table, s.pending[i].id, Status.Released)), cap)
  {
    hide Used;
    var k := s.pending[i];
    assert Outstanding(s)[|s.signed| + i] == k;
    ApplyKeepsIds(s.table, DoRelease(k.id), cap);
    ApplyKeepsCap(s.table, DoRelease(k.id), cap);
    DropPending(s, i);
    SettleIsUpdate(s.table, k.intent, Status.Released);
  }

  // ---- Exactly when an outside release breaks the invariant ----

  /** A released row backs its ticket no more. */
  lemma FreedRowUnbacks(signer: Signer, s: Guard, e: Event, i: nat)
    requires UniqueIds(s.table) && EventFits(s, e) && i < |Outstanding(s)| && Frees(s.table, e, Outstanding(s)[i])
    ensures Outstanding(Next(signer, s, e)) == Outstanding(s)
    ensures !Backed(Next(signer, s, e).table, Outstanding(s)[i])
  {
  }

  /** One step from a sound state stays sound exactly when it takes no outstanding ticket's reserved row. */
  lemma NextSoundExactly(signer: Signer, s: Guard, e: Event, cap: nat)
    requires Sound(s, cap) && SharesCap(s, e, cap)
    ensures Sound(Next(signer, s, e), cap) <==> Spares(s, e)
  {
    hide Used;
    if Spares(s, e) {
      NextKeepsSound(signer, s, e, cap);
    } else {
      var i :| 0 <= i < |Outstanding(s)| && Frees(s.table, e, Outstanding(s)[i]);
      FreedRowUnbacks(signer, s, e, i);
    }
  }

  ghost predicate SoundThroughout(signer: Signer, s: Guard, events: seq<Event>, cap: nat)
    requires AllFit(signer, s, events)
    decreases |events|
  {
    Sound(s, cap) && (events == [] || SoundThroughout(signer, Next(signer, s, events[0]), events[1..], cap))
  }

  /** A run stays sound throughout exactly when outsiders never take an outstanding ticket's reserved row. */
  lemma {:induction false} RunSoundExactly(signer: Signer, s: Guard, events: seq<Event>, cap: nat)
    requires Sound(s, cap) && AllFit(signer, s, events) && AllShareCap(events, cap)
    ensures SoundThroughout(signer, s, events, cap) <==> AllSpare(signer, s, events)
    decreases |events|
  {
    if events != [] {
      NextSoundExactly(signer, s, events[0], cap);
      hide Sound, Spares, Next;
      if Spares(s, events[0]) {
        RunSoundExactly(signer, Next(signer, s, events[0]), events[1..], cap);
      }
    }
  }

  /**
   * In every interleaving, for every (role, key, token, day): what was signed plus what is being
   * signed stays within the cap.
   */
  lemma {:induction false} EveryInterleavingWithinCap(signer: Signer, s: Guard, events: seq<Event>, cap: nat)
    requires Sound(s, cap) && AllFit(signer, s, events) && AllShareCap(events, cap) && AllSpare(signer, s, events)
    ensures Sound(Run(signer, s, events), cap)
    ensures forall scope ::
      Amount(Run(signer, s, events).signed, scope) + Amount(Run(signer, s, events).pending, scope) <= cap
    decreases |events|
  {
    if events == [] {
      forall scope ensures Amount(s.signed, scope) + Amount(s.pending, scope) <= cap {
        AmountConcat(s.signed, s.pending, scope);
        BackedAmountWithinUsed(s.table, Outstanding(s), scope);
      }
    } else {
      NextKeepsSound(signer, s, events[0], cap);
      EveryInterleavingWithinCap(signer, Next(signer, s, events[0]), events[1..], cap);
    }
  }

  // ---- One signature per intent, whatever happens to the rows ----

  /** No two outstanding tickets are for one intent, and each intent has its row, live or not. */
  predicate OncePerIntent(s: Guard) {
    DistinctIntents(Outstanding(s)) && forall i :: 0 <= i < |Outstanding(s)| ==> Outstanding(s)[i].intent in s.table
  }

  lemma BeginKeepsOnce(signer: Signer, s: Guard, req: SignRequest, nowMs: int, id: string)
    requires OncePerIntent(s)
    ensures OncePerIntent(Authorize(signer, s, req, nowMs, id).0) && s.table.Keys <= Authorize(signer, s, req, nowMs, id).0.table.Keys
  {
    hide Used, CheckPolicyRules;
    hide Calendar.DayUtc;
    var (s', r) := Authorize(signer, s, req, nowMs, id);
    if r.Signing? { assert Outstanding(s') == Outstanding(s) + [r.ticket]; }
  }

  lemma NextKeepsOnce(signer: Signer, s: Guard, e: Event)
    requires OncePerIntent(s) && EventFits(s, e)
    ensures OncePerIntent(Next(signer, s, e)) && s.table.Keys <= Next(signer, s, e).table.Keys
  {
    hide Authorize;
    match e
    case Begin(req, nowMs, id) => BeginKeepsOnce(signer, s, req, nowMs, id);
    case SignReturned(i) => MovePending(s, i);
    case SignThrew(i) => DropPending(s, i);
    case _ =>
  }

  /** Across any run, outside releases and sweeps included and whatever the caps, no intent is signed twice. */
  lemma {:induction false} NoIntentSignedTwice(signer: Signer, s: Guard, events: seq<Event>)
    requires OncePerIntent(s) && AllFit(signer, s, events)
    ensures OncePerIntent(Run(signer, s, events)) && DistinctIntents(Run(signer, s, events).signed)
    decreases |events|
  {
    if events == [] {
      forall i, j | 0 <= i < j < |s.signed| ensures s.signed[i].intent != s.signed[j].intent {
        assert Outstanding(s)[i] == s.signed[i] && Outstanding(s)[j] == s.signed[j];
      }
    } else {
      NextKeepsOnce(signer, s, events[0]);
      NoIntentSignedTwice(signer, Next(signer, s, events[0]), events[1..]);
    }
  }

  /** A failed signing gives back its own budget, all of it unless someone committed the row meanwhile, and no other. */
  lemma FailureReturnsOwnBudget(signer: Signer, s: Guard, i: nat, cap: nat, scope: Scope)
    requires Sound(s, cap) && i < |s.pending|
    ensures var k := s.pending[i];
      k.intent in s.table &&
      Used(Next(signer, s, SignThrew(i)).table, scope)
        == Used(s.table, scope) - (if k.scope == scope && s.table[k.intent].status.Reserved? then k.amount else 0)
  {
    var k := s.pending[i];
    assert Outstanding(s)[|s.signed| + i] == k;
    SettleSums(s.table, k.intent, Status.Released, scope);
  }

  /** A denied or throwing call leaves no trace: no row, nothing pending, nothing signed. */
  lemma DenialLeavesNothing(signer: Signer, s: Guard, req: SignRequest, nowMs: int, id: string)
    requires !Authorize(signer, s, req, nowMs, id).1.Signing?
    ensures Authorize(signer, s, req, nowMs, id).0 == s
  {
  }

  /** Only requests whose every field the policy allows, made under the signer's own role and key, reach the signer. */
  lemma SigningMeansAllowed(signer: Signer, s: Guard, req: SignRequest, nowMs: int, id: string)
    requires Authorize(signer, s, req, nowMs, id).1.Signing?
    ensures ExplicitlyAllowed(req) && req.signerRole == signer.role == req.policy.signerRole && req.signerPk == signer.pk
    ensures var k := Authorize(signer, s, req, nowMs, id).1.ticket;
      k.amount == ValueOf(req.amount)
      && Calendar.DayUtc(nowMs) == Some(k.scope.day) && k.scope == Scope(signer.role, signer.pk, req.token, k.scope.day)
  {
  }

  /** Each answer of authorize up to its await: the signer first, then the rules, then the ledger. */
  lemma AuthorizeAnswers(signer: Signer, s: Guard, req: SignRequest, nowMs: int, id: string)
    ensures var r := Authorize(signer, s, req, nowMs, id).1;
      var mine := req.signerRole == signer.role && req.signerRole == req.policy.signerRole && req.signerPk == signer.pk;
      var judged := mine && ExplicitlyAllowed(req);
      var readable := judged && Calendar.DayUtc(nowMs).Some? && AllDigits(req.policy.perDayCapAtomic);
      && (r == Denied(SignerRoleMismatch) <==> !mine)
      && (forall d: Denial :: mine && CheckPolicyRules(req) == Some(d) ==> r == Denied(d))
      && (r == Begun.Threw <==> judged && !readable)
      && (readable ==>
            var scope := Scope(signer.role, signer.pk, req.token, Calendar.DayUtc(nowMs).value);
            var fits := Used(s.table, scope) + ValueOf(req.amount) <= ValueOf(req.policy.perDayCapAtomic);
            && (r == Denied(Denial.DayCapExceeded) <==> !fits)
            && (r == Denied(Denial.ReservationConflict) <==> fits && req.intentId in s.table)
            && (r == Signing(Ticket(req.intentId, id, scope, ValueOf(req.amount))) <==> fits && req.intentId !in s.table))
  {
    RulesDenyByRule(req);
    hide CheckPolicyRules, ExplicitlyAllowed, Used, AllDigits, ValueOf;
    hide Calendar.DayUtc;
  }

  // ---- Exactly when the next call can break the cap ----

  /** No call that would be granted for this scope now takes what is outstanding above the cap. */
  ghost predicate NextCallWithinCap(signer: Signer, s: Guard, scope: Scope, nowMs: int, cap: nat) {
    forall req: SignRequest, id: string ::
      var (s', r) := Authorize(signer, s, req, nowMs, id);
      IdFresh(s.table, id) && ParseAtomic(req.policy.perDayCapAtomic) == Some(cap) && r.Signing? && r.ticket.scope == scope
      ==> Amount(Outstanding(s'), scope) <= cap
  }

  lemma GrantAddsAmount(signer: Signer, s: Guard, req: SignRequest, nowMs: int, id: string, cap: nat)
    requires Authorize(signer, s, req, nowMs, id).1.Signing? && ParseAtomic(req.policy.perDayCapAtomic) == Some(cap)
    ensures var (s', r) := Authorize(signer, s, req, nowMs, id);
      var k := r.ticket;
      Amount(Outstanding(s'), k.scope) == Amount(Outstanding(s), k.scope) + k.amount
      && Used(s.table, k.scope) + k.amount <= cap
  {
    hide Used, CheckPolicyRules, Amount;
    var (s', r) := Authorize(signer, s, req, nowMs, id);
    assert Outstanding(s') == Outstanding(s) + [r.ticket];
    AmountConcat(Outstanding(s), [r.ticket], r.ticket.scope);
    AmountOfOne(r.ticket, r.ticket.scope);
  }

  lemma AmountOfOne(k: Ticket, scope: Scope)
    ensures Amount([k], scope) == if k.scope == scope then k.amount else 0
  {
    assert [k][..0] == [];
  }

  /** A request for one scope and amount under a policy that allows nothing else and whose cap is given. */
  function RequestFor(scope: Scope, amount: nat, cap: nat, intent: string): SignRequest {
    SignRequest(
      SignerPolicy(scope.role, ["chain"], ["package"], [scope.token], Allowlist, ["receiver"], Print(amount), Print(cap), false),
      intent, intent, scope.role, scope.pk, "package", "receiver", scope.token, Print(amount), "chain")
  }

  lemma RequestIsGranted(signer: Signer, s: Guard, scope: Scope, amount: nat, cap: nat, intent: string, nowMs: int, id: string)
    requires Used(s.table, scope) + amount <= cap && intent !in s.table
    requires signer == Signer(scope.role, scope.pk) && Calendar.DayUtc(nowMs) == Some(scope.day)
    ensures var req := RequestFor(scope, amount, cap, intent);
      ParseAtomic(req.policy.perDayCapAtomic) == Some(cap)
      && Authorize(signer, s, req, nowMs, id).1 == Signing(Ticket(intent, id, scope, amount))
  {
    ParsePrint(amount);
    ParsePrint(cap);
    var req := RequestFor(scope, amount, cap, intent);
    hide Print, ValueOf, AllDigits, Used;
    hide Calendar.DayUtc;
    assert req.receiver == req.policy.allowedReceivers[0] && req.chainId == req.policy.allowedChainIds[0];
    assert req.contractPackage == req.policy.allowedContractPackages[0] && req.token == req.policy.allowedTokens[0];
    assert CheckPolicyRules(req) == None;
  }

  /**
   * For any state of the guard and the ledger, the cap is safe from the next call exactly when
   * the ledger still counts at least what is outstanding. (The intent and the id are new ones.)
   */
  lemma CapSafeExactly(signer: Signer, s: Guard, scope: Scope, nowMs: int, cap: nat, intent: string, id: string)
    requires Used(s.table, scope) <= cap && intent !in s.table && IdFresh(s.table, id)
    requires signer == Signer(scope.role, scope.pk) && Calendar.DayUtc(nowMs) == Some(scope.day)
    ensures NextCallWithinCap(signer, s, scope, nowMs, cap) <==> Amount(Outstanding(s), scope) <= Used(s.table, scope)
  {
    if Amount(Outstanding(s), scope) <= Used(s.table, scope) {
      forall req: SignRequest, id: string
        ensures var (s', r) := Authorize(signer, s, req, nowMs, id);
          IdFresh(s.table, id) && ParseAtomic(req.policy.perDayCapAtomic) == Some(cap) && r.Signing? && r.ticket.scope == scope
          ==> Amount(Outstanding(s'), scope) <= cap
      {
        if ParseAtomic(req.policy.perDayCapAtomic) == Some(cap) && Authorize(signer, s, req, nowMs, id).1.Signing? {
          GrantAddsAmount(signer, s, req, nowMs, id, cap);
        }
      }
    } else {
      var amount := cap - Used(s.table, scope);
      var req := RequestFor(scope, amount, cap, intent);
      RequestIsGranted(signer, s, scope, amount, cap, intent, nowMs, id);
      GrantAddsAmount(signer, s, req, nowMs, id, cap);
      hide Used, Authorize, Amount, RequestFor;
    }
  }

  /** An outside release of a ticket's reserved row lowers the ledger's sum for its scope by at least the ticket's amount. */
  lemma FreedRowLowersUsed(signer: Signer, s: Guard, e: Event, i: nat, cap: nat)
    requires Sound(s, cap) && EventFits(s, e) && i < |Outstanding(s)| && Frees(s.table, e, Outstanding(s)[i])
    ensures var k := Outstanding(s)[i];
      Used(Next(signer, s, e).table, k.scope) + k.amount <= Used(s.table, k.scope)
  {
    var k := Outstanding(s)[i];
    assert Backed(s.table, k);
    if e.ReleaseRow? {
      SettleSums(s.table, k.intent, Status.Released, k.scope);
    } else {
      var live, stale := LiveAmounts(s.table, k.scope), StaleIntents(s.table, e.nowMs, e.ttlMs);
      SweepSums(s.table, e.nowMs, e.ttlMs, k.scope);
      TotalRemove(live, k.intent);
      TotalMonotone(live - stale, live - {k.intent});
    }
  }

  /**
   * From any sound state in which a scope's live rows all belong to tickets, an outside release
   * of one outstanding ticket's reserved row opens the cap: some next call breaks it.
   */
  lemma ReleasingOutstandingRowBreaksCap(
      signer: Signer, s: Guard, e: Event, i: nat, cap: nat, nowMs: int, intent: string, id: string)
    requires Sound(s, cap) && EventFits(s, e) && i < |Outstanding(s)| && Frees(s.table, e, Outstanding(s)[i])
    requires var k := Outstanding(s)[i];
      k.amount > 0 && Used(s.table, k.scope) == Amount(Outstanding(s), k.scope)
      && signer == Signer(k.scope.role, k.scope.pk) && Calendar.DayUtc(nowMs) == Some(k.scope.day)
    requires intent !in s.table && IdFresh(s.table, id)
    ensures !NextCallWithinCap(signer, Next(signer, s, e), Outstanding(s)[i].scope, nowMs, cap)
  {
    var k, s' := Outstanding(s)[i], Next(signer, s, e);
    FreedRowLowersUsed(signer, s, e, i, cap);
    FreedRowUnbacks(signer, s, e, i);
    assert Used(s.table, k.scope) <= cap;
    assert intent !in s'.table && IdFresh(s'.table, id);
    hide Used, Amount, Next, NextCallWithinCap, Sound, Frees;
    CapSafeExactly(signer, s', k.scope, nowMs, cap, intent, id);
  }

  lemma GrantAddsRow(signer: Signer, s: Guard, req: SignRequest, nowMs: int, id: string, cap: nat)
    requires Authorize(signer, s, req, nowMs, id).1.Signing?
    ensures var (s', r) := Authorize(signer, s, req, nowMs, id);
      var k := r.ticket;
      s' == Guard(s.table[k.intent := Entry(id, k.scope, k.amount, Status.Reserved, nowMs)], s.pending + [k], s.signed)
      && Used(s'.table, k.scope) == Used(s.table, k.scope) + k.amount
  {
    hide Used, CheckPolicyRules;
    var k := Authorize(signer, s, req, nowMs, id).1.ticket;
    ReserveSums(s.table, k.intent, id, k.scope, k.amount, nowMs, ValueOf(req.policy.perDayCapAtomic), k.scope);
  }

  /** Such a state is one call away from an empty guard: a request for the whole cap. */
  lemma FirstGrantReleasedBreaksCap(scope: Scope, cap: nat, nowMs: int)
    requires cap > 0 && Calendar.DayUtc(nowMs) == Some(scope.day)
    ensures var signer := Signer(scope.role, scope.pk);
      var s := Next(signer, Guard(map[], [], []), Begin(RequestFor(scope, cap, cap, "a"), nowMs, "1"));
      Sound(s, cap) && Outstanding(s) == [Ticket("a", "1", scope, cap)]
      && !NextCallWithinCap(signer, Next(signer, s, ReleaseRow("1")), scope, nowMs, cap)
  {
    var signer, empty, k := Signer(scope.role, scope.pk), Guard(map[], [], []), Ticket("a", "1", scope, cap);
    var req := RequestFor(scope, cap, cap, "a");
    var s := Next(signer, empty, Begin(req, nowMs, "1"));
    assert Used(empty.table, scope) == 0 && Sound(empty, cap) && Outstanding(empty) == [];
    RequestIsGranted(signer, empty, scope, cap, cap, "a", nowMs, "1");
    GrantAddsAmount(signer, empty, req, nowMs, "1", cap);
    GrantAddsRow(signer, empty, req, nowMs, "1", cap);
    hide Used, Amount, RequestFor, Authorize, NextCallWithinCap, Sound, AllBacked;
    hide Calendar.DayUtc;
    NextKeepsSound(signer, empty, Begin(req, nowMs, "1"), cap);
    ReleasingOutstandingRowBreaksCap(signer, s, ReleaseRow("1"), 0, cap, nowMs, "b", "2");
  }

  // ---- The guard object ----

  class SignerGuard {
    const signer: Signer
    const ledger: SpendLedger

    /** The calls suspended at their await, and the signatures handed out. */
    var pending: seq<Ticket>
    var signed: seq<Ticket>

    ghost predicate Valid()
      reads this, ledger
    {
      ledger.Valid() && ledger.Clean()
    }

    function Model(): Guard
      reads this, ledger
    {
      Guard(ledger.Contents(), pending, signed)
    }

    constructor (signer: Signer, ledger: SpendLedger)
      requires ledger.Valid() && ledger.Clean()
      ensures Valid() && this.signer == signer && this.ledger == ledger
      ensures Model() == Guard(ledger.Contents(), [], [])
    {
      this.signer, this.ledger, pending, signed := signer, ledger, [], [];
    }

    /** authorize, up to the await of sign. */
    method BeginAuthorize(req: SignRequest, nowMs: int, id: string) returns (r: Begun)
      requires Valid() && IdFresh(ledger.Contents(), id)
      modifies this, ledger
      ensures Valid() && (Model(), r) == Authorize(signer, old(Model()), req, nowMs, id)
    {
      if req.policy.signerRole != req.signerRole || req.signerRole != signer.role || req.signerPk != signer.pk {
        return Denied(SignerRoleMismatch);
      }
      var denial := CheckPolicyRules(req);
      if denial.Some? { return Denied(denial.value); }
      hide AllDigits, ValueOf, Used;
      var day := Calendar.DayUtc(nowMs);
      if day == None { return Begun.Threw; }
      var scope := Scope(req.signerRole, req.signerPk, req.token, day.value);
      var reserved := ledger.Reserve(
        Reservation(scope, req.amount, req.intentId, req.traceId), req.policy.perDayCapAtomic, id, nowMs);
      match reserved {
        case Threw => return Begun.Threw;
        case Returned(DayCapExceeded) => return Denied(Denial.DayCapExceeded);
        case Returned(ReservationConflict) => return Denied(Denial.ReservationConflict);
        case Returned(Reserved(_)) =>
          var ticket := Ticket(req.intentId, id, scope, ValueOf(req.amount));
          pending := pending + [ticket];
          return Signing(ticket);
      }
    }

    /** authorize, after sign resolved: the signature is returned. */
    method FinishSigned(i: nat)
      requires Valid() && i < |pending|
      modifies this
      ensures Valid() && Model() == Next(signer, old(Model()), SignReturned(i))
    {
      signed := signed + [pending[i]];
      pending := Without(pending, i);
    }

    /** authorize, after sign rejected: the catch block releases the reservation. */
    method FinishFailed(i: nat, nowMs: int) returns (r: Denial)
      requires Valid() && i < |pending|
      modifies this, ledger
      ensures Valid() && r == SignerFailed && Model() == Next(signer, old(Model()), SignThrew(i))
    {
      ledger.Release(pending[i].id, nowMs);
      pending := Without(pending, i);
      return SignerFailed;
    }
  }
}
