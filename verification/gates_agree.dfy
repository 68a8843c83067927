/**
 * The two gates side by side. Both are configured by one seed plan; every on-chain payment
 * spends a ticket the guard signed, on the UTC day its row was reserved for. The ledger then
 * over-approximates the vault, and the vault's own amount and day limits never fire.
 */
module GatesAgree {
  import opened Wrappers
  import opened Sequences
  import opened Decimal
  import opened SpendTable
  import opened PolicyRules
  import opened SeedPlans
  import opened VaultMachine
  import opened SignerGuards
  import Calendar

  /** Both gates and, payment by payment, the ticket each accepted payment spent. */
  datatype Gates = Gates(guard: Guard, world: World, paid: seq<Ticket>)

  datatype GateEvent =
    | AtGuard(event: Event)
    | OnChain(tx: Tx)
    | PayTicket(index: nat, caller: Address, nowMs: nat, receiver: Address, hash: string)

  datatype Config = Config(plan: SeedPlan, signer: Signer)

  /** A plan that BuildSeedPlan can return and whose caps fit the contract's integers. */
  predicate SharedCaps(c: Config) {
    && SchemaAccepts(c.plan.signerGuard)
    && c.plan.signerGuard.allowedTokens == [c.plan.vault.cep18Contract]
    && c.plan.vault.maxSinglePayment == c.plan.signerGuard.maxSinglePaymentAtomic
    && c.plan.vault.dailyLimit == c.plan.signerGuard.perDayCapAtomic
    && ValueOf(c.plan.vault.dailyLimit) < U256_LIMIT
  }

  lemma SeedPlansShareCaps(e: Env, signer: Signer)
    requires BuildSeedPlan(e).Ok? && ValueOf(BuildSeedPlan(e).value.signerGuard.perDayCapAtomic) < U256_LIMIT
    ensures SharedCaps(Config(BuildSeedPlan(e).value, signer))
  {
  }

  function MaxSingle(c: Config): nat
    requires SharedCaps(c)
  {
    ValueOf(c.plan.vault.maxSinglePayment)
  }

  function DailyCap(c: Config): nat
    requires SharedCaps(c)
  {
    ValueOf(c.plan.vault.dailyLimit)
  }

  /** No accepted set_limits moves the limits away from the shared caps; a reverted one may well be sent. */
  predicate LimitsKept(w: World, tx: Tx) {
    var p, p' := w.policy, Step(w, tx).0.policy;
    p'.maxSingle == p.maxSingle && p'.dailyLimit == p.dailyLimit
  }

  ghost predicate Allowed(c: Config, g: Gates, e: GateEvent)
    requires SharedCaps(c)
  {
    match e
    case AtGuard(event) =>
      EventAllowed(g.guard, event, DailyCap(c)) && (event.Begin? ==> event.req.policy == c.plan.signerGuard)
    case OnChain(tx) =>
      Timely(g.world, tx) && LimitsKept(g.world, tx) && (tx.call.Pay? ==> Step(g.world, tx).1.Reverted?)
    case PayTicket(i, caller, nowMs, _, _) =>
      && i < |g.guard.signed| && g.guard.signed[i] !in g.paid
      && g.world.clockMs <= nowMs < Calendar.YEAR_10000 && caller != g.world.self
      && Calendar.DayUtc(nowMs) == Some(g.guard.signed[i].scope.day)
      && g.guard.signed[i].amount < U256_LIMIT
  }

  function PayTx(g: Gates, e: GateEvent): Tx
    requires e.PayTicket? && e.index < |g.guard.signed| && g.guard.signed[e.index].amount < U256_LIMIT
  {
    Tx(e.caller, e.nowMs, Pay(e.receiver, g.guard.signed[e.index].amount, e.hash))
  }

  ghost function Next(c: Config, g: Gates, e: GateEvent): Gates
    requires SharedCaps(c) && Allowed(c, g, e)
  {
    match e
    case AtGuard(event) => g.(guard := SignerGuards.Next(c.signer, g.guard, event))
    case OnChain(tx) => g.(world := Step(g.world, tx).0)
    case PayTicket(i, _, _, _, _) =>
      var (world, outcome) := Step(g.world, PayTx(g, e));
      g.(world := world, paid := if outcome == Accepted then g.paid + [g.guard.signed[i]] else g.paid)
  }

  ghost predicate AllAllowed(c: Config, g: Gates, events: seq<GateEvent>)
    requires SharedCaps(c)
    decreases |events|
  {
    events == [] || (Allowed(c, g, events[0]) && AllAllowed(c, Next(c, g, events[0]), events[1..]))
  }

  ghost function Run(c: Config, g: Gates, events: seq<GateEvent>): Gates
    requires SharedCaps(c) && AllAllowed(c, g, events)
    decreases |events|
  {
    if events == [] then g else Run(c, Next(c, g, events[0]), events[1..])
  }

  // ---- The coupling ----

  function ScopeOn(c: Config, day: string): Scope {
    Scope(c.signer.role, c.signer.pk, c.plan.vault.cep18Contract, day)
  }

  /** Every ticket is within the single cap and keyed on the one token of the plan. */
  predicate TicketsFit(c: Config, ts: seq<Ticket>)
    requires SharedCaps(c)
  {
    forall i :: 0 <= i < |ts| ==> ts[i].amount <= MaxSingle(c) && ts[i].scope == ScopeOn(c, ts[i].scope.day)
  }

  /** Payment by payment, the history and the spent tickets agree on amount and day. */
  predicate Matches(history: seq<Payment>, paid: seq<Ticket>) {
    && |history| == |paid|
    && forall i :: 0 <= i < |paid| ==>
        && history[i].amount == paid[i].amount
        && history[i].atMs < Calendar.YEAR_10000
        && Calendar.DayUtc(history[i].atMs) == Some(paid[i].scope.day)
  }

  ghost predicate Coupled(c: Config, g: Gates)
    requires SharedCaps(c)
  {
    && Sound(g.guard, DailyCap(c))
    && g.world.policy.maxSingle == MaxSingle(c) && g.world.policy.dailyLimit == DailyCap(c)
    && TicketsFit(c, Outstanding(g.guard))
    && Matches(g.world.history, g.paid)
    && DistinctIntents(g.paid)
    && (forall i :: 0 <= i < |g.paid| ==> g.paid[i] in g.guard.signed)
  }

  lemma GuardKeepsTicketsFit(c: Config, s: Guard, e: Event)
    requires SharedCaps(c) && TicketsFit(c, Outstanding(s)) && EventFits(s, e)
    requires e.Begin? ==> e.req.policy == c.plan.signerGuard
    ensures TicketsFit(c, Outstanding(SignerGuards.Next(c.signer, s, e)))
    ensures |s.signed| <= |SignerGuards.Next(c.signer, s, e).signed|
    ensures SignerGuards.Next(c.signer, s, e).signed[..|s.signed|] == s.signed
  {
    hide SchemaAccepts, Used, AllDigits, ValueOf, Calendar.DayUtc;
    match e
    case Begin(req, nowMs, id) =>
      BeginKeepsTicketsFit(c, s, req, nowMs, id);
    case SignReturned(i) =>
      TicketsFitAfterMove(c, s, i);
    case SignThrew(i) =>
      TicketsFitAfterDrop(c, s, i);
    case _ =>
  }

  lemma BeginKeepsTicketsFit(c: Config, s: Guard, req: SignRequest, nowMs: int, id: string)
    requires SharedCaps(c) && TicketsFit(c, Outstanding(s)) && req.policy == c.plan.signerGuard
    ensures TicketsFit(c, Outstanding(Authorize(c.signer, s, req, nowMs, id).0))
    ensures Authorize(c.signer, s, req, nowMs, id).0.signed == s.signed
  {
    var (s', r) := Authorize(c.signer, s, req, nowMs, id);
    if r.Signing? {
      SigningMeansAllowed(c.signer, s, req, nowMs, id);
      hide Authorize, SchemaAccepts, ValueOf, Calendar.DayUtc;
      assert req.token == c.plan.vault.cep18Contract;
      PendingGrows(c.signer, s, req, nowMs, id);
    }
  }

  lemma PendingGrows(signer: Signer, s: Guard, req: SignRequest, nowMs: int, id: string)
    ensures var (s', r) := Authorize(signer, s, req, nowMs, id);
      s'.signed == s.signed && (r.Signing? ==> Outstanding(s') == Outstanding(s) + [r.ticket])
  {
    hide CheckPolicyRules, ValueOf, AllDigits, Used, Calendar.DayUtc;
    var (s', r) := Authorize(signer, s, req, nowMs, id);
    if r.Signing? {
      assert s'.pending == s.pending + [r.ticket];
      assert s.signed + (s.pending + [r.ticket]) == Outstanding(s) + [r.ticket];
    }
  }

  lemma TicketsFitAfterMove(c: Config, s: Guard, i: nat)
    requires SharedCaps(c) && TicketsFit(c, Outstanding(s)) && i < |s.pending|
    ensures TicketsFit(c, s.signed + [s.pending[i]] + Without(s.pending, i))
  {
    var ts, ts' := Outstanding(s), s.signed + [s.pending[i]] + Without(s.pending, i);
    var n := |s.signed|;
    forall a | 0 <= a < |ts'|
      ensures ts'[a] == ts[if a < n then a else if a == n then n + i else if a <= n + i then a - 1 else a] {}
  }

  lemma TicketsFitAfterDrop(c: Config, s: Guard, i: nat)
    requires SharedCaps(c) && TicketsFit(c, Outstanding(s)) && i < |s.pending|
    ensures TicketsFit(c, s.signed + Without(s.pending, i))
  {
    var ts, ts' := Outstanding(s), s.signed + Without(s.pending, i);
    forall a | 0 <= a < |ts'| ensures ts'[a] == ts[if a < |s.signed| + i then a else a + 1] {}
  }

  /** The vault's day sum is the sum of the tickets spent on that day: equal day strings are equal day indices. */
  lemma {:induction false} DaySpendIsTicketSum(c: Config, history: seq<Payment>, paid: seq<Ticket>, nowMs: nat)
    requires SharedCaps(c) && Matches(history, paid) && TicketsFit(c, paid) && nowMs < Calendar.YEAR_10000
    ensures Calendar.DayUtc(nowMs).Some?
    ensures SpentOn(history, Day(nowMs)) == Amount(paid, ScopeOn(c, Calendar.DayUtc(nowMs).value))
  {
    hide Calendar.DayUtc;
    DayUtcDefined(nowMs);
    if history != [] {
      var h, p := history[..|history| - 1], paid[..|paid| - 1];
      DaySpendIsTicketSum(c, h, p, nowMs);
      Calendar.SameDayString(history[|history| - 1].atMs, nowMs);
    }
  }

  lemma DayUtcDefined(nowMs: nat)
    requires nowMs < Calendar.YEAR_10000
    ensures Calendar.DayUtc(nowMs).Some?
  {
  }

  lemma {:induction false} AmountOfMembers(t: Table, ts: seq<Ticket>, all: seq<Ticket>, scope: Scope)
    requires AllBacked(t, all) && DistinctIntents(ts) && forall i :: 0 <= i < |ts| ==> ts[i] in all
    ensures Amount(ts, scope) <= Used(t, scope)
  {
    BackedAmountWithinUsed(t, ts, scope);
  }

  /** On every day, what the vault has paid is at most what the ledger counts as used. */
  lemma VaultSpendWithinLedger(c: Config, g: Gates, nowMs: nat)
    requires SharedCaps(c) && Coupled(c, g) && nowMs < Calendar.YEAR_10000
    ensures Calendar.DayUtc(nowMs).Some?
    ensures SpentOn(g.world.history, Day(nowMs)) <= Used(g.guard.table, ScopeOn(c, Calendar.DayUtc(nowMs).value)) <= DailyCap(c)
  {
    hide Calendar.DayUtc, SpentOn, Amount;
    PaidFit(c, g);
    DaySpendIsTicketSum(c, g.world.history, g.paid, nowMs);
    var scope := ScopeOn(c, Calendar.DayUtc(nowMs).value);
    AmountOfMembers(g.guard.table, g.paid, Outstanding(g.guard), scope);
    assert Used(g.guard.table, scope) <= DailyCap(c);
  }

  lemma PaidFit(c: Config, g: Gates)
    requires SharedCaps(c) && Coupled(c, g)
    ensures TicketsFit(c, g.paid)
    ensures forall i :: 0 <= i < |g.paid| ==> g.paid[i] in Outstanding(g.guard)
  {
    forall i | 0 <= i < |g.paid| ensures g.paid[i] in Outstanding(g.guard) {
      assert g.paid[i] in g.guard.signed;
    }
  }

  /** Adding the ticket about to be spent still fits under the cap: it is a ticket not yet counted. */
  lemma NextTicketFits(c: Config, g: Gates, e: GateEvent)
    requires SharedCaps(c) && Coupled(c, g) && e.PayTicket? && Allowed(c, g, e)
    ensures SpentOn(g.world.history, Day(e.nowMs)) + g.guard.signed[e.index].amount <= DailyCap(c)
    ensures g.guard.signed[e.index].amount <= MaxSingle(c)
    ensures DistinctIntents(g.paid + [g.guard.signed[e.index]])
  {
    hide Calendar.DayUtc, SpentOn;
    var k := g.guard.signed[e.index];
    PaidFit(c, g);
    assert Outstanding(g.guard)[e.index] == k;
    DaySpendIsTicketSum(c, g.world.history, g.paid, e.nowMs);
    var spent := g.paid + [k];
    NewTicketHasNewIntent(g, k, e.index);
    AmountOfMembers(g.guard.table, spent, Outstanding(g.guard), k.scope);
    assert spent[..|spent| - 1] == g.paid;
    assert Used(g.guard.table, k.scope) <= DailyCap(c);
  }

  lemma NewTicketHasNewIntent(g: Gates, k: Ticket, index: nat)
    requires DistinctIntents(Outstanding(g.guard)) && DistinctIntents(g.paid)
    requires forall i :: 0 <= i < |g.paid| ==> g.paid[i] in g.guard.signed
    requires index < |g.guard.signed| && g.guard.signed[index] == k && k !in g.paid
    ensures DistinctIntents(g.paid + [k])
  {
    forall i | 0 <= i < |g.paid| ensures g.paid[i].intent != k.intent {
      var j :| 0 <= j < |g.guard.signed| && g.guard.signed[j] == g.paid[i];
      assert Outstanding(g.guard)[j] == g.paid[i] && Outstanding(g.guard)[index] == k;
      assert j != index;
    }
  }

  lemma PayKeepsCoupled(c: Config, g: Gates, e: GateEvent)
    requires SharedCaps(c) && Coupled(c, g) && e.PayTicket? && Allowed(c, g, e)
    ensures Coupled(c, Next(c, g, e))
  {
    hide Calendar.DayUtc, SpentOn, TotalPaid, PayRefusal, Used;
    NextTicketFits(c, g, e);
  }

  lemma NextKeepsCoupled(c: Config, g: Gates, e: GateEvent)
    requires SharedCaps(c) && Coupled(c, g) && Allowed(c, g, e)
    ensures Coupled(c, Next(c, g, e))
  {
    hide Calendar.DayUtc, SpentOn, TotalPaid, PayRefusal, Used, Authorize;
    match e
    case AtGuard(event) =>
      NextKeepsSound(c.signer, g.guard, event, DailyCap(c));
      GuardKeepsTicketsFit(c, g.guard, event);
      var s' := SignerGuards.Next(c.signer, g.guard, event);
      forall i | 0 <= i < |g.paid| ensures g.paid[i] in s'.signed {
        var j :| 0 <= j < |g.guard.signed| && g.guard.signed[j] == g.paid[i];
        assert s'.signed[..|g.guard.signed|][j] == s'.signed[j];
      }
    case OnChain(tx) =>
    case PayTicket(_, _, _, _, _) =>
      PayKeepsCoupled(c, g, e);
  }

  /**
   * In every joint run the vault's day spend stays within the ledger's used sum, and the next
   * payment of a signed ticket is never refused for its amount or for the day limit.
   */
  lemma {:induction false} LedgerOverApproximatesVault(c: Config, g: Gates, events: seq<GateEvent>, next: GateEvent)
    requires SharedCaps(c) && Coupled(c, g) && AllAllowed(c, g, events)
    requires next.PayTicket? && Allowed(c, Run(c, g, events), next)
    ensures var g' := Run(c, g, events);
      && Coupled(c, g')
      && SpentOn(g'.world.history, Day(next.nowMs)) <= Used(g'.guard.table, g'.guard.signed[next.index].scope) <= DailyCap(c)
      && Step(g'.world, PayTx(g', next)).1 !in {Reverted(AmountAboveMax), Reverted(Revert.DayLimitExceeded)}
    decreases |events|
  {
    hide Calendar.DayUtc, SpentOn, TotalPaid, Used;
    if events == [] {
      VaultSpendWithinLedger(c, g, next.nowMs);
      NextTicketFits(c, g, next);
      assert Outstanding(g.guard)[next.index] == g.guard.signed[next.index];
    } else {
      NextKeepsCoupled(c, g, events[0]);
      LedgerOverApproximatesVault(c, Next(c, g, events[0]), events[1..], next);
    }
  }

  // ---- From the environment to the end of a run ----

  const IDLE: Guard := Guard(map[], [], [])

  /** Two freshly configured gates start coupled. */
  lemma FreshGatesCoupled(c: Config, world: World)
    requires SharedCaps(c) && world.history == []
    requires world.policy.maxSingle == MaxSingle(c) && world.policy.dailyLimit == DailyCap(c)
    ensures Coupled(c, Gates(IDLE, world, []))
  {
    forall scope ensures Used(map[], scope) <= DailyCap(c) {
      assert LiveAmounts(map[], scope) == map[];
    }
  }

  /** The vault a seed plan installs, with the plan's own caps. */
  function Installed(c: Config, self: Address, balances: map<Address, nat>, owner: Address, nowMs: nat, validUntilMs: nat)
    : Result<World, Revert>
    requires SharedCaps(c)
  {
    Install(self, balances, owner, nowMs, MaxSingle(c), DailyCap(c), validUntilMs)
  }

  /**
   * End to end: both gates configured by one seed plan, the vault freshly installed and the
   * ledger empty. After every allowed run the vault's day spend is within the ledger's sum, and
   * paying the next signed ticket meets neither of the vault's limits.
   */
  lemma SeededGatesAgree(
      e: Env, signer: Signer, self: Address, balances: map<Address, nat>, owner: Address, installMs: nat, validUntilMs: nat,
      events: seq<GateEvent>, next: GateEvent)
    requires BuildSeedPlan(e).Ok? && ValueOf(BuildSeedPlan(e).value.signerGuard.perDayCapAtomic) < U256_LIMIT
    requires var c := Config(BuildSeedPlan(e).value, signer);
      Installed(c, self, balances, owner, installMs, validUntilMs).Ok?
      && var g := Gates(IDLE, Installed(c, self, balances, owner, installMs, validUntilMs).value, []);
      AllAllowed(c, g, events) && next.PayTicket? && Allowed(c, Run(c, g, events), next)
    ensures var c := Config(BuildSeedPlan(e).value, signer);
      var g' := Run(c, Gates(IDLE, Installed(c, self, balances, owner, installMs, validUntilMs).value, []), events);
      && SpentOn(g'.world.history, Day(next.nowMs)) <= Used(g'.guard.table, g'.guard.signed[next.index].scope) <= DailyCap(c)
      && Step(g'.world, PayTx(g', next)).1 !in {Reverted(AmountAboveMax), Reverted(Revert.DayLimitExceeded)}
  {
    var c := Config(BuildSeedPlan(e).value, signer);
    var world := Installed(c, self, balances, owner, installMs, validUntilMs).value;
    assert world.history == [] && world.policy.maxSingle == MaxSingle(c) && world.policy.dailyLimit == DailyCap(c);
    hide *;
    FreshGatesCoupled(c, world);
    LedgerOverApproximatesVault(c, Gates(IDLE, world, []), events, next);
  }
}
