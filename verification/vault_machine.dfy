/**
 * The on-chain gate as an abstract machine. Its only spending state is the history of accepted
 * payments; the counters, day index and used-hash flags that the contract stores are derived
 * from it (PolicyVaultContract shows that the stored ones always agree).
 */
module VaultMachine {
  import opened Wrappers
  import opened MapSums
  import Calendar

  const U256_LIMIT: nat := 0x1_0000000000000000_0000000000000000_0000000000000000_0000000000000000

  type U256 = n: nat | n < U256_LIMIT witness 0

  /** An Odra address: an account, or a contract named by its package hash; the hex is lower-case. */
  datatype Address = Account(hex: string) | Package(hex: string)

  datatype Revert =
    | NotOwner
    | AgentNotAllowed
    | ReceiverNotAllowed
    | AmountAboveMax
    | DayLimitExceeded
    | VaultExpired
    | NonceAlreadyUsed
    | InsufficientVaultBalance
    | ArithmeticOverflow
    | InvalidValidUntil
    | Cep18CallFailed
    | TokenCannotTargetSelf
    | TokenInsufficientBalance

  /** The user-error discriminant that a revert surfaces on chain. */
  function Code(e: Revert): nat {
    match e
    case NotOwner => 1
    case AgentNotAllowed => 2
    case ReceiverNotAllowed => 3
    case AmountAboveMax => 4
    case DayLimitExceeded => 5
    case VaultExpired => 6
    case NonceAlreadyUsed => 7
    case InsufficientVaultBalance => 8
    case ArithmeticOverflow => 9
    case InvalidValidUntil => 10
    case Cep18CallFailed => 11
    case TokenCannotTargetSelf => 60017
    case TokenInsufficientBalance => 60001
  }

  datatype Outcome = Accepted | Reverted(error: Revert)

  /** A Paid event with the block time it was emitted at. */
  datatype Payment = Payment(agent: Address, receiver: Address, amount: U256, hash: string, atMs: nat)

  datatype Policy = Policy(
    owner: Address,
    agents: set<Address>,
    receivers: set<Address>,
    maxSingle: U256,
    dailyLimit: U256,
    validUntilMs: nat)

  /** The vault, its payment history, the token it pays in, and the latest block time seen. */
  datatype World = World(
    self: Address,
    policy: Policy,
    history: seq<Payment>,
    balances: map<Address, nat>,
    deposited: nat,
    clockMs: nat)

  datatype Call =
    | AllowAgent(agent: Address)
    | RevokeAgent(agent: Address)
    | AllowReceiver(receiver: Address)
    | RevokeReceiver(receiver: Address)
    | SetLimits(maxSingle: U256, dailyLimit: U256)
    | SetValidUntil(untilMs: nat)
    | ExpireNow
    | Pay(receiver: Address, amount: U256, hash: string)
    | TokenTransfer(to: Address, amount: U256)

  datatype Tx = Tx(caller: Address, nowMs: nat, call: Call)

  // ---- What a history says ----

  /** new_day: the day index of a block time. */
  function Day(ms: nat): nat {
    Calendar.DayOf(ms)
  }

  function TotalPaid(h: seq<Payment>): nat {
    if h == [] then 0 else TotalPaid(h[..|h| - 1]) + h[|h| - 1].amount
  }

  /** Amount paid on one UTC day. */
  function SpentOn(h: seq<Payment>, day: nat): nat {
    if h == [] then 0
    else SpentOn(h[..|h| - 1], day) + (if Day(h[|h| - 1].atMs) == day then h[|h| - 1].amount else 0)
  }

  predicate HashUsed(h: seq<Payment>, hash: string) {
    exists i :: 0 <= i < |h| && h[i].hash == hash
  }

  // ---- The token ----

  function Balance(b: map<Address, nat>, a: Address): nat {
    if a in b then b[a] else 0
  }

  function Transfer(b: map<Address, nat>, from: Address, to: Address, amount: nat): Result<map<Address, nat>, Revert> {
    if from == to then Err(TokenCannotTargetSelf)
    else if Balance(b, from) < amount then Err(TokenInsufficientBalance)
    else Ok(b[from := Balance(b, from) - amount][to := Balance(b, to) + amount])
  }

  // ---- Steps ----

  predicate LimitsRejected(maxSingle: nat, dailyLimit: nat) {
    maxSingle == 0 || dailyLimit == 0 || maxSingle > dailyLimit
  }

  /** init, run once by the deployer. */
  function Install(
      self: Address, balances: map<Address, nat>, caller: Address, nowMs: nat,
      maxSingle: U256, dailyLimit: U256, validUntilMs: nat): Result<World, Revert> {
    if LimitsRejected(maxSingle, dailyLimit) then Err(AmountAboveMax)
    else if validUntilMs <= nowMs then Err(InvalidValidUntil)
    else Ok(World(
        self, Policy(caller, {}, {}, maxSingle, dailyLimit, validUntilMs), [], balances,
        Balance(balances, self), nowMs))
  }

  /** The first reason to refuse a payment, judged from the history alone. */
  function PayRefusal(w: World, caller: Address, nowMs: nat, receiver: Address, amount: U256, hash: string): Option<Revert> {
    var spent := SpentOn(w.history, Day(nowMs)) + amount;
    if caller !in w.policy.agents then Some(AgentNotAllowed)
    else if receiver !in w.policy.receivers then Some(ReceiverNotAllowed)
    else if nowMs >= w.policy.validUntilMs then Some(VaultExpired)
    else if amount > w.policy.maxSingle then Some(AmountAboveMax)
    else if spent >= U256_LIMIT then Some(ArithmeticOverflow)
    else if spent > w.policy.dailyLimit then Some(DayLimitExceeded)
    else if HashUsed(w.history, hash) then Some(NonceAlreadyUsed)
    else if TotalPaid(w.history) + amount >= U256_LIMIT then Some(ArithmeticOverflow)
    else if Balance(w.balances, w.self) < amount then Some(InsufficientVaultBalance)
    else if receiver == w.self then Some(TokenCannotTargetSelf)
    else None
  }

  function StepPolicy(w: World, tx: Tx): Result<Policy, Revert>
    requires !tx.call.Pay? && !tx.call.TokenTransfer?
  {
    var p := w.policy;
    if tx.caller != p.owner then Err(NotOwner)
    else match tx.call
      case AllowAgent(a) => Ok(p.(agents := p.agents + {a}))
      case RevokeAgent(a) => Ok(p.(agents := p.agents - {a}))
      case AllowReceiver(r) => Ok(p.(receivers := p.receivers + {r}))
      case RevokeReceiver(r) => Ok(p.(receivers := p.receivers - {r}))
      case SetLimits(m, d) => if LimitsRejected(m, d) then Err(AmountAboveMax) else Ok(p.(maxSingle := m, dailyLimit := d))
      case SetValidUntil(t) => if t <= tx.nowMs then Err(InvalidValidUntil) else Ok(p.(validUntilMs := t))
      case ExpireNow => Ok(p.(validUntilMs := tx.nowMs))
  }

  function Step(w0: World, tx: Tx): (World, Outcome) {
    var w := w0.(clockMs := tx.nowMs);
    match tx.call
    case Pay(receiver, amount, hash) =>
      (match PayRefusal(w, tx.caller, tx.nowMs, receiver, amount, hash)
       case Some(e) => (w, Reverted(e))
       case None =>
         var b := w.balances[w.self := Balance(w.balances, w.self) - amount];
         (w.(history := w.history + [Payment(tx.caller, receiver, amount, hash, tx.nowMs)],
             balances := b[receiver := Balance(w.balances, receiver) + amount]),
          Accepted))
    case TokenTransfer(to, amount) =>
      (match Transfer(w.balances, tx.caller, to, amount)
       case Err(e) => (w, Reverted(e))
       case Ok(b) =>
         (w.(balances := b, deposited := w.deposited + (if to == w.self then amount else 0)), Accepted))
    case _ =>
      (match StepPolicy(w, tx)
       case Err(e) => (w, Reverted(e))
       case Ok(p) => (w.(policy := p), Accepted))
  }

  /** What the chain guarantees of a transaction: time never runs back, and contracts do not originate calls. */
  predicate Timely(w: World, tx: Tx) {
    w.clockMs <= tx.nowMs && tx.caller != w.self
  }

  ghost predicate TimelyAll(w: World, txs: seq<Tx>)
    decreases |txs|
  {
    txs == [] || (Timely(w, txs[0]) && TimelyAll(Step(w, txs[0]).0, txs[1..]))
  }

  ghost function Run(w: World, txs: seq<Tx>): World
    decreases |txs|
  {
    if txs == [] then w else Run(Step(w, txs[0]).0, txs[1..])
  }

  // ---- What every run keeps ----

  predicate DistinctHashes(h: seq<Payment>) {
    forall i, j :: 0 <= i < j < |h| ==> h[i].hash != h[j].hash
  }

  ghost predicate Good(w: World) {
    && 0 < w.policy.maxSingle <= w.policy.dailyLimit
    && TotalPaid(w.history) < U256_LIMIT
    && DistinctHashes(w.history)
    && (forall i :: 0 <= i < |w.history| ==> w.history[i].atMs <= w.clockMs && w.history[i].receiver != w.self)
    && Balance(w.balances, w.self) + TotalPaid(w.history) == w.deposited
  }

  lemma InstallIsGood(
      self: Address, balances: map<Address, nat>, caller: Address, nowMs: nat,
      maxSingle: U256, dailyLimit: U256, validUntilMs: nat)
    ensures var r := Install(self, balances, caller, nowMs, maxSingle, dailyLimit, validUntilMs);
            r.Ok? ==> Good(r.value)
  {
  }

  lemma HistoryGrows(h: seq<Payment>, p: Payment)
    ensures TotalPaid(h + [p]) == TotalPaid(h) + p.amount
    ensures forall d :: SpentOn(h + [p], d) == SpentOn(h, d) + (if Day(p.atMs) == d then p.amount else 0)
  {
    assert (h + [p])[..|h + [p]| - 1] == h;
  }

  lemma StepKeepsGood(w: World, tx: Tx)
    requires Good(w) && Timely(w, tx)
    ensures Good(Step(w, tx).0)
  {
    hide PayRefusal, TotalPaid, DistinctHashes;
    match tx.call
    case Pay(receiver, amount, hash) =>
      if PayRefusal(w.(clockMs := tx.nowMs), tx.caller, tx.nowMs, receiver, amount, hash) == None {
        PayKeepsGood(w, tx);
      }
    case TokenTransfer(to, amount) =>
      TransferKeepsGood(w, tx);
    case _ =>
  }

  lemma TransferKeepsGood(w: World, tx: Tx)
    requires Good(w) && Timely(w, tx) && tx.call.TokenTransfer?
    ensures Good(Step(w, tx).0)
  {
    hide TotalPaid, DistinctHashes;
  }

  lemma PayKeepsGood(w: World, tx: Tx)
    requires Good(w) && Timely(w, tx) && tx.call.Pay?
    requires PayRefusal(w.(clockMs := tx.nowMs), tx.caller, tx.nowMs, tx.call.receiver, tx.call.amount, tx.call.hash) == None
    ensures Good(Step(w, tx).0)
  {
    var w' := Step(w, tx).0;
    var p := Payment(tx.caller, tx.call.receiver, tx.call.amount, tx.call.hash, tx.nowMs);
    hide SpentOn, TotalPaid;
    assert w'.history == w.history + [p];
    HistoryGrows(w.history, p);
    assert DistinctHashes(w'.history);
    assert Balance(w'.balances, w.self) == Balance(w.balances, w.self) - p.amount;
  }

  lemma StepKeepsSupply(w: World, tx: Tx)
    ensures Total(Step(w, tx).0.balances) == Total(w.balances)
  {
    if tx.call.Pay? && Step(w, tx).1 == Accepted {
      MoveKeepsTotal(w.balances, w.self, tx.call.receiver, tx.call.amount);
    } else if tx.call.TokenTransfer? && Step(w, tx).1 == Accepted {
      MoveKeepsTotal(w.balances, tx.caller, tx.call.to, tx.call.amount);
    }
  }

  lemma MoveKeepsTotal(b: map<Address, nat>, from: Address, to: Address, amount: nat)
    requires from != to && amount <= Balance(b, from)
    ensures Total(b[from := Balance(b, from) - amount][to := Balance(b, to) + amount]) == Total(b)
  {
    TotalUpdate(b, from, Balance(b, from) - amount);
    TotalUpdate(b[from := Balance(b, from) - amount], to, Balance(b, to) + amount);
  }

  /**
   * Every run: distinct hashes, a total that never wraps, a balance that is deposits less payments,
   * ordered positive limits, and a conserved token supply.
   */
  lemma {:induction false} RunKeepsGood(w: World, txs: seq<Tx>)
    requires Good(w) && TimelyAll(w, txs)
    ensures Good(Run(w, txs)) && Total(Run(w, txs).balances) == Total(w.balances)
    decreases |txs|
  {
    if txs != [] {
      StepKeepsGood(w, txs[0]);
      StepKeepsSupply(w, txs[0]);
      RunKeepsGood(Step(w, txs[0]).0, txs[1..]);
    }
  }

  /** A reverted call changes nothing but the time. */
  lemma RevertChangesNothing(w: World, tx: Tx)
    requires Step(w, tx).1.Reverted?
    ensures Step(w, tx).0 == w.(clockMs := tx.nowMs)
  {
  }

  /** Everything a payment must satisfy at the moment it is made, with what it leaves counted in. */
  predicate Permitted(w: World, tx: Tx)
    requires tx.call.Pay?
  {
    var c := tx.call;
    var h := w.history + [Payment(tx.caller, c.receiver, c.amount, c.hash, tx.nowMs)];
    && tx.caller in w.policy.agents && c.receiver in w.policy.receivers && c.receiver != w.self
    && tx.nowMs < w.policy.validUntilMs
    && c.amount <= w.policy.maxSingle && SpentOn(h, Day(tx.nowMs)) <= w.policy.dailyLimit
    && TotalPaid(h) < U256_LIMIT
    && !HashUsed(w.history, c.hash)
    && c.amount <= Balance(w.balances, w.self)
  }

  /** pay accepts exactly the permitted payments: the day's total, this one included, is within the limit in force. */
  lemma AcceptedMeansPermitted(w: World, tx: Tx)
    requires tx.call.Pay?
    ensures Step(w, tx).1 == Accepted <==> Permitted(w, tx)
    ensures Permitted(w, tx) ==>
      Step(w, tx).0.history == w.history + [Payment(tx.caller, tx.call.receiver, tx.call.amount, tx.call.hash, tx.nowMs)]
      && Balance(Step(w, tx).0.balances, w.self) == Balance(w.balances, w.self) - tx.call.amount
      && Balance(Step(w, tx).0.balances, tx.call.receiver) == Balance(w.balances, tx.call.receiver) + tx.call.amount
  {
    NoRefusalMeansPermitted(w, tx);
    hide PayRefusal, Permitted;
  }

  lemma NoRefusalMeansPermitted(w: World, tx: Tx)
    requires tx.call.Pay?
    ensures PayRefusal(w.(clockMs := tx.nowMs), tx.caller, tx.nowMs, tx.call.receiver, tx.call.amount, tx.call.hash) == None
      <==> Permitted(w, tx)
    ensures Permitted(w, tx) ==> tx.call.receiver != w.self
  {
    var c := tx.call;
    var h := w.history + [Payment(tx.caller, c.receiver, c.amount, c.hash, tx.nowMs)];
    HistoryGrows(w.history, h[|w.history|]);
    hide SpentOn, TotalPaid, HashUsed, Day, Balance;
    assert SpentOn(h, Day(tx.nowMs)) == SpentOn(w.history, Day(tx.nowMs)) + c.amount;
    assert TotalPaid(h) == TotalPaid(w.history) + c.amount;
  }

  /** A payload hash pays at most once, however the run continues. */
  lemma {:induction false} HashPaysOnce(w: World, txs: seq<Tx>, tx: Tx)
    requires tx.call.Pay? && HashUsed(w.history, tx.call.hash)
    ensures HashUsed(Run(w, txs).history, tx.call.hash)
    ensures Step(Run(w, txs), tx).1 != Accepted
    decreases |txs|
  {
    if txs != [] {
      var next := Step(w, txs[0]).0;
      var i :| 0 <= i < |w.history| && w.history[i].hash == tx.call.hash;
      assert next.history[i] == w.history[i];
      HashPaysOnce(next, txs[1..], tx);
    }
  }

  // ---- Spending bounds over whole runs ----

  /** At every state of the run, the daily limit in force is at or below a bound. */
  ghost predicate LimitWithin(w: World, txs: seq<Tx>, bound: nat)
    decreases |txs|
  {
    w.policy.dailyLimit <= bound && (txs == [] || LimitWithin(Step(w, txs[0]).0, txs[1..], bound))
  }

  /** The payments one transaction accepts: at most one. */
  function PaidBy(w: World, tx: Tx): (h: seq<Payment>)
    ensures Step(w, tx).0.history == w.history + h
    ensures h == [] || (|h| == 1 && h[0].atMs == tx.nowMs && SpentOn(w.history + h, Day(tx.nowMs)) <= w.policy.dailyLimit)
  {
    var h := Step(w, tx).0.history;
    assert h[..|w.history|] == w.history;
    if h != w.history then
      HistoryGrows(w.history, h[|w.history|]);
      [h[|w.history|]]
    else []
  }

  /** The payments a run accepts, apart from what its start state had paid before. */
  ghost function PaidIn(w: World, txs: seq<Tx>): (h: seq<Payment>)
    ensures Run(w, txs).history == w.history + h
    decreases |txs|
  {
    if txs == [] then [] else
      var first, rest := PaidBy(w, txs[0]), PaidIn(Step(w, txs[0]).0, txs[1..]);
      assert w.history + first + rest == w.history + (first + rest);
      first + rest
  }

  lemma {:induction false} SpentConcat(a: seq<Payment>, b: seq<Payment>, day: nat)
    ensures SpentOn(a + b, day) == SpentOn(a, day) + SpentOn(b, day)
  {
    if b == [] {
      assert a + b == a;
    } else {
      SpentConcat(a, b[..|b| - 1], day);
      assert (a + b)[..|a + b| - 1] == a + b[..|b| - 1];
    }
  }

  ghost predicate DaysWithin(h: seq<Payment>, bound: nat) {
    forall d: nat :: SpentOn(h, d) <= bound
  }

  /** A day on which the run pays at all stays within the bound, what was paid before the run included. */
  lemma {:induction false} PaidDayWithinLimit(w: World, txs: seq<Tx>, bound: nat, day: nat)
    requires LimitWithin(w, txs, bound)
    ensures SpentOn(PaidIn(w, txs), day) == 0 || SpentOn(Run(w, txs).history, day) <= bound
    decreases |txs|
  {
    if txs != [] {
      var next, first := Step(w, txs[0]).0, PaidBy(w, txs[0]);
      var rest := PaidIn(next, txs[1..]);
      PaidDayWithinLimit(next, txs[1..], bound, day);
      SpentConcat(first, rest, day);
      SpentConcat(next.history, rest, day);
      if first != [] && Day(txs[0].nowMs) != day {
        assert first == [first[0]] && first[..0] == [];
      }
      hide SpentOn, Step;
    }
  }

  /** From any state, whatever it paid before: no day of a run pays more than the largest limit in force during it. */
  lemma EachDayWithinLimit(w: World, txs: seq<Tx>, bound: nat)
    requires LimitWithin(w, txs, bound)
    ensures DaysWithin(PaidIn(w, txs), bound)
  {
    forall d: nat ensures SpentOn(PaidIn(w, txs), d) <= bound {
      PaidDayWithinLimit(w, txs, bound, d);
      SpentConcat(w.history, PaidIn(w, txs), d);
    }
  }

  /** Payments of the run happen between its first and its last block time. */
  ghost predicate PaidBetween(h: seq<Payment>, fromMs: nat, toMs: nat) {
    forall i :: 0 <= i < |h| ==> fromMs <= h[i].atMs <= toMs
  }

  lemma {:induction false} PaymentsInsideRun(w: World, txs: seq<Tx>)
    requires TimelyAll(w, txs)
    ensures PaidBetween(PaidIn(w, txs), w.clockMs, Run(w, txs).clockMs) && w.clockMs <= Run(w, txs).clockMs
    decreases |txs|
  {
    if txs != [] {
      PaymentsInsideRun(Step(w, txs[0]).0, txs[1..]);
    }
  }

  function SpentOnDays(h: seq<Payment>, first: nat, count: nat): nat {
    if count == 0 then 0 else SpentOnDays(h, first, count - 1) + SpentOn(h, first + count - 1)
  }

  lemma {:induction false} SpentOnDaysGrows(h: seq<Payment>, p: Payment, first: nat, count: nat)
    ensures SpentOnDays(h + [p], first, count)
         == SpentOnDays(h, first, count) + (if first <= Day(p.atMs) < first + count then p.amount else 0)
  {
    HistoryGrows(h, p);
    if count > 0 {
      SpentOnDaysGrows(h, p, first, count - 1);
    }
  }

  lemma {:induction false} SpentOnNoDays(first: nat, count: nat)
    ensures SpentOnDays([], first, count) == 0
  {
    if count > 0 {
      SpentOnNoDays(first, count - 1);
    }
  }

  lemma {:induction false} TotalIsSumOfDays(h: seq<Payment>, first: nat, count: nat)
    requires forall i :: 0 <= i < |h| ==> first <= Day(h[i].atMs) < first + count
    ensures TotalPaid(h) == SpentOnDays(h, first, count)
  {
    if h == [] {
      SpentOnNoDays(first, count);
    } else {
      var front, last := h[..|h| - 1], h[|h| - 1];
      TotalIsSumOfDays(front, first, count);
      SpentOnDaysGrows(front, last, first, count);
      assert h == front + [last];
    }
  }

  lemma {:induction false} DaysBoundSum(h: seq<Payment>, first: nat, count: nat, bound: nat)
    requires DaysWithin(h, bound)
    ensures SpentOnDays(h, first, count) <= bound * count
  {
    if count > 0 {
      DaysBoundSum(h, first, count - 1, bound);
      assert SpentOn(h, first + count - 1) <= bound;
      assert bound * count == bound * (count - 1) + bound;
    }
  }

  /** A run pays at most the largest limit in force during it times the number of UTC days it spans. */
  lemma SpanBound(w: World, txs: seq<Tx>, bound: nat)
    requires TimelyAll(w, txs) && LimitWithin(w, txs, bound)
    ensures Day(w.clockMs) <= Day(Run(w, txs).clockMs)
    ensures TotalPaid(PaidIn(w, txs)) <= bound * (Day(Run(w, txs).clockMs) - Day(w.clockMs) + 1)
  {
    var paid, end := PaidIn(w, txs), Run(w, txs);
    EachDayWithinLimit(w, txs, bound);
    PaymentsInsideRun(w, txs);
    var first, count := Day(w.clockMs), Day(end.clockMs) - Day(w.clockMs) + 1;
    forall i | 0 <= i < |paid| ensures first <= Day(paid[i].atMs) < first + count {
      assert w.clockMs <= paid[i].atMs <= end.clockMs;
    }
    TotalIsSumOfDays(paid, first, count);
    DaysBoundSum(paid, first, count, bound);
  }

  /** Amount paid in the half-open interval [fromMs, toMs). */
  function SpentBetween(h: seq<Payment>, fromMs: nat, toMs: nat): nat {
    if h == [] then 0 else
      SpentBetween(h[..|h| - 1], fromMs, toMs) + (if fromMs <= h[|h| - 1].atMs < toMs then h[|h| - 1].amount else 0)
  }

  lemma {:induction false} WindowTouchesTwoDays(h: seq<Payment>, fromMs: nat)
    ensures SpentBetween(h, fromMs, fromMs + 86_400_000)
         <= SpentOn(h, Day(fromMs)) + SpentOn(h, Day(fromMs) + 1)
  {
    if h != [] {
      WindowTouchesTwoDays(h[..|h| - 1], fromMs);
    }
  }

  /** Any 24-hour window of any run pays at most twice the largest limit in force during it. */
  lemma WindowBound(w: World, txs: seq<Tx>, bound: nat, fromMs: nat)
    requires LimitWithin(w, txs, bound)
    ensures SpentBetween(PaidIn(w, txs), fromMs, fromMs + 86_400_000) <= 2 * bound
  {
    EachDayWithinLimit(w, txs, bound);
    WindowTouchesTwoDays(PaidIn(w, txs), fromMs);
  }

  /** The owner's set_limits, accepted, with a daily limit above the bound. */
  predicate SetsLimitAbove(owner: Address, tx: Tx, bound: nat) {
    tx.call.SetLimits? && tx.caller == owner && !LimitsRejected(tx.call.maxSingle, tx.call.dailyLimit) && tx.call.dailyLimit > bound
  }

  /** One call leaves the owner, and leaves the limit at or below a bound unless it sets it above. */
  lemma LimitMoves(w: World, tx: Tx)
    ensures Step(w, tx).0.policy.owner == w.policy.owner
    ensures forall bound: nat {:trigger SetsLimitAbove(w.policy.owner, tx, bound)} :: w.policy.dailyLimit <= bound ==>
      (Step(w, tx).0.policy.dailyLimit <= bound <==> !SetsLimitAbove(w.policy.owner, tx, bound))
  {
    hide PayRefusal;
  }

  /**
   * The limit in force moves only by an accepted set_limits, so a bound on the start's limit holds
   * over the run exactly when no accepted set_limits goes above it. The start's own limit is such
   * a bound while none raises it.
   */
  lemma {:induction false} LimitWithinExactly(w: World, txs: seq<Tx>, bound: nat)
    requires w.policy.dailyLimit <= bound
    ensures LimitWithin(w, txs, bound) <==> forall i :: 0 <= i < |txs| ==> !SetsLimitAbove(w.policy.owner, txs[i], bound)
    decreases |txs|
  {
    if txs != [] {
      var next := Step(w, txs[0]).0;
      LimitMoves(w, txs[0]);
      assert forall i :: 0 < i < |txs| ==> txs[i] == txs[1..][i - 1];
      assert forall i :: 0 <= i < |txs| - 1 ==> txs[1..][i] == txs[i + 1];
      hide Step, SetsLimitAbove;
      if next.policy.dailyLimit <= bound { LimitWithinExactly(next, txs[1..], bound); }
    }
  }
}
