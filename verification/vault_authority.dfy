/**
 * Who may change the vault's policy and who may be paid under it, said of whole calls and whole
 * runs: the owner's calls decide, and nobody else's.
 */
module VaultAuthority {
  import opened Wrappers
  import opened VaultMachine

  // ---- One call ----

  /** Any change of the policy is the owner's doing; the owner, the vault's address and, unless it is paid, the history never change. */
  lemma OnlyOwnerChangesPolicy(w: World, tx: Tx)
    ensures Step(w, tx).0.policy != w.policy ==> tx.caller == w.policy.owner && Step(w, tx).1 == Accepted
    ensures Step(w, tx).0.policy.owner == w.policy.owner && Step(w, tx).0.self == w.self
    ensures !tx.call.Pay? ==> Step(w, tx).0.history == w.history
    ensures !tx.call.Pay? && !tx.call.TokenTransfer? ==> Step(w, tx).0.balances == w.balances
  {
    hide PayRefusal;
  }

  datatype List = Agents | Receivers

  predicate Listed(w: World, list: List, a: Address) {
    match list
    case Agents => a in w.policy.agents
    case Receivers => a in w.policy.receivers
  }

  /** The owner's call that puts an address on a list, or takes it off. */
  predicate Allows(owner: Address, tx: Tx, list: List, a: Address) {
    tx.caller == owner && tx.call == (match list case Agents => AllowAgent(a) case Receivers => AllowReceiver(a))
  }

  predicate Revokes(owner: Address, tx: Tx, list: List, a: Address) {
    tx.caller == owner && tx.call == (match list case Agents => RevokeAgent(a) case Receivers => RevokeReceiver(a))
  }

  /** Listed afterwards: exactly if the owner just allowed it, or it was listed and the owner did not just revoke it. */
  lemma ListedAfterCall(w: World, tx: Tx, list: List, a: Address)
    ensures Listed(Step(w, tx).0, list, a)
      <==> Allows(w.policy.owner, tx, list, a) || (Listed(w, list, a) && !Revokes(w.policy.owner, tx, list, a))
  {
    hide PayRefusal;
  }

  /** The owner's set_limits with positive, ordered limits, and the owner's expiry in the future. */
  predicate SetsLimits(owner: Address, tx: Tx) {
    tx.caller == owner && tx.call.SetLimits? && 0 < tx.call.maxSingle <= tx.call.dailyLimit
  }

  predicate Extends(owner: Address, tx: Tx) {
    tx.caller == owner && tx.call.SetValidUntil? && tx.nowMs < tx.call.untilMs
  }

  predicate Expires(owner: Address, tx: Tx) {
    tx.caller == owner && tx.call.ExpireNow?
  }

  lemma NumbersAfterCall(w: World, tx: Tx)
    ensures var (p, p') := (w.policy, Step(w, tx).0.policy);
      && (SetsLimits(p.owner, tx) ==> p'.maxSingle == tx.call.maxSingle && p'.dailyLimit == tx.call.dailyLimit)
      && (!SetsLimits(p.owner, tx) ==> p'.maxSingle == p.maxSingle && p'.dailyLimit == p.dailyLimit)
      && (Extends(p.owner, tx) ==> p'.validUntilMs == tx.call.untilMs)
      && (Expires(p.owner, tx) ==> p'.validUntilMs == tx.nowMs)
      && (!Extends(p.owner, tx) && !Expires(p.owner, tx) ==> p'.validUntilMs == p.validUntilMs)
  {
    hide PayRefusal;
  }

  /** How the policy calls answer: a stranger's by NotOwner, the owner's by what is wrong with its arguments. */
  lemma PolicyCallAnswers(w: World, tx: Tx)
    requires !tx.call.Pay? && !tx.call.TokenTransfer?
    ensures var (c, owner, r) := (tx.call, w.policy.owner, Step(w, tx).1);
      && (r == Reverted(NotOwner) <==> tx.caller != owner)
      && (r == Reverted(AmountAboveMax) <==> tx.caller == owner && c.SetLimits? && !SetsLimits(owner, tx))
      && (r == Reverted(InvalidValidUntil) <==> tx.caller == owner && c.SetValidUntil? && !Extends(owner, tx))
      && (r.Reverted? ==> r.error.NotOwner? || r.error.AmountAboveMax? || r.error.InvalidValidUntil?)
  {
  }

  /** init accepts positive, ordered limits and a future expiry; its caller owns a vault that lists nobody and has paid nothing. */
  lemma InstallAnswers(
      self: Address, balances: map<Address, nat>, caller: Address, nowMs: nat,
      maxSingle: U256, dailyLimit: U256, validUntilMs: nat)
    ensures var r := Install(self, balances, caller, nowMs, maxSingle, dailyLimit, validUntilMs);
      && (r.Ok? <==> 0 < maxSingle <= dailyLimit && nowMs < validUntilMs)
      && (r == Err(AmountAboveMax) <==> !(0 < maxSingle <= dailyLimit))
      && (r.Err? ==> r == Err(AmountAboveMax) || r == Err(InvalidValidUntil))
      && (r.Ok? ==> var w := r.value;
           && w.policy.owner == caller && w.policy.maxSingle == maxSingle && w.policy.dailyLimit == dailyLimit
           && w.policy.validUntilMs == validUntilMs && w.self == self && w.balances == balances
           && w.history == [] && w.clockMs == nowMs && forall list: List, a: Address :: !Listed(w, list, a))
  {
  }

  /** The payment a call asks for, appended to the history. */
  function WithPayment(w: World, tx: Tx): seq<Payment>
    requires tx.call.Pay?
  {
    w.history + [Payment(tx.caller, tx.call.receiver, tx.call.amount, tx.call.hash, tx.nowMs)]
  }

  // The checks of pay, in its order; the counters are said of the history with this payment counted in.

  predicate Known(w: World, tx: Tx)
    requires tx.call.Pay?
  {
    Listed(w, Agents, tx.caller) && Listed(w, Receivers, tx.call.receiver)
  }

  predicate Small(w: World, tx: Tx)
    requires tx.call.Pay?
  {
    Known(w, tx) && tx.nowMs < w.policy.validUntilMs && tx.call.amount <= w.policy.maxSingle
  }

  predicate InDay(w: World, tx: Tx)
    requires tx.call.Pay?
  {
    var spent := SpentOn(WithPayment(w, tx), Day(tx.nowMs));
    Small(w, tx) && spent < U256_LIMIT && spent <= w.policy.dailyLimit
  }

  predicate Unused(w: World, tx: Tx)
    requires tx.call.Pay?
  {
    InDay(w, tx) && forall i :: 0 <= i < |w.history| ==> w.history[i].hash != tx.call.hash
  }

  predicate Summable(w: World, tx: Tx)
    requires tx.call.Pay?
  {
    Unused(w, tx) && TotalPaid(WithPayment(w, tx)) < U256_LIMIT
  }

  /** What pay answers: the first check that fails. */
  lemma PayAnswers(w: World, tx: Tx)
    requires tx.call.Pay?
    ensures var r := Step(w, tx).1;
      var spent := SpentOn(WithPayment(w, tx), Day(tx.nowMs));
      && (r == Reverted(AgentNotAllowed) <==> !Listed(w, Agents, tx.caller))
      && (r == Reverted(ReceiverNotAllowed) <==> Listed(w, Agents, tx.caller) && !Known(w, tx))
      && (r == Reverted(VaultExpired) <==> Known(w, tx) && tx.nowMs >= w.policy.validUntilMs)
      && (r == Reverted(AmountAboveMax) <==> Known(w, tx) && tx.nowMs < w.policy.validUntilMs && !Small(w, tx))
      && (r == Reverted(DayLimitExceeded) <==> Small(w, tx) && spent < U256_LIMIT && !InDay(w, tx))
      && (r == Reverted(NonceAlreadyUsed) <==> InDay(w, tx) && !Unused(w, tx))
      && (r == Reverted(ArithmeticOverflow)
          <==> (Small(w, tx) && spent >= U256_LIMIT) || (Unused(w, tx) && !Summable(w, tx)))
      && (r == Reverted(InsufficientVaultBalance) <==> Summable(w, tx) && Balance(w.balances, w.self) < tx.call.amount)
      && (r == Reverted(TokenCannotTargetSelf)
          <==> Summable(w, tx) && tx.call.amount <= Balance(w.balances, w.self) && tx.call.receiver == w.self)
      && (r == Accepted <==> Summable(w, tx) && tx.call.amount <= Balance(w.balances, w.self) && tx.call.receiver != w.self)
  {
    var p := Payment(tx.caller, tx.call.receiver, tx.call.amount, tx.call.hash, tx.nowMs);
    HistoryGrows(w.history, p);
    assert SpentOn(WithPayment(w, tx), Day(tx.nowMs)) == SpentOn(w.history, Day(tx.nowMs)) + p.amount;
    assert TotalPaid(WithPayment(w, tx)) == TotalPaid(w.history) + p.amount;
    hide SpentOn, TotalPaid, Day, Balance, WithPayment;
  }

  // ---- Whole runs ----

  /** Without a call by the owner the policy stays as it is, whoever else calls what. */
  lemma {:induction false} StrangersChangeNothing(w: World, txs: seq<Tx>)
    requires forall i :: 0 <= i < |txs| ==> txs[i].caller != w.policy.owner
    ensures Run(w, txs).policy == w.policy
    decreases |txs|
  {
    if txs != [] {
      OnlyOwnerChangesPolicy(w, txs[0]);
      StrangersChangeNothing(Step(w, txs[0]).0, txs[1..]);
    }
  }

  predicate RevokedAfter(owner: Address, txs: seq<Tx>, list: List, a: Address, i: int) {
    exists j :: 0 <= j < |txs| && i < j && Revokes(owner, txs[j], list, a)
  }

  predicate LastAllowedAt(owner: Address, txs: seq<Tx>, list: List, a: Address, i: int) {
    0 <= i < |txs| && Allows(owner, txs[i], list, a) && !RevokedAfter(owner, txs, list, a, i)
  }

  /** The owner's last word on an address: allowed and not revoked since, or listed before and not revoked at all. */
  ghost predicate Stands(owner: Address, txs: seq<Tx>, list: List, a: Address, before: bool) {
    (exists i :: LastAllowedAt(owner, txs, list, a, i)) || (before && !RevokedAfter(owner, txs, list, a, -1))
  }

  lemma RevokedShift(owner: Address, txs: seq<Tx>, list: List, a: Address, i: int)
    requires txs != []
    ensures RevokedAfter(owner, txs, list, a, i)
      <==> (i < 0 && Revokes(owner, txs[0], list, a)) || RevokedAfter(owner, txs[1..], list, a, i - 1)
  {
    hide Revokes;
    assert forall j :: 0 < j < |txs| ==> txs[j] == txs[1..][j - 1];
    assert forall j :: 0 <= j < |txs| - 1 ==> txs[1..][j] == txs[j + 1];
  }

  lemma AllowedShift(owner: Address, txs: seq<Tx>, list: List, a: Address, i: int)
    requires txs != [] && i != 0
    ensures LastAllowedAt(owner, txs, list, a, i) <==> LastAllowedAt(owner, txs[1..], list, a, i - 1)
  {
    if i > 0 { RevokedShift(owner, txs, list, a, i); }
    hide RevokedAfter, Allows;
  }

  lemma StandsSplit(owner: Address, txs: seq<Tx>, list: List, a: Address, before: bool)
    requires txs != []
    ensures Stands(owner, txs, list, a, before)
      <==> Stands(owner, txs[1..], list, a, Allows(owner, txs[0], list, a) || (before && !Revokes(owner, txs[0], list, a)))
  {
    RevokedShift(owner, txs, list, a, -1);
    RevokedShift(owner, txs, list, a, 0);
    NoneEarlier(owner, txs[1..], list, a);
    assert LastAllowedAt(owner, txs, list, a, 0) <==> Allows(owner, txs[0], list, a) && !RevokedAfter(owner, txs[1..], list, a, -1);
    hide LastAllowedAt, RevokedAfter, Allows, Revokes;
    if i :| i != 0 && LastAllowedAt(owner, txs, list, a, i) { AllowedShift(owner, txs, list, a, i); }
    if i :| i + 1 != 0 && LastAllowedAt(owner, txs[1..], list, a, i) { AllowedShift(owner, txs, list, a, i + 1); }
    assert !LastAllowedAt(owner, txs[1..], list, a, -1);
  }

  lemma NoneEarlier(owner: Address, txs: seq<Tx>, list: List, a: Address)
    ensures !LastAllowedAt(owner, txs, list, a, -1)
    ensures RevokedAfter(owner, txs, list, a, -2) <==> RevokedAfter(owner, txs, list, a, -1)
  {
  }

  /** After any run an address is listed exactly if the owner's last word on it stands. */
  lemma {:induction false} ListedAfterRun(w: World, txs: seq<Tx>, list: List, a: Address)
    ensures Listed(Run(w, txs), list, a) <==> Stands(w.policy.owner, txs, list, a, Listed(w, list, a))
    decreases |txs|
  {
    if txs != [] {
      OnlyOwnerChangesPolicy(w, txs[0]);
      ListedAfterCall(w, txs[0], list, a);
      StandsSplit(w.policy.owner, txs, list, a, Listed(w, list, a));
      ListedAfterRun(Step(w, txs[0]).0, txs[1..], list, a);
      hide Step, Stands, Allows, Revokes;
    }
  }

  /** The call at a position of a run is a payment, and it is accepted. */
  ghost predicate PaysAt(w: World, txs: seq<Tx>, i: nat) {
    i < |txs| && txs[i].call.Pay? && Step(Run(w, txs[..i]), txs[i]).1 == Accepted
  }

  /** Whoever pays, and whoever is paid, the owner's last word on both stood at that moment. */
  lemma PaidOnlyAsOwnerAllowed(w: World, txs: seq<Tx>, i: nat)
    requires PaysAt(w, txs, i)
    ensures Stands(w.policy.owner, txs[..i], Agents, txs[i].caller, Listed(w, Agents, txs[i].caller))
    ensures Stands(w.policy.owner, txs[..i], Receivers, txs[i].call.receiver, Listed(w, Receivers, txs[i].call.receiver))
  {
    AcceptedMeansPermitted(Run(w, txs[..i]), txs[i]);
    ListedAfterRun(w, txs[..i], Agents, txs[i].caller);
    ListedAfterRun(w, txs[..i], Receivers, txs[i].call.receiver);
  }

  lemma {:induction false} ExpiredStaysExpired(w: World, txs: seq<Tx>)
    requires TimelyAll(w, txs) && w.policy.validUntilMs <= w.clockMs
    requires forall j :: 0 <= j < |txs| ==> !Extends(w.policy.owner, txs[j])
    ensures Run(w, txs).policy.validUntilMs <= Run(w, txs).clockMs
    decreases |txs|
  {
    if txs != [] {
      OnlyOwnerChangesPolicy(w, txs[0]);
      NumbersAfterCall(w, txs[0]);
      ClockFollows(w, txs[0]);
      ExpiredStaysExpired(Step(w, txs[0]).0, txs[1..]);
    }
  }

  lemma ClockFollows(w: World, tx: Tx)
    ensures Step(w, tx).0.clockMs == tx.nowMs
  {
    hide PayRefusal;
  }

  lemma {:induction false} TimelyPrefix(w: World, txs: seq<Tx>, i: nat)
    requires TimelyAll(w, txs) && i < |txs|
    ensures TimelyAll(w, txs[..i]) && Timely(Run(w, txs[..i]), txs[i])
    decreases |txs|
  {
    if i > 0 {
      TimelyPrefix(Step(w, txs[0]).0, txs[1..], i - 1);
      assert txs[..i][1..] == txs[1..][..i - 1];
    }
  }

  /** After expire_now no payment is accepted until the owner has set a later expiry. */
  lemma ExpiredUntilExtended(w: World, expiry: Tx, txs: seq<Tx>, i: nat)
    requires Expires(w.policy.owner, expiry) && TimelyAll(Step(w, expiry).0, txs)
    requires PaysAt(Step(w, expiry).0, txs, i)
    ensures exists j :: 0 <= j < i && Extends(w.policy.owner, txs[j])
  {
    var next := Step(w, expiry).0;
    OnlyOwnerChangesPolicy(w, expiry);
    NumbersAfterCall(w, expiry);
    ClockFollows(w, expiry);
    AcceptedMeansPermitted(Run(next, txs[..i]), txs[i]);
    TimelyPrefix(next, txs, i);
    if forall j :: 0 <= j < i ==> !Extends(w.policy.owner, txs[j]) {
      ExpiredStaysExpired(next, txs[..i]);
    }
  }
}
