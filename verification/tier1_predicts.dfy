/** A pre-flighted Tier-1 plan against the vault: exactly when the run goes as planned. */
module Tier1Predictions {
  import opened Wrappers
  import opened Decimal
  import opened PolicyRules
  import opened SeedPlans
  import opened VaultMachine
  import opened Tier1Plans
  import opened Tier1Runs

  const START: Chain := Chain(map[], None, 0)

  /** Block times never run backwards. */
  ghost predicate Monotone(clock: nat -> nat) {
    forall i: nat, j: nat :: i <= j ==> clock(i) <= clock(j)
  }

  /** The real configuration reads its caps and supply from the same environment as the plan. */
  predicate Configured(e: Env, d: Deps) {
    "DEMO_MAX_SINGLE" in e && "DEMO_DAILY_LIMIT" in e
    && d.maxSingle == e["DEMO_MAX_SINGLE"] && d.dailyLimit == e["DEMO_DAILY_LIMIT"]
    && d.supply == OrDefault(e, "CEP18_TOTAL_SUPPLY", "1000000000")
  }

  // ---- What can still go wrong ----

  /** Install and funding succeed: amounts fit, a positive maximum, enough supply, not yet expired at install. */
  predicate CanSetUp(d: Deps, fund: string) {
    var supply, max, daily, n := ToU256(d.supply), ToU256(d.maxSingle), ToU256(d.dailyLimit), ToU256(fund);
    supply.Some? && max.Some? && daily.Some? && n.Some?
    && 0 < max.value <= daily.value && n.value <= supply.value && d.blockTime(1) < d.validUntilMs
  }

  /**
   * What the pre-flight did not check: the amounts fit 256 bits and are plain decimals, the
   * maximum is positive, the supply covers the payment, the vault is still valid at the last
   * deploy, and the blocked receiver names another address, not just another text.
   */
  predicate Executable(e: Env, d: Deps)
    requires "DEMO_RECEIVER_HASH" in e && "DEMO_BLOCKED_RECEIVER_HASH" in e
  {
    && CanSetUp(d, PayAmount(e))
    && ToU256(RejectionAmount(e)).Some?
    && d.blockTime(7) < d.validUntilMs
    && AddressOf(e["DEMO_BLOCKED_RECEIVER_HASH"]).Some?
    && AddressOf(e["DEMO_BLOCKED_RECEIVER_HASH"]) != AddressOf(e["DEMO_RECEIVER_HASH"])
  }

  // ---- The worlds along the way ----

  function Installed(d: Deps): World
    requires ToU256(d.supply).Some? && ToU256(d.maxSingle).Some? && ToU256(d.dailyLimit).Some?
  {
    World(
      Package(d.vaultPackageHash),
      Policy(Signer(d), {}, {}, ToU256(d.maxSingle).value, ToU256(d.dailyLimit).value, d.validUntilMs),
      [], map[Signer(d) := ToU256(d.supply).value], 0, d.blockTime(1))
  }

  function Funded(d: Deps, receiver: Address, n: U256): World
    requires ToU256(d.supply).Some? && ToU256(d.maxSingle).Some? && ToU256(d.dailyLimit).Some? && n <= ToU256(d.supply).value
  {
    var w := Installed(d);
    w.(policy := w.policy.(agents := {Signer(d)}, receivers := {receiver}),
       balances := map[Signer(d) := ToU256(d.supply).value - n, w.self := n],
       deposited := n, clockMs := d.blockTime(4))
  }

  lemma AccountReceiver(tagged: string)
    requires IsAccountAddress(tagged)
    ensures AddressOf(tagged) == Some(Account(Lower(tagged[2..])))
  {
  }

  lemma InstallSteps(d: Deps)
    ensures var (c2, sent) := InstallVault(d, InstallCep18(d, START).0);
      ToU256(d.supply).Some? ==>
        ((SetupFailure("install_vault", sent) == None <==>
            ToU256(d.maxSingle).Some? && ToU256(d.dailyLimit).Some?
            && 0 < ToU256(d.maxSingle).value <= ToU256(d.dailyLimit).value && d.blockTime(1) < d.validUntilMs)
         && (SetupFailure("install_vault", sent) == None ==> c2.vault == Some(Installed(d)) && c2.deploys == 2))
  {
    hide ToU256, Code;
  }

  lemma AllowSteps(d: Deps, c: Chain, receiver: string)
    requires ToU256(d.supply).Some? && ToU256(d.maxSingle).Some? && ToU256(d.dailyLimit).Some?
    requires c.vault == Some(Installed(d)) && c.deploys == 2 && IsAccountAddress(receiver)
    ensures var (c3, agent) := DoAllowAgent(d, c);
      var (c4, allowed) := DoAllowReceiver(d, c3, receiver);
      agent == Finalized(2, Accepted) && allowed == Finalized(3, Accepted) && c4.deploys == 4
      && c4.vault == Some(Installed(d).(
           policy := Installed(d).policy.(agents := {Signer(d)}, receivers := {AddressOf(receiver).value}), clockMs := d.blockTime(3)))
  {
    AccountReceiver(receiver);
    hide ToU256, AddressOf;
    var w := Installed(d);
    assert w.policy.agents + {Signer(d)} == {Signer(d)};
    assert w.policy.receivers + {AddressOf(receiver).value} == {AddressOf(receiver).value};
  }

  lemma FundStep(d: Deps, c: Chain, receiver: Address, fund: string)
    requires ToU256(d.supply).Some? && ToU256(d.maxSingle).Some? && ToU256(d.dailyLimit).Some?
    requires c.deploys == 4 && c.vault == Some(Installed(d).(
      policy := Installed(d).policy.(agents := {Signer(d)}, receivers := {receiver}), clockMs := d.blockTime(3)))
    ensures var (c5, sent) := DoFundVault(d, c, fund);
      (SetupFailure("fund_vault", sent) == None <==> ToU256(fund).Some? && ToU256(fund).value <= ToU256(d.supply).value)
      && (SetupFailure("fund_vault", sent) == None ==> c5.vault == Some(Funded(d, receiver, ToU256(fund).value)) && c5.deploys == 5)
  {
    hide ToU256, Code;
    if ToU256(fund).Some? {
      var supply, n := ToU256(d.supply).value, ToU256(fund).value;
      var b := map[Signer(d) := supply];
      if n <= supply {
        assert b[Signer(d) := supply - n][Package(d.vaultPackageHash) := 0 + n]
            == map[Signer(d) := supply - n, Package(d.vaultPackageHash) := n];
      }
    }
  }

  lemma SetupOutcome(d: Deps, input: OrchestrationInput)
    requires IsAccountAddress(input.receiver)
    ensures Setup(d, START, input).1 == None <==> CanSetUp(d, input.fundAmount)
    ensures CanSetUp(d, input.fundAmount) ==>
      AddressOf(input.receiver).Some?
      && Setup(d, START, input).0.vault == Some(Funded(d, AddressOf(input.receiver).value, ToU256(input.fundAmount).value))
      && Setup(d, START, input).0.deploys == 5
  {
    AccountReceiver(input.receiver);
    InstallSteps(d);
    var (c1, cep18) := InstallCep18(d, START);
    assert cep18 == (if ToU256(d.supply).Some? then Finalized(0, Accepted) else Unbuildable);
    var (c2, vault) := InstallVault(d, c1);
    hide InstallCep18, InstallVault, AddressOf, ToU256, IsAccountAddress;
    if ToU256(d.supply).Some? && SetupFailure("install_vault", vault) == None {
      AllowSteps(d, c2, input.receiver);
      var (c3, agent) := DoAllowAgent(d, c2);
      var (c4, allowed) := DoAllowReceiver(d, c3, input.receiver);
      FundStep(d, c4, AddressOf(input.receiver).value, input.fundAmount);
      hide DoAllowAgent, DoAllowReceiver, DoFundVault, Installed, Funded;
    } else {
      hide DoAllowAgent, DoAllowReceiver, DoFundVault, Installed, Funded;
    }
  }

  /** The funded vault pays its one payment exactly while it is valid. */
  lemma AcceptedPay(d: Deps, receiver: Address, n: U256, hash: string)
    requires ToU256(d.supply).Some? && ToU256(d.maxSingle).Some? && ToU256(d.dailyLimit).Some?
    requires n <= ToU256(d.supply).value && n <= ToU256(d.maxSingle).value <= ToU256(d.dailyLimit).value && receiver.Account?
    ensures var (w, outcome) := Step(Funded(d, receiver, n), Tx(Signer(d), d.blockTime(5), Pay(receiver, n, hash)));
      (outcome == Accepted <==> d.blockTime(5) < d.validUntilMs)
      && w.policy == Funded(d, receiver, n).policy
  {
    hide ToU256;
    var w := Funded(d, receiver, n);
    assert SpentOn(w.history, Day(d.blockTime(5))) == 0 && TotalPaid(w.history) == 0;
    hide SpentOn, TotalPaid, Day, Code;
  }

  // ---- The two provoked reverts ----

  lemma CodesIdentify(e: Revert)
    ensures Code(e) == 3 <==> e == Revert.ReceiverNotAllowed
    ensures Code(e) == 4 <==> e == AmountAboveMax
  {
  }

  /** For an allowed agent the code is 3 exactly for a receiver that is not allowed. */
  lemma BlockedReverts(w: World, tx: Tx)
    requires tx.call.Pay? && tx.caller in w.policy.agents
    ensures var outcome := Step(w, tx).1;
      (outcome.Reverted? && Code(outcome.error) == 3) <==> tx.call.receiver !in w.policy.receivers
  {
    if Step(w, tx).1.Reverted? { CodesIdentify(Step(w, tx).1.error); }
    hide Code, SpentOn, TotalPaid, HashUsed, Balance;
  }

  /** Above the maximum, an allowed payment reverts with 4 exactly while the vault is valid. */
  lemma OverMaxReverts(w: World, tx: Tx)
    requires tx.call.Pay? && tx.caller in w.policy.agents && tx.call.receiver in w.policy.receivers
    requires tx.call.amount > w.policy.maxSingle
    ensures var outcome := Step(w, tx).1;
      (outcome.Reverted? && Code(outcome.error) == 4) <==> tx.nowMs < w.policy.validUntilMs
  {
    if Step(w, tx).1.Reverted? { CodesIdentify(Step(w, tx).1.error); }
    hide Code, SpentOn, TotalPaid, HashUsed, Balance;
  }

  lemma ProvokeTwo(d: Deps, c: Chain, first: RejectionInput, second: RejectionInput)
    ensures var (c1, s1) := DoPay(d, c, first.receiver, first.amount);
      var (c2, s2) := DoPay(d, c1, second.receiver, second.amount);
      var r := ProvokeAll(d, c, [first, second]).1;
      (r.Ok? <==> RejectionFailure(first, s1) == None && RejectionFailure(second, s2) == None)
      && (r.Ok? ==> r.value == [
           RejectionEvent(first.kind, s1.deploy, Code(s1.outcome.error)), RejectionEvent(second.kind, s2.deploy, Code(s2.outcome.error))])
  {
    hide DoPay, RejectionFailure, Code;
    assert [first, second][1..] == [second] && [second][1..] == [];
    var (c1, s1) := DoPay(d, c, first.receiver, first.amount);
    var (c2, s2) := DoPay(d, c1, second.receiver, second.amount);
    assert ProvokeAll(d, c2, []).1 == Ok([]);
  }

  /** The rejections of a plan, run against any vault with the plan's policy. */
  lemma ProvokedAsPlanned(d: Deps, c: Chain, first: RejectionInput, second: RejectionInput, receiver: Address)
    requires c.vault.Some? && c.deploys == 6
    requires var p := c.vault.value.policy;
      Signer(d) in p.agents && p.receivers == {receiver} && p.validUntilMs == d.validUntilMs
    requires AddressOf(second.receiver) == Some(receiver) && first.expectedErrorCode == 3 && second.expectedErrorCode == 4
    requires ToU256(first.amount).Some?
    requires ToU256(second.amount).Some? ==> ToU256(second.amount).value > c.vault.value.policy.maxSingle
    ensures var r := ProvokeAll(d, c, [first, second]).1;
      (r.Ok? <==>
        AddressOf(first.receiver).Some? && AddressOf(first.receiver).value != receiver
        && ToU256(second.amount).Some? && d.blockTime(7) < d.validUntilMs)
      && (r.Ok? ==> r.value == [RejectionEvent(first.kind, 6, 3), RejectionEvent(second.kind, 7, 4)])
  {
    ProvokeTwo(d, c, first, second);
    hide ToU256, AddressOf, ProvokeAll, Code, PayRefusal;
    if AddressOf(first.receiver).Some? {
      var w := c.vault.value;
      var tx := Tx(Signer(d), Now(d, c), Pay(AddressOf(first.receiver).value, ToU256(first.amount).value, PayloadHash(d, first.receiver, first.amount)));
      BlockedReverts(w, tx);
      var (c1, s1) := DoPay(d, c, first.receiver, first.amount);
      assert c1.deploys == 7;
      if RejectionFailure(first, s1) == None {
        RevertChangesNothing(w, tx);
        var w1 := c1.vault.value;
        assert w1.policy == w.policy;
        if ToU256(second.amount).Some? {
          OverMaxReverts(w1, Tx(Signer(d), Now(d, c1),
            Pay(receiver, ToU256(second.amount).value, PayloadHash(d, second.receiver, second.amount))));
        }
      }
    }
  }

  // ---- The prediction ----

  /**
   * For every environment that passes the pre-flight, the run seals its payment and its two
   * reverts with codes 3 and 4 exactly when what the pre-flight left unchecked holds too.
   */
  lemma PlanRunsAsPredicted(e: Env, d: Deps)
    requires BuildRunTier1Plan(e).Ok? && Configured(e, d) && Monotone(d.blockTime)
    ensures Preflighted(e) && Tier1InputFromPlan(BuildRunTier1Plan(e).value) == Ok(InputOf(e))
    ensures Orchestrate(d, START, InputOf(e)).1.Ok? <==> Executable(e, d)
    ensures Executable(e, d) ==>
      Orchestrate(d, START, InputOf(e)).1 == Ok(Tier1Events(
        1, 5, PayAmount(e), e["DEMO_RECEIVER_HASH"],
        [RejectionEvent(ReceiverBlocked, 6, 3), RejectionEvent(OverMaxSinglePayment, 7, 4)]))
  {
    PlanSays(e);
    InputRuns(e, d);
  }

  lemma AmountsOrdered(e: Env, d: Deps)
    requires Preflighted(e) && Configured(e, d) && ToU256(d.maxSingle).Some?
    ensures ToU256(PayAmount(e)).Some? ==> ToU256(PayAmount(e)).value <= ToU256(d.maxSingle).value
    ensures ToU256(RejectionAmount(e)).Some? ==> ToU256(RejectionAmount(e)).value > ToU256(d.maxSingle).value
  {
    if ToU256(PayAmount(e)).Some? { BigIntOfDigits(PayAmount(e)); }
    if ToU256(RejectionAmount(e)).Some? { BigIntOfDigits(RejectionAmount(e)); }
    hide BigIntOf, ValueOf, AllDigits, PayAmount, RejectionAmount;
  }

  lemma InputRuns(e: Env, d: Deps)
    requires Preflighted(e) && Configured(e, d) && Monotone(d.blockTime)
    ensures Orchestrate(d, START, InputOf(e)).1.Ok? <==> Executable(e, d)
    ensures Executable(e, d) ==>
      Orchestrate(d, START, InputOf(e)).1 == Ok(Tier1Events(
        1, 5, PayAmount(e), e["DEMO_RECEIVER_HASH"],
        [RejectionEvent(ReceiverBlocked, 6, 3), RejectionEvent(OverMaxSinglePayment, 7, 4)]))
  {
    var input, amount := InputOf(e), PayAmount(e);
    SetupOutcome(d, input);
    AccountReceiver(input.receiver);
    assert d.blockTime(1) <= d.blockTime(5) <= d.blockTime(7);
    hide Setup, ProvokeAll, AddressOf, PayAmount, RejectionAmount, BigIntOf, AllDigits, ValueOf, IsAccountAddress, Lower;
    if CanSetUp(d, amount) {
      AmountsOrdered(e, d);
      hide ToU256;
      var receiver, n := AddressOf(input.receiver).value, ToU256(amount).value;
      var c5 := Setup(d, START, input).0;
      var (c6, paid) := DoPay(d, c5, input.receiver, amount);
      PayStage(d, c5, input.receiver, amount);
      ProvokedAsPlanned(d, c6, input.rejections[0], input.rejections[1], receiver);
      assert input.rejections == [input.rejections[0], input.rejections[1]];
      hide Step, DoPay, Funded;
    } else {
      hide CanSetUp;
    }
  }

  /** The accepted payment of a funded vault, as the fifth deploy. */
  lemma PayStage(d: Deps, c5: Chain, tagged: string, amount: string)
    requires CanSetUp(d, amount) && ToU256(amount).value <= ToU256(d.maxSingle).value
    requires AddressOf(tagged).Some? && AddressOf(tagged).value.Account?
    requires c5.vault == Some(Funded(d, AddressOf(tagged).value, ToU256(amount).value)) && c5.deploys == 5
    ensures var (c6, paid) := DoPay(d, c5, tagged, amount);
      paid.Finalized? && paid.deploy == 5 && c6.deploys == 6 && c6.vault.Some?
      && c6.vault.value.policy == Funded(d, AddressOf(tagged).value, ToU256(amount).value).policy
      && (PayFailure(paid) == None <==> d.blockTime(5) < d.validUntilMs)
  {
    AcceptedPay(d, AddressOf(tagged).value, ToU256(amount).value, PayloadHash(d, tagged, amount));
    hide ToU256, AddressOf, Funded, Step, Code;
  }

  // ---- The pre-flight compares texts, the vault compares addresses ----

  function Repeat(c: char, n: nat): string {
    seq(n, _ => c)
  }

  const RECEIVER: string := "00" + Repeat('c', 64)
  const SHOUTED: string := "00" + Repeat('C', 64)

  /** One address in two spellings. */
  lemma SpellingsCollide()
    ensures IsAccountAddress(RECEIVER) && SHOUTED != RECEIVER && AddressOf(SHOUTED) == AddressOf(RECEIVER)
  {
    assert RECEIVER[2..] == Repeat('c', 64) && SHOUTED[2..] == Repeat('C', 64);
    assert RECEIVER[2] != SHOUTED[2];
    assert Lower(Repeat('C', 64)) == Lower(Repeat('c', 64));
  }

  /** The pre-flight asks of the blocked receiver only that its text is present and not the allowed one. */
  lemma AnyOtherTextPasses(e: Env, text: string)
    requires BuildRunTier1Plan(e).Ok? && text != "" && text != e["DEMO_RECEIVER_HASH"]
    ensures BuildRunTier1Plan(e["DEMO_BLOCKED_RECEIVER_HASH" := text]).Ok?
  {
    SeedSays(e);
    SamePlanInputs(e, text);
    hide BigIntOf, AllDigits, ValueOf, IsAccountAddress, BuildSeedPlan, BuildDeployVaultPlan, PayAmount, RejectionAmount;
  }

  /** Naming the allowed receiver in capitals as the blocked one passes every guard, and the run then fails. */
  lemma CapitalsDefeatPlan(e: Env, d: Deps)
    requires BuildRunTier1Plan(e).Ok? && e["DEMO_RECEIVER_HASH"] == RECEIVER
    requires Configured(e, d) && Monotone(d.blockTime)
    ensures BuildRunTier1Plan(e["DEMO_BLOCKED_RECEIVER_HASH" := SHOUTED]).Ok?
    ensures Orchestrate(d, START, InputOf(e["DEMO_BLOCKED_RECEIVER_HASH" := SHOUTED])).1.Err?
  {
    var shouted := e["DEMO_BLOCKED_RECEIVER_HASH" := SHOUTED];
    SpellingsCollide();
    assert SHOUTED != "";
    assert Configured(shouted, d);
    hide *;
    AnyOtherTextPasses(e, SHOUTED);
    PlanRunsAsPredicted(shouted, d);
    CollisionBlocks(shouted, d);
  }

  lemma CollisionBlocks(e: Env, d: Deps)
    requires "DEMO_RECEIVER_HASH" in e && "DEMO_BLOCKED_RECEIVER_HASH" in e
    requires AddressOf(e["DEMO_BLOCKED_RECEIVER_HASH"]) == AddressOf(e["DEMO_RECEIVER_HASH"])
    ensures !Executable(e, d)
  {
  }

  lemma SamePlanInputs(e: Env, text: string)
    requires BuildSeedPlan(e).Ok? && text != ""
    ensures var changed := e["DEMO_BLOCKED_RECEIVER_HASH" := text];
      BuildSeedPlan(changed) == BuildSeedPlan(e) && BuildDeployVaultPlan(changed) == BuildDeployVaultPlan(e)
      && PayAmount(changed) == PayAmount(e) && RejectionAmount(changed) == RejectionAmount(e)
  {
    hide SchemaAccepts;
  }
}
