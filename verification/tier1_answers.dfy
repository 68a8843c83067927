/**
 * What the Tier-1 pre-flight accepts, exactly, how it reads amounts and addresses, and what a run
 * that fails says of its failure.
 */
module Tier1Answers {
  import opened Wrappers
  import opened Decimal
  import opened JsText
  import opened PolicyRules
  import opened SeedPlans
  import opened VaultMachine
  import opened Tier1Plans
  import opened Tier1Runs

  // ---- BigInt reads what a printer of the same radix writes ----

  const RADIX_DIGITS: string := "0123456789abcdef"

  function RadixDigit(d: nat): char
    requires d < 16
  {
    RADIX_DIGITS[d]
  }

  function PrintIn(n: nat, radix: nat): string
    requires radix in {2, 8, 16}
  {
    if n < radix then [RadixDigit(n)] else PrintIn(n / radix, radix) + [RadixDigit(n % radix)]
  }

  lemma DigitReads(d: nat, radix: nat)
    requires d < radix <= 16
    ensures DigitIn(RadixDigit(d), radix) == Some(d) && !IsSpace(RadixDigit(d))
  {
  }

  lemma AppendReads(front: string, c: char, q: nat, d: nat, n: nat, radix: nat)
    requires Numeral(front, radix) == Some(q) && DigitIn(c, radix) == Some(d) && !IsSpace(c) && q * radix + d == n
    ensures var s := front + [c];
      Numeral(s, radix) == Some(n) && s != "" && !IsSpace(s[|s| - 1])
  {
    assert (front + [c])[..|front + [c]| - 1] == front;
    hide DigitIn, IsSpace;
  }

  lemma Divided(n: nat, radix: nat)
    requires radix in {2, 8, 16}
    ensures n / radix * radix + n % radix == n && (n >= radix ==> n / radix < n) && n % radix < radix
    ensures n < radix ==> n % radix == n
  {
    if radix == 2 {
    } else if radix == 8 {
    } else {
    }
  }

  /** The last digit and what stands before it. */
  lemma PrintLast(n: nat, radix: nat)
    requires radix in {2, 8, 16}
    ensures PrintIn(n, radix) == (if n < radix then "" else PrintIn(n / radix, radix)) + [RadixDigit(n % radix)]
  {
    Divided(n, radix);
  }

  lemma {:induction false} NumeralReads(n: nat, radix: nat)
    requires radix in {2, 8, 16}
    ensures Numeral(PrintIn(n, radix), radix) == Some(n)
    ensures PrintIn(n, radix) != "" && !IsSpace(PrintIn(n, radix)[|PrintIn(n, radix)| - 1])
    decreases n
  {
    hide *;
    Divided(n, radix);
    DigitReads(n % radix, radix);
    PrintLast(n, radix);
    if n < radix {
      NothingReads(radix);
      AppendReads("", RadixDigit(n % radix), 0, n % radix, n, radix);
    } else {
      NumeralReads(n / radix, radix);
      AppendReads(PrintIn(n / radix, radix), RadixDigit(n % radix), n / radix, n % radix, n, radix);
    }
  }

  lemma NothingReads(radix: nat)
    ensures Numeral("", radix) == Some(0) && 0 * radix == 0
  {
  }

  lemma TrimKeeps(s: string)
    requires s != "" && !IsSpace(s[0]) && !IsSpace(s[|s| - 1])
    ensures Trim(s) == s
  {
  }

  /** The prefixes name the radix. */
  lemma BigIntOfRadix(n: nat)
    ensures BigIntOf("0x" + PrintIn(n, 16)) == Some(n) == BigIntOf("0X" + PrintIn(n, 16))
    ensures BigIntOf("0o" + PrintIn(n, 8)) == Some(n) == BigIntOf("0O" + PrintIn(n, 8))
    ensures BigIntOf("0b" + PrintIn(n, 2)) == Some(n) == BigIntOf("0B" + PrintIn(n, 2))
  {
    Prefixed('x', n, 16);
    Prefixed('X', n, 16);
    Prefixed('o', n, 8);
    Prefixed('O', n, 8);
    Prefixed('b', n, 2);
    Prefixed('B', n, 2);
    hide PrintIn, BigIntOf;
  }

  lemma PrefixedForm(s: string, radix: nat)
    requires |s| > 2 && Trim(s) == s && s[0] == '0'
    requires (s[1] in {'x', 'X'} && radix == 16) || (s[1] in {'o', 'O'} && radix == 8) || (s[1] in {'b', 'B'} && radix == 2)
    ensures BigIntOf(s) == AsInt(Numeral(s[2..], radix))
  {
    hide Trim, Numeral;
  }

  lemma Prefixed(c: char, n: nat, radix: nat)
    requires (c in {'x', 'X'} && radix == 16) || (c in {'o', 'O'} && radix == 8) || (c in {'b', 'B'} && radix == 2)
    ensures BigIntOf(['0', c] + PrintIn(n, radix)) == Some(n)
  {
    NumeralReads(n, radix);
    var digits := PrintIn(n, radix);
    var s := ['0', c] + digits;
    assert !IsSpace(s[0]);
    hide Trim, Numeral, PrintIn, IsSpace, BigIntOf;
    assert s[2..] == digits && s[|s| - 1] == digits[|digits| - 1];
    TrimKeeps(s);
    PrefixedForm(s, radix);
  }

  /** A sign is allowed on decimal digits, and white space around the whole text. */
  lemma BigIntOfSigned(s: string)
    requires AllDigits(s)
    ensures BigIntOf("-" + s).Some? && BigIntOf("-" + s).value + ValueOf(s) == 0 && BigIntOf("+" + s) == Some(ValueOf(s))
  {
    DecimalNumeral(s);
    assert ("-" + s)[1..] == s && ("+" + s)[1..] == s && IsDigit(s[0]) && IsDigit(s[|s| - 1]);
    TrimKeeps("-" + s);
    TrimKeeps("+" + s);
    hide Trim, Numeral;
  }

  predicate AllSpace(s: string) {
    forall i :: 0 <= i < |s| ==> IsSpace(s[i])
  }

  lemma {:induction false} TrimDrops(front: string, s: string, back: string)
    requires AllSpace(front) && AllSpace(back) && s != "" && !IsSpace(s[0]) && !IsSpace(s[|s| - 1])
    ensures Trim(front + s + back) == s
    decreases |front| + |back|
  {
    var t := front + s + back;
    if front != "" {
      assert t[1..] == front[1..] + s + back;
      TrimDrops(front[1..], s, back);
    } else if back != "" {
      assert t[..|t| - 1] == front + s + back[..|back| - 1];
      TrimDrops(front, s, back[..|back| - 1]);
    } else {
      assert t == s;
      TrimKeeps(s);
    }
  }

  lemma BigIntTrims(front: string, s: string, back: string)
    requires AllSpace(front) && AllSpace(back) && s != "" && !IsSpace(s[0]) && !IsSpace(s[|s| - 1])
    ensures BigIntOf(front + s + back) == BigIntOf(s)
  {
    TrimDrops(front, s, back);
    TrimKeeps(s);
    hide Trim, Numeral;
  }

  // ---- Addresses ----

  /** An address argument is a tag and 64 hex digits of either case; 00 tags an account, 01 a package. */
  lemma AddressMeans(tagged: string, a: Address)
    ensures AddressOf(tagged) == Some(a) <==>
      exists digits :: IsHex64(digits)
        && ((tagged == "00" + digits && a == Account(Lower(digits))) || (tagged == "01" + digits && a == Package(Lower(digits))))
  {
    if |tagged| >= 2 { assert tagged == tagged[..2] + tagged[2..]; }
    forall digits: string ensures ("00" + digits)[..2] == "00" && ("00" + digits)[2..] == digits {}
    forall digits: string ensures ("01" + digits)[..2] == "01" && ("01" + digits)[2..] == digits {}
    hide IsHex64, Lower;
  }

  /** Under an injective hash, payments to addresses share a payload hash only if receiver and amount are the same texts. */
  lemma PayloadHashNamesPayment(d: Deps, r: string, m: string, r': string, m': string)
    requires forall s, t: string :: d.sha256(s) == d.sha256(t) ==> s == t
    requires AddressOf(r).Some? && AddressOf(r').Some?
    ensures PayloadHash(d, r, m) == PayloadHash(d, r', m') <==> r == r' && m == m'
  {
    if PayloadHash(d, r, m) == PayloadHash(d, r', m') {
      var s, t := r + ":" + m, r' + ":" + m';
      assert s == t && |r| == |r'| == 66;
      assert r == s[..66] && r' == t[..66] && m == s[67..] && m' == t[67..];
    }
  }

  // ---- The codes ----

  /** The codes the plan declares are the vault's own discriminants of those reverts. */
  lemma DeclaredCodesAreTheVaults()
    ensures ErrorCode(ReceiverBlocked) == Code(Revert.ReceiverNotAllowed)
    ensures ErrorCode(OverMaxSinglePayment) == Code(AmountAboveMax)
    ensures ErrorCode(OverDailyLimit) == Code(DayLimitExceeded)
    ensures ErrorCode(PastExpiry) == Code(VaultExpired)
    ensures ErrorCode(DuplicateNonce) == Code(NonceAlreadyUsed)
    ensures forall e, e': Revert :: Code(e) == Code(e') ==> e == e'
  {
  }

  // ---- What the pre-flight accepts ----

  predicate SeedReady(e: Env) {
    && Present(e, "CEP18_CONTRACT_HASH") && Present(e, "DEMO_AGENT_HASH") && Present(e, "DEMO_RECEIVER_HASH")
    && Present(e, "DEMO_BLOCKED_RECEIVER_HASH") && Present(e, "DEMO_MAX_SINGLE") && Present(e, "DEMO_DAILY_LIMIT")
    && IsLowerHex(e["CEP18_CONTRACT_HASH"], 64) && IsAccountAddress(e["DEMO_RECEIVER_HASH"])
    && AllDigits(e["DEMO_MAX_SINGLE"]) && AllDigits(e["DEMO_DAILY_LIMIT"])
    && ValueOf(e["DEMO_MAX_SINGLE"]) <= ValueOf(e["DEMO_DAILY_LIMIT"])
  }

  lemma TestNetIsChainId()
    ensures IsChainId("casper:casper-test")
  {
    var s := "casper:casper-test";
    assert s[..7] == "casper:";
  }

  /** A seed plan is built exactly from a complete environment whose caps are ordered numbers and whose hashes are well formed. */
  lemma SeedAcceptsExactly(e: Env)
    ensures BuildSeedPlan(e).Ok? <==> SeedReady(e)
  {
    TestNetIsChainId();
    hide AllDigits, ValueOf, IsLowerHex, IsChainId, IsAccountAddress;
    if Present(e, "CEP18_CONTRACT_HASH") && Present(e, "DEMO_RECEIVER_HASH") && Present(e, "DEMO_MAX_SINGLE") && Present(e, "DEMO_DAILY_LIMIT") {
      var p := SeedPolicy(e["CEP18_CONTRACT_HASH"], e["DEMO_RECEIVER_HASH"], e["DEMO_MAX_SINGLE"], e["DEMO_DAILY_LIMIT"]);
      assert p.allowedTokens[0] == e["CEP18_CONTRACT_HASH"] && p.allowedReceivers[0] == e["DEMO_RECEIVER_HASH"];
    }
  }

  /** An environment that is refused as incomplete is told a variable it does lack. */
  lemma MissingIsAbsent(e: Env, name: string)
    ensures BuildSeedPlan(e) == Err(Missing(name)) ==> !Present(e, name)
    ensures BuildDeployVaultPlan(e) == Err(Missing(name)) ==> !Present(e, name)
    ensures BuildRunTier1Plan(e) == Err(Missing(name)) ==> !Present(e, name)
  {
    hide SchemaAccepts, PlanTier1PaySuccess, BigIntOf;
    RejectionsRefuse();
    hide PlanTier1Rejection;
  }

  lemma RejectionsRefuse()
    ensures forall v, agent, amount :: PlanTier1PaySuccess(v, agent, amount).Err? ==> PlanTier1PaySuccess(v, agent, amount).error.Refused?
    ensures forall v, agent, kind, amount, blocked ::
      PlanTier1Rejection(v, agent, kind, amount, blocked).Err? ==> PlanTier1Rejection(v, agent, kind, amount, blocked).error.Refused?
  {
    hide BigIntOf;
  }

  /** Both gates' configuration, field by field. */
  lemma SeedConfigures(e: Env)
    requires BuildSeedPlan(e).Ok?
    ensures var (v, g) := (BuildSeedPlan(e).value.vault, BuildSeedPlan(e).value.signerGuard);
      && v.cep18Contract == e["CEP18_CONTRACT_HASH"] && g.allowedTokens == g.allowedContractPackages == [e["CEP18_CONTRACT_HASH"]]
      && g.signerRole == "local_dev" && g.allowedChainIds == ["casper:casper-test"] && g.requireTraceId
      && g.receiverPolicy == Allowlist && g.allowedReceivers == v.allowedReceivers == [e["DEMO_RECEIVER_HASH"]]
      && v.allowedAgents == [e["DEMO_AGENT_HASH"]]
      && v.maxSinglePayment == g.maxSinglePaymentAtomic == e["DEMO_MAX_SINGLE"]
      && v.dailyLimit == g.perDayCapAtomic == e["DEMO_DAILY_LIMIT"]
  {
    hide SchemaAccepts;
  }

  predicate DeployReady(e: Env) {
    && Present(e, "CASPER_NODE_RPC") && Present(e, "CASPER_CHAINSPEC") && Present(e, "LOCAL_SIGNER_PRIVATE_KEY_PATH")
    && ("RUN_REAL_ONCHAIN" in e && e["RUN_REAL_ONCHAIN"] == "1" ==> Present(e, "VAULT_WASM_PATH"))
  }

  /** An unset amount reads as its default; a set one, even an empty one, as itself. */
  function AmountSet(e: Env, name: string, default: string): string {
    if name in e then e[name] else default
  }

  /** The two amounts lie on their sides of the maximum. */
  predicate AmountsFit(e: Env)
    requires SeedReady(e)
  {
    var max := ValueOf(e["DEMO_MAX_SINGLE"]);
    var pay, over := BigIntOf(AmountSet(e, "DEMO_PAY_AMOUNT", "50")), BigIntOf(AmountSet(e, "DEMO_REJECTION_AMOUNT", "999"));
    pay.Some? && pay.value <= max && over.Some? && over.value > max
  }

  lemma PayPlanned(vault: VaultPlan, agent: string, amount: string)
    requires vault.allowedAgents == [agent] && |vault.allowedReceivers| == 1 && vault.allowedReceivers[0] != ""
    requires AllDigits(vault.maxSinglePayment)
    ensures PlanTier1PaySuccess(vault, agent, amount).Ok?
      <==> BigIntOf(amount).Some? && BigIntOf(amount).value <= ValueOf(vault.maxSinglePayment)
  {
    BigIntOfDigits(vault.maxSinglePayment);
    hide BigIntOf, AllDigits, ValueOf;
  }

  lemma RejectionsPlanned(vault: VaultPlan, agent: string, amount: string, blocked: string)
    requires vault.allowedAgents == [agent] && |vault.allowedReceivers| == 1 && vault.allowedReceivers[0] != "" && blocked != ""
    requires AllDigits(vault.maxSinglePayment)
    ensures PlanTier1Rejection(vault, agent, ReceiverBlocked, amount, Some(blocked)).Ok? <==> blocked != vault.allowedReceivers[0]
    ensures PlanTier1Rejection(vault, agent, OverMaxSinglePayment, amount, None).Ok?
      <==> BigIntOf(amount).Some? && BigIntOf(amount).value > ValueOf(vault.maxSinglePayment)
  {
    BigIntOfDigits(vault.maxSinglePayment);
    hide BigIntOf, AllDigits, ValueOf;
  }

  lemma PlanFromAccepts(e: Env, deploy: DeployVaultPlan, seed: SeedPlan)
    requires SeedReady(e) && BuildSeedPlan(e) == Ok(seed)
    ensures PlanFrom(e, deploy, seed).Ok? <==> e["DEMO_BLOCKED_RECEIVER_HASH"] != e["DEMO_RECEIVER_HASH"] && AmountsFit(e)
  {
    var agent, blocked := e["DEMO_AGENT_HASH"], e["DEMO_BLOCKED_RECEIVER_HASH"];
    SeedConfigures(e);
    PayPlanned(seed.vault, agent, PayAmount(e));
    RejectionsPlanned(seed.vault, agent, PayAmount(e), blocked);
    RejectionsPlanned(seed.vault, agent, RejectionAmount(e), blocked);
    hide AllDigits, ValueOf, BigIntOf, IsAccountAddress, IsLowerHex, BuildSeedPlan, PlanTier1PaySuccess, PlanTier1Rejection;
  }

  lemma DeployAcceptsExactly(e: Env)
    ensures BuildDeployVaultPlan(e).Ok? <==> DeployReady(e)
  {
  }

  /** The whole pre-flight, exactly: a complete environment, another text for the blocked receiver, and fitting amounts. */
  lemma PlanAcceptsExactly(e: Env)
    ensures BuildRunTier1Plan(e).Ok? <==>
      DeployReady(e) && SeedReady(e) && e["DEMO_BLOCKED_RECEIVER_HASH"] != e["DEMO_RECEIVER_HASH"] && AmountsFit(e)
  {
    SeedAcceptsExactly(e);
    DeployAcceptsExactly(e);
    hide BuildSeedPlan, BuildDeployVaultPlan, PlanFrom, SeedReady, DeployReady, AmountsFit;
    if BuildSeedPlan(e).Ok? && BuildDeployVaultPlan(e).Ok? {
      PlanFromAccepts(e, BuildDeployVaultPlan(e).value, BuildSeedPlan(e).value);
    }
  }

  /** The amounts a plan that passes pays and overpays with. */
  lemma PlannedAmounts(e: Env)
    requires BuildRunTier1Plan(e).Ok?
    ensures var r := Tier1InputFromPlan(BuildRunTier1Plan(e).value);
      && r.Ok? && |r.value.rejections| == 2
      && r.value.amount == AmountSet(e, "DEMO_PAY_AMOUNT", "50") == r.value.fundAmount == r.value.rejections[0].amount
      && r.value.rejections[1].amount == AmountSet(e, "DEMO_REJECTION_AMOUNT", "999")
  {
    PlanSays(e);
    hide BuildRunTier1Plan, Preflighted, Tier1InputFromPlan;
  }

  // ---- What a run says of its failure ----

  /**
   * A provoked payment that was accepted is named; one with another code is reported with that code
   * and the declared one; and if none fails, each came back with the code declared for it.
   */
  lemma {:induction false} ProvokedAnswers(d: Deps, c: Chain, rejections: seq<RejectionInput>)
    ensures match ProvokeAll(d, c, rejections).1
      case Ok(events) =>
        |events| == |rejections|
        && forall i :: 0 <= i < |events| ==>
             events[i].kind == rejections[i].kind && events[i].errorCode == rejections[i].expectedErrorCode
      case Err(WrongCode(kind, code, expected)) =>
        code != expected && (exists e: Revert :: code == Code(e)) && Declares(rejections, kind, expected)
      case Err(UnexpectedlyAccepted(kind)) => exists expected :: Declares(rejections, kind, expected)
      case Err(x) => x == Threw
    decreases |rejections|
  {
    if rejections != [] {
      var (c', sent) := DoPay(d, c, rejections[0].receiver, rejections[0].amount);
      ProvokedAnswers(d, c', rejections[1..]);
      DeclaresMore(rejections);
      hide DoPay, Code, Declares;
      if sent.Finalized? && sent.outcome.Reverted? { assert Code(sent.outcome.error) == Code(sent.outcome.error); }
    }
  }

  predicate Declares(rejections: seq<RejectionInput>, kind: RejectionKind, expected: nat) {
    exists i :: 0 <= i < |rejections| && rejections[i].kind == kind && rejections[i].expectedErrorCode == expected
  }

  lemma DeclaresMore(rejections: seq<RejectionInput>)
    requires rejections != []
    ensures Declares(rejections, rejections[0].kind, rejections[0].expectedErrorCode)
    ensures forall kind, expected :: Declares(rejections[1..], kind, expected) ==> Declares(rejections, kind, expected)
  {
    forall kind, expected | Declares(rejections[1..], kind, expected) ensures Declares(rejections, kind, expected) {
      var i :| 0 <= i < |rejections[1..]| && rejections[1..][i].kind == kind && rejections[1..][i].expectedErrorCode == expected;
      assert rejections[i + 1] == rejections[1..][i];
    }
  }

  lemma SetupFailureSays(step: string, sent: Sent)
    ensures SetupSays(SetupFailure(step, sent))
  {
    hide Code;
    if sent.Finalized? && sent.outcome.Reverted? { assert Code(sent.outcome.error) == Code(sent.outcome.error); }
  }

  /** A setup failure is a throw, or names a step and the code of a revert. */
  ghost predicate SetupSays(failure: Option<Failure>) {
    failure == None || failure == Some(Threw)
    || (failure.value.SetupReverted? && exists e: Revert :: failure.value.code == Code(e))
  }

  lemma SetupAnswers(d: Deps, c: Chain, input: OrchestrationInput)
    ensures SetupSays(Setup(d, c, input).1)
  {
    forall step, sent ensures SetupSays(SetupFailure(step, sent)) { SetupFailureSays(step, sent); }
    hide InstallCep18, InstallVault, DoAllowAgent, DoAllowReceiver, DoFundVault, SetupSays, SetupFailure;
  }

  /** The run reports pay_reverted exactly when setup went well and the payment came back reverted, with that revert's code. */
  lemma PayRevertAnswers(d: Deps, c: Chain, input: OrchestrationInput, code: nat)
    ensures Orchestrate(d, c, input).1 == Err(PayReverted(code)) <==>
      Setup(d, c, input).1 == None
      && var sent := DoPay(d, Setup(d, c, input).0, input.receiver, input.amount).1;
      sent.Finalized? && sent.outcome.Reverted? && Code(sent.outcome.error) == code
  {
    SetupAnswers(d, c, input);
    var c6 := DoPay(d, Setup(d, c, input).0, input.receiver, input.amount).0;
    ProvokedAnswers(d, c6, input.rejections);
    hide Setup, DoPay, ProvokeAll, Code, Declares;
  }
}
