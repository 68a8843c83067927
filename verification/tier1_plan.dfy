/** The Tier-1 pre-flight: an environment becomes one accepted payment and two provoked rejections. */
module Tier1Plans {
  import opened Wrappers
  import opened Decimal
  import opened JsText
  import opened PolicyRules
  import opened SeedPlans

  // ---- BigInt(string), section 7.1.14 of ECMA-262 ----

  function Trim(s: string): string {
    if s == [] then s
    else if IsSpace(s[0]) then Trim(s[1..])
    else if IsSpace(s[|s| - 1]) then Trim(s[..|s| - 1])
    else s
  }

  function DigitIn(c: char, radix: nat): Option<nat> {
    var d :=
      if '0' <= c <= '9' then (c - '0') as nat
      else if 'a' <= c <= 'f' then (c - 'a') as nat + 10
      else if 'A' <= c <= 'F' then (c - 'A') as nat + 10
      else 16;
    if d < radix then Some(d) else None
  }

  function Numeral(s: string, radix: nat): Option<nat> {
    if s == [] then Some(0) else
      var front, last := Numeral(s[..|s| - 1], radix), DigitIn(s[|s| - 1], radix);
      if front == None || last == None then None else Some(front.value * radix + last.value)
  }

  /** None is the SyntaxError of a text that is no integer literal. */
  function BigIntOf(s: string): Option<int> {
    var t := Trim(s);
    if t == "" then Some(0)
    else if |t| > 2 && t[0] == '0' && (t[1] == 'x' || t[1] == 'X') then AsInt(Numeral(t[2..], 16))
    else if |t| > 2 && t[0] == '0' && (t[1] == 'o' || t[1] == 'O') then AsInt(Numeral(t[2..], 8))
    else if |t| > 2 && t[0] == '0' && (t[1] == 'b' || t[1] == 'B') then AsInt(Numeral(t[2..], 2))
    else if |t| > 1 && t[0] == '-' then Negated(Numeral(t[1..], 10))
    else if |t| > 1 && t[0] == '+' then AsInt(Numeral(t[1..], 10))
    else AsInt(Numeral(t, 10))
  }

  function AsInt(n: Option<nat>): Option<int> {
    match n
    case None => None
    case Some(v) => Some(v)
  }

  function Negated(n: Option<nat>): Option<int> {
    match n
    case None => None
    case Some(v) =>
      var n: int := v;
      Some(-n)
  }

  lemma {:induction false} DecimalNumeral(s: string)
    requires forall i :: 0 <= i < |s| ==> IsDigit(s[i])
    ensures Numeral(s, 10) == Some(ValueOf(s))
  {
    if s != [] {
      DecimalNumeral(s[..|s| - 1]);
    }
  }

  /** On digit strings BigInt agrees with the ledger's parser. */
  lemma BigIntOfDigits(s: string)
    requires AllDigits(s)
    ensures BigIntOf(s) == Some(ValueOf(s))
  {
    assert IsDigit(s[0]) && IsDigit(s[|s| - 1]);
    assert Trim(s) == s;
    assert |s| > 1 ==> IsDigit(s[1]);
    DecimalNumeral(s);
  }

  // ---- Plans ----

  datatype RejectionKind = ReceiverBlocked | OverMaxSinglePayment | OverDailyLimit | PastExpiry | DuplicateNonce

  function ErrorCode(kind: RejectionKind): nat {
    match kind
    case ReceiverBlocked => 3
    case OverMaxSinglePayment => 4
    case OverDailyLimit => 5
    case PastExpiry => 6
    case DuplicateNonce => 7
  }

  datatype PaySuccessPlan = PaySuccessPlan(cep18Contract: string, agent: string, receiver: string, amount: string)

  datatype RejectionPlan = RejectionPlan(
    cep18Contract: string,
    agent: string,
    receiver: string,
    amount: string,
    kind: RejectionKind,
    expectedErrorCode: nat)

  datatype Mode = Dry | Real

  datatype DeployVaultPlan = DeployVaultPlan(mode: Mode, rpc: string, chainspec: string, wasmPath: Option<string>, signerKeyPath: string)

  datatype PlanStep = DeployStep(deploy: DeployVaultPlan) | PayStep(pay: PaySuccessPlan) | RejectionStep(rejection: RejectionPlan)

  datatype RunTier1Plan = RunTier1Plan(mode: Mode, rpc: string, chainspec: string, steps: seq<PlanStep>)

  /** The first receiver, absent when the list is empty or its head is the empty string. */
  function FirstReceiver(vault: VaultPlan): Option<string> {
    if vault.allowedReceivers == [] || vault.allowedReceivers[0] == "" then None else Some(vault.allowedReceivers[0])
  }

  function PlanTier1PaySuccess(vault: VaultPlan, agent: string, amount: string): Result<PaySuccessPlan, PlanError> {
    if agent !in vault.allowedAgents then Err(Refused("agent is not allowlisted"))
    else
      var a, max := BigIntOf(amount), BigIntOf(vault.maxSinglePayment);
      if a == None || max == None then Err(Refused("not an integer"))
      else if a.value > max.value then Err(Refused("amount exceeds maxSinglePayment"))
      else match FirstReceiver(vault)
        case None => Err(Refused("no allowlisted receivers configured"))
        case Some(receiver) => Ok(PaySuccessPlan(vault.cep18Contract, agent, receiver, amount))
  }

  function PlanTier1Rejection(vault: VaultPlan, agent: string, kind: RejectionKind, amount: string, blockedReceiver: Option<string>)
    : Result<RejectionPlan, PlanError>
  {
    match kind
    case ReceiverBlocked =>
      if blockedReceiver == None || blockedReceiver.value == "" then Err(Refused("requires blockedReceiver"))
      else if blockedReceiver.value in vault.allowedReceivers then Err(Refused("blockedReceiver is on the allowlist"))
      else Ok(RejectionPlan(vault.cep18Contract, agent, blockedReceiver.value, amount, kind, ErrorCode(kind)))
    case OverMaxSinglePayment =>
      var a, max := BigIntOf(amount), BigIntOf(vault.maxSinglePayment);
      if a == None || max == None then Err(Refused("not an integer"))
      else if a.value <= max.value then Err(Refused("amount must exceed maxSinglePayment"))
      else (match FirstReceiver(vault)
        case None => Err(Refused("no allowlisted receivers configured"))
        case Some(receiver) => Ok(RejectionPlan(vault.cep18Contract, agent, receiver, amount, kind, ErrorCode(kind))))
    case _ => Err(Refused("not wired in Tier 1"))
  }

  function BuildDeployVaultPlan(e: Env): Result<DeployVaultPlan, PlanError> {
    if !Present(e, "CASPER_NODE_RPC") then Err(Missing("CASPER_NODE_RPC"))
    else if !Present(e, "CASPER_CHAINSPEC") then Err(Missing("CASPER_CHAINSPEC"))
    else if !Present(e, "LOCAL_SIGNER_PRIVATE_KEY_PATH") then Err(Missing("LOCAL_SIGNER_PRIVATE_KEY_PATH"))
    else
      var mode := if "RUN_REAL_ONCHAIN" in e && e["RUN_REAL_ONCHAIN"] == "1" then Real else Dry;
      if mode.Real? && !Present(e, "VAULT_WASM_PATH") then Err(Missing("VAULT_WASM_PATH"))
      else Ok(DeployVaultPlan(
        mode, e["CASPER_NODE_RPC"], e["CASPER_CHAINSPEC"],
        if Present(e, "VAULT_WASM_PATH") then Some(e["VAULT_WASM_PATH"]) else None, e["LOCAL_SIGNER_PRIVATE_KEY_PATH"]))
  }

  /** e.NAME ?? default: only an unset variable takes the default. */
  function OrDefault(e: Env, name: string, default: string): string {
    if name in e then e[name] else default
  }

  function PayAmount(e: Env): string {
    OrDefault(e, "DEMO_PAY_AMOUNT", "50")
  }

  function RejectionAmount(e: Env): string {
    OrDefault(e, "DEMO_REJECTION_AMOUNT", "999")
  }

  function BuildRunTier1Plan(e: Env): Result<RunTier1Plan, PlanError> {
    match BuildDeployVaultPlan(e)
    case Err(x) => Err(x)
    case Ok(deploy) =>
      match BuildSeedPlan(e)
      case Err(x) => Err(x)
      case Ok(seed) => PlanFrom(e, deploy, seed)
  }

  function PlanFrom(e: Env, deploy: DeployVaultPlan, seed: SeedPlan): Result<RunTier1Plan, PlanError> {
    if seed.vault.allowedAgents == [] || seed.vault.allowedAgents[0] == "" then Err(Refused("no allowlisted agent"))
    else if !Present(e, "DEMO_BLOCKED_RECEIVER_HASH") then Err(Missing("DEMO_BLOCKED_RECEIVER_HASH"))
    else
      var agent, blocked := seed.vault.allowedAgents[0], e["DEMO_BLOCKED_RECEIVER_HASH"];
      match PlanTier1PaySuccess(seed.vault, agent, PayAmount(e))
      case Err(x) => Err(x)
      case Ok(pay) =>
        match PlanTier1Rejection(seed.vault, agent, ReceiverBlocked, PayAmount(e), Some(blocked))
        case Err(x) => Err(x)
        case Ok(rejReceiver) =>
          match PlanTier1Rejection(seed.vault, agent, OverMaxSinglePayment, RejectionAmount(e), None)
          case Err(x) => Err(x)
          case Ok(rejBudget) =>
            Ok(RunTier1Plan(
              deploy.mode, deploy.rpc, deploy.chainspec,
              [DeployStep(deploy), PayStep(pay), RejectionStep(rejReceiver), RejectionStep(rejBudget)]))
  }

  // ---- From plan to orchestration input ----

  datatype RejectionInput = RejectionInput(kind: RejectionKind, receiver: string, amount: string, expectedErrorCode: nat)

  datatype OrchestrationInput = OrchestrationInput(receiver: string, amount: string, rejections: seq<RejectionInput>, fundAmount: string)

  /** steps.find: the first payment step. */
  function FindPay(steps: seq<PlanStep>): Option<PaySuccessPlan> {
    if steps == [] then None
    else if steps[0].PayStep? then Some(steps[0].pay)
    else FindPay(steps[1..])
  }

  function RejectionInputs(steps: seq<PlanStep>): seq<RejectionInput> {
    if steps == [] then []
    else
      (if steps[0].RejectionStep? then
         var r := steps[0].rejection;
         [RejectionInput(r.kind, r.receiver, r.amount, r.expectedErrorCode)]
       else [])
      + RejectionInputs(steps[1..])
  }

  function Tier1InputFromPlan(plan: RunTier1Plan): Result<OrchestrationInput, PlanError> {
    match FindPay(plan.steps)
    case None => Err(Refused("plan is missing the pay-success step"))
    case Some(pay) => Ok(OrchestrationInput(pay.receiver, pay.amount, RejectionInputs(plan.steps), pay.amount))
  }

  // ---- What a plan that passes is known to say ----

  function InputOf(e: Env): OrchestrationInput
    requires "DEMO_RECEIVER_HASH" in e && "DEMO_BLOCKED_RECEIVER_HASH" in e
  {
    OrchestrationInput(
      e["DEMO_RECEIVER_HASH"], PayAmount(e),
      [RejectionInput(ReceiverBlocked, e["DEMO_BLOCKED_RECEIVER_HASH"], PayAmount(e), 3),
       RejectionInput(OverMaxSinglePayment, e["DEMO_RECEIVER_HASH"], RejectionAmount(e), 4)],
      PayAmount(e))
  }

  /** The guards the pre-flight applied. */
  predicate Preflighted(e: Env) {
    && "DEMO_RECEIVER_HASH" in e && "DEMO_BLOCKED_RECEIVER_HASH" in e && "DEMO_MAX_SINGLE" in e && "DEMO_DAILY_LIMIT" in e
    && IsAccountAddress(e["DEMO_RECEIVER_HASH"])
    && e["DEMO_BLOCKED_RECEIVER_HASH"] != e["DEMO_RECEIVER_HASH"]
    && AllDigits(e["DEMO_MAX_SINGLE"]) && AllDigits(e["DEMO_DAILY_LIMIT"])
    && ValueOf(e["DEMO_MAX_SINGLE"]) <= ValueOf(e["DEMO_DAILY_LIMIT"])
    && BigIntOf(PayAmount(e)).Some? && BigIntOf(PayAmount(e)).value <= ValueOf(e["DEMO_MAX_SINGLE"])
    && BigIntOf(RejectionAmount(e)).Some? && BigIntOf(RejectionAmount(e)).value > ValueOf(e["DEMO_MAX_SINGLE"])
  }

  lemma StepsProject(deploy: PlanStep, pay: PlanStep, first: PlanStep, second: PlanStep)
    requires deploy.DeployStep? && pay.PayStep? && first.RejectionStep? && second.RejectionStep?
    ensures FindPay([deploy, pay, first, second]) == Some(pay.pay)
    ensures RejectionInputs([deploy, pay, first, second]) == [
      RejectionInput(first.rejection.kind, first.rejection.receiver, first.rejection.amount, first.rejection.expectedErrorCode),
      RejectionInput(second.rejection.kind, second.rejection.receiver, second.rejection.amount, second.rejection.expectedErrorCode)]
  {
    assert [deploy, pay, first, second][1..] == [pay, first, second];
    assert [pay, first, second][1..] == [first, second];
    assert [first, second][1..] == [second];
    assert [second][1..] == [];
    var a, b := RejectionInputs([first])[0], RejectionInputs([second])[0];
    assert RejectionInputs([second]) == [b];
    assert RejectionInputs([first, second]) == [a] + [b];
    assert RejectionInputs([pay, first, second]) == [] + RejectionInputs([first, second]);
    assert RejectionInputs([deploy, pay, first, second]) == [] + RejectionInputs([pay, first, second]);
  }

  lemma PlanSays(e: Env)
    requires BuildRunTier1Plan(e).Ok?
    ensures Preflighted(e)
    ensures Tier1InputFromPlan(BuildRunTier1Plan(e).value) == Ok(InputOf(e))
  {
    var plan := BuildRunTier1Plan(e).value;
    StepsProject(plan.steps[0], plan.steps[1], plan.steps[2], plan.steps[3]);
    SeedSays(e);
    BigIntOfDigits(e["DEMO_MAX_SINGLE"]);
    hide AllDigits, ValueOf, BigIntOf, FindPay, RejectionInputs, BuildSeedPlan, IsAccountAddress;
  }

  lemma SeedSays(e: Env)
    requires BuildSeedPlan(e).Ok?
    ensures Present(e, "DEMO_RECEIVER_HASH") && Present(e, "DEMO_AGENT_HASH") && Present(e, "DEMO_MAX_SINGLE") && Present(e, "DEMO_DAILY_LIMIT")
    ensures IsAccountAddress(e["DEMO_RECEIVER_HASH"])
    ensures AllDigits(e["DEMO_MAX_SINGLE"]) && AllDigits(e["DEMO_DAILY_LIMIT"])
    ensures ValueOf(e["DEMO_MAX_SINGLE"]) <= ValueOf(e["DEMO_DAILY_LIMIT"])
    ensures var v := BuildSeedPlan(e).value.vault;
      v.allowedAgents == [e["DEMO_AGENT_HASH"]] && v.allowedReceivers == [e["DEMO_RECEIVER_HASH"]]
      && v.maxSinglePayment == e["DEMO_MAX_SINGLE"] && v.dailyLimit == e["DEMO_DAILY_LIMIT"]
  {
    hide AllDigits, ValueOf, IsLowerHex, IsChainId, IsAccountAddress;
    var policy := SeedPolicy(e["CEP18_CONTRACT_HASH"], e["DEMO_RECEIVER_HASH"], e["DEMO_MAX_SINGLE"], e["DEMO_DAILY_LIMIT"]);
    assert SchemaAccepts(policy);
    assert IsAccountAddress(policy.allowedReceivers[0]);
  }
}
