/**
 * The Tier-1 run: the orchestrator drives the token and the vault through the live operations,
 * and a plan that passed the pre-flight runs as it predicts.
 */
module Tier1Runs {
  import opened Wrappers
  import opened Decimal
  import opened VaultMachine
  import opened Tier1Plans

  // ---- Arguments of a deploy ----

  /** CLValue.newCLUInt256 on a decimal amount. */
  function ToU256(s: string): Option<U256> {
    if AllDigits(s) && ValueOf(s) < U256_LIMIT then Some(ValueOf(s)) else None
  }

  predicate IsHexDigit(c: char) {
    IsDigit(c) || 'a' <= c <= 'f' || 'A' <= c <= 'F'
  }

  predicate IsHex64(s: string) {
    |s| == 64 && forall i :: 0 <= i < |s| ==> IsHexDigit(s[i])
  }

  function LowerChar(c: char): char {
    if 'A' <= c <= 'F' then c - 'A' + 'a' else c
  }

  function Lower(s: string): (r: string)
    ensures |r| == |s|
  {
    seq(|s|, i requires 0 <= i < |s| => LowerChar(s[i]))
  }

  /** keyStringFromTaggedAddress, then the key's bytes: hex digits mean the same in either case. */
  function AddressOf(tagged: string): Option<Address> {
    if |tagged| < 2 || !IsHex64(tagged[2..]) then None
    else if tagged[..2] == "00" then Some(Account(Lower(tagged[2..])))
    else if tagged[..2] == "01" then Some(Package(Lower(tagged[2..])))
    else None
  }

  // ---- The live operations over a chain ----

  /** What the run is given: the signer's own account, the installed packages' hashes, and the clock of its blocks. */
  datatype Deps = Deps(
    deployer: string,
    vaultPackageHash: string,
    supply: string,
    maxSingle: string,
    dailyLimit: string,
    validUntilMs: nat,
    blockTime: nat -> nat,
    sha256: string -> string)

  datatype Chain = Chain(balances: map<Address, nat>, vault: Option<World>, deploys: nat)

  /** A finalized deploy, known by its position, or an operation that threw before broadcasting. */
  datatype Sent = Finalized(deploy: nat, outcome: Outcome) | Unbuildable

  function Now(d: Deps, c: Chain): nat {
    d.blockTime(c.deploys)
  }

  function Signer(d: Deps): Address {
    Account(d.deployer)
  }

  function InstallCep18(d: Deps, c: Chain): (Chain, Sent) {
    match ToU256(d.supply)
    case None => (c, Unbuildable)
    case Some(supply) =>
      (c.(balances := map[Signer(d) := supply], deploys := c.deploys + 1), Finalized(c.deploys, Accepted))
  }

  function InstallVault(d: Deps, c: Chain): (Chain, Sent) {
    var max, daily := ToU256(d.maxSingle), ToU256(d.dailyLimit);
    if max == None || daily == None then (c, Unbuildable)
    else match Install(Package(d.vaultPackageHash), c.balances, Signer(d), Now(d, c), max.value, daily.value, d.validUntilMs)
      case Err(e) => (c.(deploys := c.deploys + 1), Finalized(c.deploys, Reverted(e)))
      case Ok(w) => (c.(vault := Some(w), deploys := c.deploys + 1), Finalized(c.deploys, Accepted))
  }

  /** One signed call by the deployer, executed in the next block. */
  function Submit(d: Deps, c: Chain, call: Call): (Chain, Sent) {
    match c.vault
    case None => (c, Unbuildable)
    case Some(w) =>
      var (w', outcome) := Step(w, Tx(Signer(d), Now(d, c), call));
      (c.(vault := Some(w'), deploys := c.deploys + 1), Finalized(c.deploys, outcome))
  }

  function DoAllowAgent(d: Deps, c: Chain): (Chain, Sent) {
    Submit(d, c, AllowAgent(Signer(d)))
  }

  function DoAllowReceiver(d: Deps, c: Chain, receiver: string): (Chain, Sent) {
    match AddressOf(receiver)
    case None => (c, Unbuildable)
    case Some(a) => Submit(d, c, AllowReceiver(a))
  }

  function DoFundVault(d: Deps, c: Chain, amount: string): (Chain, Sent) {
    match ToU256(amount)
    case None => (c, Unbuildable)
    case Some(n) => Submit(d, c, TokenTransfer(Package(d.vaultPackageHash), n))
  }

  function PayloadHash(d: Deps, receiver: string, amount: string): string {
    d.sha256(receiver + ":" + amount)
  }

  function DoPay(d: Deps, c: Chain, receiver: string, amount: string): (Chain, Sent) {
    var to, n := AddressOf(receiver), ToU256(amount);
    if to == None || n == None then (c, Unbuildable)
    else Submit(d, c, Pay(to.value, n.value, PayloadHash(d, receiver, amount)))
  }

  // ---- The orchestration ----

  datatype Failure =
    | Threw
    | SetupReverted(step: string, code: nat)
    | PayReverted(code: nat)
    | UnexpectedlyAccepted(kind: RejectionKind)
    | WrongCode(kind: RejectionKind, code: nat, expected: nat)

  datatype RejectionEvent = RejectionEvent(kind: RejectionKind, deploy: nat, errorCode: nat)

  datatype Tier1Events = Tier1Events(
    vaultDeploy: nat,
    payDeploy: nat,
    amount: string,
    receiver: string,
    rejections: seq<RejectionEvent>)

  /** assertSetupSuccess: a setup deploy must be accepted. */
  function SetupFailure(step: string, sent: Sent): Option<Failure> {
    match sent
    case Unbuildable => Some(Threw)
    case Finalized(_, Accepted) => None
    case Finalized(_, Reverted(e)) => Some(SetupReverted(step, Code(e)))
  }

  function PayFailure(sent: Sent): Option<Failure> {
    match sent
    case Unbuildable => Some(Threw)
    case Finalized(_, Accepted) => None
    case Finalized(_, Reverted(e)) => Some(PayReverted(Code(e)))
  }

  /** A provoked payment must revert, and with its declared code. */
  function RejectionFailure(r: RejectionInput, sent: Sent): Option<Failure> {
    match sent
    case Unbuildable => Some(Threw)
    case Finalized(_, Accepted) => Some(UnexpectedlyAccepted(r.kind))
    case Finalized(_, Reverted(e)) =>
      if Code(e) == r.expectedErrorCode then None else Some(WrongCode(r.kind, Code(e), r.expectedErrorCode))
  }

  /** Install, allow and fund, in order; the first failure ends it. */
  function Setup(d: Deps, c0: Chain, input: OrchestrationInput): (Chain, Option<Failure>) {
    var (c1, cep18) := InstallCep18(d, c0);
    if SetupFailure("install_cep18", cep18).Some? then (c1, SetupFailure("install_cep18", cep18)) else
      var (c2, vault) := InstallVault(d, c1);
      if SetupFailure("install_vault", vault).Some? then (c2, SetupFailure("install_vault", vault)) else
        var (c3, agent) := DoAllowAgent(d, c2);
        if SetupFailure("allow_agent", agent).Some? then (c3, SetupFailure("allow_agent", agent)) else
          var (c4, receiver) := DoAllowReceiver(d, c3, input.receiver);
          if SetupFailure("allow_receiver", receiver).Some? then (c4, SetupFailure("allow_receiver", receiver)) else
            var (c5, fund) := DoFundVault(d, c4, input.fundAmount);
            (c5, SetupFailure("fund_vault", fund))
  }

  function ProvokeAll(d: Deps, c: Chain, rejections: seq<RejectionInput>): (Chain, Result<seq<RejectionEvent>, Failure>)
    decreases |rejections|
  {
    if rejections == [] then (c, Ok([])) else
      var r := rejections[0];
      var (c', sent) := DoPay(d, c, r.receiver, r.amount);
      var failure := RejectionFailure(r, sent);
      if failure.Some? then (c', Err(failure.value)) else
        var (end, rest) := ProvokeAll(d, c', rejections[1..]);
        match rest
        case Err(x) => (end, Err(x))
        case Ok(events) => (end, Ok([RejectionEvent(r.kind, sent.deploy, Code(sent.outcome.error))] + events))
  }

  function Orchestrate(d: Deps, c0: Chain, input: OrchestrationInput): (Chain, Result<Tier1Events, Failure>) {
    var (c5, setup) := Setup(d, c0, input);
    if setup.Some? then (c5, Err(setup.value)) else
      var (c6, paid) := DoPay(d, c5, input.receiver, input.amount);
      if PayFailure(paid).Some? then (c6, Err(PayFailure(paid).value)) else
        var (end, provoked) := ProvokeAll(d, c6, input.rejections);
        match provoked
        case Err(x) => (end, Err(x))
        case Ok(events) => (end, Ok(Tier1Events(c0.deploys + 1, paid.deploy, input.amount, input.receiver, events)))
  }

  // ---- The operations as effects ----

  /** The operations the orchestrator is handed, each one deploy on the chain it changes. */
  class LiveOps {
    const deps: Deps
    var chain: Chain

    constructor (deps: Deps, chain: Chain)
      ensures this.deps == deps && this.chain == chain
    {
      this.deps, this.chain := deps, chain;
    }

    method SendInstallCep18() returns (sent: Sent)
      modifies this
      ensures (chain, sent) == InstallCep18(deps, old(chain))
    {
      var r := InstallCep18(deps, chain);
      chain, sent := r.0, r.1;
    }

    method SendInstallVault() returns (sent: Sent)
      modifies this
      ensures (chain, sent) == InstallVault(deps, old(chain))
    {
      var r := InstallVault(deps, chain);
      chain, sent := r.0, r.1;
    }

    method SendAllowAgent() returns (sent: Sent)
      modifies this
      ensures (chain, sent) == DoAllowAgent(deps, old(chain))
    {
      var r := DoAllowAgent(deps, chain);
      chain, sent := r.0, r.1;
    }

    method SendAllowReceiver(receiver: string) returns (sent: Sent)
      modifies this
      ensures (chain, sent) == DoAllowReceiver(deps, old(chain), receiver)
    {
      var r := DoAllowReceiver(deps, chain, receiver);
      chain, sent := r.0, r.1;
    }

    method SendFundVault(amount: string) returns (sent: Sent)
      modifies this
      ensures (chain, sent) == DoFundVault(deps, old(chain), amount)
    {
      var r := DoFundVault(deps, chain, amount);
      chain, sent := r.0, r.1;
    }

    method SendPay(receiver: string, amount: string) returns (sent: Sent)
      modifies this
      ensures (chain, sent) == DoPay(deps, old(chain), receiver, amount)
    {
      var r := DoPay(deps, chain, receiver, amount);
      chain, sent := r.0, r.1;
    }
  }

  /** Steps 1 to 3 of the orchestrator. */
  method RunSetup(input: OrchestrationInput, ops: LiveOps) returns (failure: Option<Failure>, vaultDeploy: nat)
    modifies ops
    ensures (ops.chain, failure) == Setup(ops.deps, old(ops.chain), input)
    ensures failure == None ==> vaultDeploy == old(ops.chain).deploys + 1
  {
    hide ToU256, AddressOf, Submit, Install;
    vaultDeploy := 0;
    var cep18 := ops.SendInstallCep18();
    failure := SetupFailure("install_cep18", cep18);
    if failure.Some? { return; }
    var vault := ops.SendInstallVault();
    failure := SetupFailure("install_vault", vault);
    if failure.Some? { return; }
    vaultDeploy := vault.deploy;
    hide InstallCep18, InstallVault;
    var agent := ops.SendAllowAgent();
    failure := SetupFailure("allow_agent", agent);
    if failure.Some? { return; }
    var receiver := ops.SendAllowReceiver(input.receiver);
    failure := SetupFailure("allow_receiver", receiver);
    if failure.Some? { return; }
    var fund := ops.SendFundVault(input.fundAmount);
    failure := SetupFailure("fund_vault", fund);
  }

  function Prefixed(done: seq<RejectionEvent>, r: Result<seq<RejectionEvent>, Failure>): Result<seq<RejectionEvent>, Failure> {
    match r
    case Err(x) => Err(x)
    case Ok(events) => Ok(done + events)
  }

  lemma ProvokeOne(d: Deps, c: Chain, rejections: seq<RejectionInput>, i: nat, done: seq<RejectionEvent>)
    requires i < |rejections|
    ensures var (c', sent) := DoPay(d, c, rejections[i].receiver, rejections[i].amount);
      var (end, r) := ProvokeAll(d, c, rejections[i..]);
      var failure := RejectionFailure(rejections[i], sent);
      if failure.Some? then end == c' && r == Err(failure.value)
      else
        var event := RejectionEvent(rejections[i].kind, sent.deploy, Code(sent.outcome.error));
        var (end', r') := ProvokeAll(d, c', rejections[i + 1..]);
        end == end' && Prefixed(done, r) == Prefixed(done + [event], r')
  {
    assert rejections[i..][1..] == rejections[i + 1..];
    hide DoPay, RejectionFailure, Code;
    var (c', sent) := DoPay(d, c, rejections[i].receiver, rejections[i].amount);
    if RejectionFailure(rejections[i], sent) == None {
      var (end', r') := ProvokeAll(d, c', rejections[i + 1..]);
      if r'.Ok? {
        var event := RejectionEvent(rejections[i].kind, sent.deploy, Code(sent.outcome.error));
        assert done + ([event] + r'.value) == (done + [event]) + r'.value;
      }
    }
  }

  lemma PrefixedNothing(d: Deps, c: Chain, rejections: seq<RejectionInput>)
    ensures rejections[0..] == rejections
    ensures Prefixed([], ProvokeAll(d, c, rejections).1) == ProvokeAll(d, c, rejections).1
  {
    var r := ProvokeAll(d, c, rejections).1;
    if r.Ok? { assert [] + r.value == r.value; }
  }

  /** orchestrateTier1. */
  method OrchestrateTier1(input: OrchestrationInput, ops: LiveOps) returns (r: Result<Tier1Events, Failure>)
    modifies ops
    ensures (ops.chain, r) == Orchestrate(ops.deps, old(ops.chain), input)
  {
    hide Setup, DoPay;
    var failure, vaultDeploy := RunSetup(input, ops);
    if failure.Some? { return Err(failure.value); }
    var paid := ops.SendPay(input.receiver, input.amount);
    failure := PayFailure(paid);
    if failure.Some? { return Err(failure.value); }
    ghost var c6 := ops.chain;
    var rejections: seq<RejectionEvent> := [];
    PrefixedNothing(ops.deps, c6, input.rejections);
    for i := 0 to |input.rejections|
      invariant ProvokeAll(ops.deps, c6, input.rejections).0 == ProvokeAll(ops.deps, ops.chain, input.rejections[i..]).0
      invariant ProvokeAll(ops.deps, c6, input.rejections).1
             == Prefixed(rejections, ProvokeAll(ops.deps, ops.chain, input.rejections[i..]).1)
    {
      ProvokeOne(ops.deps, ops.chain, input.rejections, i, rejections);
      var out := ops.SendPay(input.rejections[i].receiver, input.rejections[i].amount);
      failure := RejectionFailure(input.rejections[i], out);
      if failure.Some? { return Err(failure.value); }
      rejections := rejections + [RejectionEvent(input.rejections[i].kind, out.deploy, Code(out.outcome.error))];
    }
    assert input.rejections[|input.rejections|..] == [];
    assert rejections + [] == rejections;
    return Ok(Tier1Events(vaultDeploy, paid.deploy, input.amount, input.receiver, rejections));
  }
}
