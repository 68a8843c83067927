/** The SignerGuard policy: the schema that loads it and the ordered rules that judge a request. */
module PolicyRules {
  import opened Wrappers
  import opened Decimal

  datatype ReceiverPolicy = DenyAll | Allowlist | AllowAnyWithManualApproval

  datatype SignerPolicy = SignerPolicy(
    signerRole: string,
    allowedChainIds: seq<string>,
    allowedContractPackages: seq<string>,
    allowedTokens: seq<string>,
    receiverPolicy: ReceiverPolicy,
    allowedReceivers: seq<string>,
    maxSinglePaymentAtomic: string,
    perDayCapAtomic: string,
    requireTraceId: bool)

  datatype SignRequest = SignRequest(
    policy: SignerPolicy,
    intentId: string,
    traceId: string,
    signerRole: string,
    signerPk: string,
    contractPackage: string,
    receiver: string,
    token: string,
    amount: string,
    chainId: string)

  datatype Denial =
    | SignerRoleMismatch
    | TraceIdMissing
    | ChainNotAllowed
    | PackageNotAllowed
    | TokenNotAllowed
    | ReceiverNotAllowed
    | AmountMalformed
    | AmountAboveSingleCap
    | DayCapExceeded
    | ReservationConflict
    | SignerFailed

  // ---- Loading a policy ----

  predicate IsLowerHex(s: string, length: nat) {
    |s| == length && forall i :: 0 <= i < |s| ==> IsDigit(s[i]) || 'a' <= s[i] <= 'f'
  }

  predicate IsAccountAddress(s: string) {
    |s| == 66 && s[..2] == "00" && IsLowerHex(s[2..], 64)
  }

  predicate IsChainIdChar(c: char) {
    IsDigit(c) || 'a' <= c <= 'z' || 'A' <= c <= 'Z' || c == '_' || c == '-'
  }

  predicate IsChainId(s: string) {
    |s| > 7 && s[..7] == "casper:" && forall i :: 7 <= i < |s| ==> IsChainIdChar(s[i])
  }

  /** SignerGuardPolicySchema: field patterns, then the two cross-field checks. */
  predicate SchemaAccepts(p: SignerPolicy) {
    && p.signerRole in {"user_cspr_click", "local_dev", "demo_sponsored"}
    && p.allowedChainIds != [] && (forall i :: 0 <= i < |p.allowedChainIds| ==> IsChainId(p.allowedChainIds[i]))
    && p.allowedContractPackages != [] && (forall i :: 0 <= i < |p.allowedContractPackages| ==> IsLowerHex(p.allowedContractPackages[i], 64))
    && p.allowedTokens != [] && (forall i :: 0 <= i < |p.allowedTokens| ==> IsLowerHex(p.allowedTokens[i], 64))
    && (forall i :: 0 <= i < |p.allowedReceivers| ==> IsAccountAddress(p.allowedReceivers[i]))
    && AllDigits(p.maxSinglePaymentAtomic)
    && AllDigits(p.perDayCapAtomic)
    && (p.receiverPolicy != DenyAll ==> p.allowedReceivers != [])
    && ValueOf(p.maxSinglePaymentAtomic) <= ValueOf(p.perDayCapAtomic)
  }

  // ---- Judging a request ----

  predicate ReceiverDenied(req: SignRequest) {
    if req.policy.receiverPolicy == DenyAll then true
    else if req.policy.receiverPolicy == AllowAnyWithManualApproval then true
    else req.receiver !in req.policy.allowedReceivers
  }

  /** Everything the request names was allowed explicitly. */
  predicate ExplicitlyAllowed(req: SignRequest) {
    && req.policy.receiverPolicy == Allowlist && req.receiver in req.policy.allowedReceivers
    && req.chainId in req.policy.allowedChainIds
    && req.contractPackage in req.policy.allowedContractPackages
    && req.token in req.policy.allowedTokens
    && (req.policy.requireTraceId ==> req.traceId != "")
    && AllDigits(req.amount) && AllDigits(req.policy.maxSinglePaymentAtomic)
    && ValueOf(req.amount) <= ValueOf(req.policy.maxSinglePaymentAtomic)
  }

  /** checkPolicyRules: the first rule that fails; none fails exactly for an explicitly allowed request. */
  function CheckPolicyRules(req: SignRequest): (r: Option<Denial>)
    ensures r == None <==> ExplicitlyAllowed(req)
  {
    if req.policy.requireTraceId && |req.traceId| == 0 then Some(TraceIdMissing)
    else if req.chainId !in req.policy.allowedChainIds then Some(ChainNotAllowed)
    else if req.contractPackage !in req.policy.allowedContractPackages then Some(PackageNotAllowed)
    else if req.token !in req.policy.allowedTokens then Some(TokenNotAllowed)
    else if ReceiverDenied(req) then Some(ReceiverNotAllowed)
    else if !AllDigits(req.amount) || !AllDigits(req.policy.maxSinglePaymentAtomic) then Some(AmountMalformed)
    else if ValueOf(req.amount) > ValueOf(req.policy.maxSinglePaymentAtomic) then Some(AmountAboveSingleCap)
    else None
  }

  /** Each code names the first rule that the request breaks; every rule before it holds. */
  lemma RulesDenyByRule(req: SignRequest)
    ensures var (p, r) := (req.policy, CheckPolicyRules(req));
      var traced := p.requireTraceId ==> req.traceId != "";
      var chain := traced && req.chainId in p.allowedChainIds;
      var package := chain && req.contractPackage in p.allowedContractPackages;
      var token := package && req.token in p.allowedTokens;
      var receiver := token && p.receiverPolicy == Allowlist && req.receiver in p.allowedReceivers;
      var digits := receiver && AllDigits(req.amount) && AllDigits(p.maxSinglePaymentAtomic);
      && (r == Some(TraceIdMissing) <==> !traced)
      && (r == Some(ChainNotAllowed) <==> traced && !chain)
      && (r == Some(PackageNotAllowed) <==> chain && !package)
      && (r == Some(TokenNotAllowed) <==> package && !token)
      && (r == Some(ReceiverNotAllowed) <==> token && !receiver)
      && (r == Some(AmountMalformed) <==> receiver && !digits)
      && (r == Some(AmountAboveSingleCap) <==> digits && ValueOf(req.amount) > ValueOf(p.maxSinglePaymentAtomic))
      && (r == None <==> digits && ValueOf(req.amount) <= ValueOf(p.maxSinglePaymentAtomic))
      && (forall d: Denial :: r == Some(d) ==> !d.SignerRoleMismatch? && !d.DayCapExceeded? && !d.ReservationConflict? && !d.SignerFailed?)
  {
    hide AllDigits, ValueOf;
  }

  /** A policy that loads with an allowlist has a request it allows: no list it needs is empty. */
  lemma LoadedAllowlistGrants(p: SignerPolicy, pk: string) returns (req: SignRequest)
    requires SchemaAccepts(p) && p.receiverPolicy == Allowlist
    ensures req.policy == p && req.signerRole == p.signerRole && req.signerPk == pk && ExplicitlyAllowed(req)
  {
    req := SignRequest(
      p, "intent", "trace", p.signerRole, pk, p.allowedContractPackages[0], p.allowedReceivers[0], p.allowedTokens[0], "0",
      p.allowedChainIds[0]);
    assert "0"[..0] == "" && ValueOf("0") == 0;
  }
}
