/** buildSeedPlan: one environment configures both gates, with the same caps. */
module SeedPlans {
  import opened Wrappers
  import opened PolicyRules

  type Env = map<string, string>

  datatype VaultPlan = VaultPlan(
    cep18Contract: string,
    allowedAgents: seq<string>,
    allowedReceivers: seq<string>,
    maxSinglePayment: string,
    dailyLimit: string)

  datatype SeedPlan = SeedPlan(vault: VaultPlan, signerGuard: SignerPolicy)

  datatype PlanError = Missing(name: string) | SchemaRejected | Refused(why: string)

  /** An unset and an empty variable are both absent to a falsy test. */
  predicate Present(e: Env, name: string) {
    name in e && e[name] != ""
  }

  function SeedPolicy(cep18: string, receiver: string, maxSingle: string, dailyLimit: string): SignerPolicy {
    SignerPolicy(
      "local_dev", ["casper:casper-test"], [cep18], [cep18], Allowlist, [receiver], maxSingle, dailyLimit, true)
  }

  function BuildSeedPlan(e: Env): Result<SeedPlan, PlanError> {
    if !Present(e, "CEP18_CONTRACT_HASH") then Err(Missing("CEP18_CONTRACT_HASH"))
    else if !Present(e, "DEMO_AGENT_HASH") then Err(Missing("DEMO_AGENT_HASH"))
    else if !Present(e, "DEMO_RECEIVER_HASH") then Err(Missing("DEMO_RECEIVER_HASH"))
    else if !Present(e, "DEMO_BLOCKED_RECEIVER_HASH") then Err(Missing("DEMO_BLOCKED_RECEIVER_HASH"))
    else if !Present(e, "DEMO_MAX_SINGLE") then Err(Missing("DEMO_MAX_SINGLE"))
    else if !Present(e, "DEMO_DAILY_LIMIT") then Err(Missing("DEMO_DAILY_LIMIT"))
    else
      var cep18, agent, receiver := e["CEP18_CONTRACT_HASH"], e["DEMO_AGENT_HASH"], e["DEMO_RECEIVER_HASH"];
      var maxSingle, dailyLimit := e["DEMO_MAX_SINGLE"], e["DEMO_DAILY_LIMIT"];
      var policy := SeedPolicy(cep18, receiver, maxSingle, dailyLimit);
      if !SchemaAccepts(policy) then Err(SchemaRejected)
      else Ok(SeedPlan(VaultPlan(cep18, [agent], [receiver], maxSingle, dailyLimit), policy))
  }
}
