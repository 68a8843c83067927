# Caspilot, verified

Caspilot lets an agent spend through two independent gates: a `PolicyVault` contract on the Casper
chain, and an off-chain signer guard over a spend ledger. An API router drives intents through the
off-chain gate and writes an audit trace; a harness plans and runs a demonstration against the vault.
This project models those parts and proves what they keep.

* **On chain** (`vault_machine.dfy`, `vault_authority.dfy`, `policy_vault.dfy`). The vault is a class over the fields the
  contract stores, and an abstract machine whose only spending state is the history of accepted
  payments. Every entry point of the class is proved to take the machine's step, so counters, the day
  rollover and the used-hash flags always agree with the history. Over the machine: safety of every
  run, conservation of token supply, and spending bounds per day, per span and per 24-hour window.
  Only the owner's calls change the policy, and whoever pays or is paid stood allowed by the owner's
  last word.
* **Off chain** (`spend_table.dfy`, `spend_ledger.dfy`, `policy_rules.dfy`, `signer_guard.dfy`). The
  row table refines a map from intent to scope, amount and status. `authorize` is split at its
  `await`, and its guarantees hold in every interleaving of concurrent calls.
* **Both gates** (`seed_plan.dfy`, `gates_agree.dfy`). Configured from one environment, the ledger's
  day sum over-approximates the vault's, so a signed payment never meets the vault's limits.
* **The router** (`audit_trace.dfy`, `intent_router.dfy`, `intent_story.dfy`, `intent_judgment.dfy`,
  `intent_view.dfy`, `intent_turns.dfy`, `intent_interleavings.dfy`, `intent_schedules.dfy`). Each
  answer is given exactly, in terms of the intent's own body and the policy. One invariant ties each
  intent's state, its ledger row and its trace rows together. The coupling of intents and reservations, the projected day sum and the replay
  of the redacted trace follow from it. Split at every await, the handlers interleave: exactly which
  schedules keep the coupling.
* **The Tier-1 run** (`tier1_plan.dfy`, `tier1_run.dfy`, `tier1_predicts.dfy`, `tier1_answers.dfy`).
  The pre-flight, the orchestrator and the vault in one model: exactly which environments pass,
  exactly when a plan that passes runs as predicted, and what a run says of its failure.
* **x402 payments** (`payment_ledger.dfy`, `x402_gateway.dfy`, `payment_header.dfy`, `header_meaning.dfy`).
  Replay protection over all interleavings of `verify` and `settle`, and the header codec's round trip.
* **Algorithms underneath** (`decimal.dfy`, `lex_order.dfy`, `calendar.dfy`, `redactor.dfy`,
  `js_strings.dfy`, `json_text.dfy`, `json_form.dfy`, `canonical.dfy`, `digests.dfy`,
  `digest_text.dfy`, `intent_id.dfy`, `finality_poll.dfy`). Besides round trips and identity, each
  has a law that fixes its output: the calendar a closed form, canonical JSON its one ordered
  document, the hashed texts their letters.

Five promises hold only under a condition, and each condition is proved exact:

* A day string names its UTC day only in the years 0 to 9999; outside them `slice(0, 10)` keeps only
  the month (`Calendar.EqualDayStrings`, `Calendar.DayStringCollidesAfter9999`).
* `mark-executed` tests the hash with `RegExp.test`, which converts its argument to a string. An array
  holding one hash is accepted, and the trace then shows no deploy hash. It can be read back exactly
  when the request gave a JSON string (`IntentViews.MarkedHashReadBack`, `IntentViews.CoercedHashIsLost`).
* The Tier-1 pre-flight compares receivers as text, the vault as addresses. The allowed receiver in
  capitals passes as the blocked one, and the run then fails
  (`Tier1Predictions.PlanRunsAsPredicted`, `Tier1Predictions.CapitalsDefeatPlan`).
* Concurrent `authorize` calls stay backed by their rows exactly when no outsider releases an
  outstanding ticket's row while it is still reserved (`SignerGuards.RunSoundExactly`). In any state
  the next call can break the cap exactly when more is outstanding than the ledger counts
  (`SignerGuards.CapSafeExactly`), which such a release brings about
  (`SignerGuards.ReleasingOutstandingRowBreaksCap`).
* Handlers that act after an await look at nothing again: not after the request body or the chain, and
  not after the ledger's own answer, which they await before they write the state and the trace. With
  every await a suspension, a schedule keeps intents and ledger coupled wherever they come to rest
  exactly when each write is one its ledger row allows: an execution only over a committed row, a
  validation last over a reserved one, a rejection last over one that is not reserved
  (`IntentInterleavings.EveryScheduleCouplesExactly`). While nothing interrupts a validation, one check
  on the row the handler looks up anyway is exact: no execution resumes over a released row
  (`IntentSchedules.EveryEndCouplesExactly`); what breaks it is never repaired
  (`IntentSchedules.NeverRepaired`). A rejection that interrupts `mark-executed` or `confirm-onchain`
  fails it (`IntentSchedules.RejectDuringMarkUncouples`, `IntentSchedules.RejectDuringConfirmUncouples`).
  Without interruption the split handlers are the whole ones, and the coupling holds in every run
  (`IntentStories.EveryRunIsCoupled`).

`dafny verify dfyconfig.toml` checks the project.

## Model

| member | source | states |
|---|---|---|
| `PolicyVaultContract.PolicyVault.Init` | contracts/policy-vault/src/lib.rs:50-74 | a blank vault either becomes the machine's installed world or stays blank with the same revert |
| `PolicyVaultContract.PolicyVault.AllowAgent` | contracts/policy-vault/src/lib.rs:76-80 | takes the machine's step, owner only |
| `PolicyVaultContract.PolicyVault.RevokeAgent` | contracts/policy-vault/src/lib.rs:82-86 | takes the machine's step, owner only |
| `PolicyVaultContract.PolicyVault.AllowReceiver` | contracts/policy-vault/src/lib.rs:88-92 | takes the machine's step, owner only |
| `PolicyVaultContract.PolicyVault.RevokeReceiver` | contracts/policy-vault/src/lib.rs:94-98 | takes the machine's step, owner only |
| `PolicyVaultContract.PolicyVault.SetLimits` | contracts/policy-vault/src/lib.rs:100-109 | takes the machine's step: zero or crossed limits revert and change nothing |
| `PolicyVaultContract.PolicyVault.SetValidUntil` | contracts/policy-vault/src/lib.rs:111-118 | takes the machine's step: the new expiry must lie in the future |
| `PolicyVaultContract.PolicyVault.ExpireNow` | contracts/policy-vault/src/lib.rs:120-125 | takes the machine's step: valid until the current block time |
| `PolicyVaultContract.PolicyVault.CheckPay` | contracts/policy-vault/src/lib.rs:127-165 | the ordered checks over the stored counters refuse as the history does |
| `PolicyVaultContract.PolicyVault.Pay` | contracts/policy-vault/src/lib.rs:127-180 | the stored fields and the token move as the machine steps, whichever of the revert points is met |
| `PolicyVaultContract.PolicyVault.Fund` | apps/harness/src/live-tier1-ops.ts:236-249 | a token transfer to the vault takes the machine's step |
| `PolicyVaultContract.PolicyVault.GetDayState` | contracts/policy-vault/src/lib.rs:210-216 | the latest day some payment was made on, 0 without payments, the sum over the history's payments of that day, and the exact total |
| `PolicyVaultContract.PolicyVault.IsPayloadUsed` | contracts/policy-vault/src/lib.rs:218-220 | a hash is used exactly when some accepted payment carries it |
| `PolicyVaultContract.Token.TransferFrom` | contracts/policy-vault/src/lib.rs:250-254 | the CEP-18 move, refusing a transfer to oneself and an uncovered amount |
| `VaultMachine.AcceptedMeansPermitted` | contracts/policy-vault/src/lib.rs:127-180 | pay is accepted exactly when every condition holds, the day's total with this payment being within the limit in force; then the history and both balances move by it |
| `VaultMachine.InstallIsGood` | contracts/policy-vault/src/lib.rs:50-74 | a vault that installs starts in the invariant |
| `VaultMachine.StepKeepsGood` | contracts/policy-vault/src/lib.rs:76-180 | every call keeps positive ordered limits, an unwrapped total, distinct hashes, and balance plus payments equal to deposits |
| `VaultMachine.StepKeepsSupply` | contracts/policy-vault/src/lib.rs:244-254 | no call changes the token supply |
| `VaultMachine.RunKeepsGood` | contracts/policy-vault/src/lib.rs:50-254 | every run keeps the invariant and the supply |
| `VaultMachine.RevertChangesNothing` | contracts/policy-vault/src/lib.rs:167-172 | a reverted call changes nothing but the block time |
| `VaultMachine.HashPaysOnce` | contracts/policy-vault/src/lib.rs:158-174 | once a payload hash has paid, no continuation accepts it again |
| `VaultAuthority.OnlyOwnerChangesPolicy` | contracts/policy-vault/src/lib.rs:76-122 | a call that changes any policy field is the owner's and is accepted; owner and address never change |
| `VaultAuthority.ListedAfterCall` | contracts/policy-vault/src/lib.rs:76-98 | an address is listed after a call exactly if the owner just allowed it, or it was listed and the owner did not just revoke it |
| `VaultAuthority.NumbersAfterCall` | contracts/policy-vault/src/lib.rs:100-122 | limits and expiry after a call are the owner's valid new ones, or the old ones |
| `VaultAuthority.PolicyCallAnswers` | contracts/policy-vault/src/lib.rs:76-122 | a policy call answers NotOwner exactly to strangers, and the owner by what is wrong with the arguments |
| `VaultAuthority.PayAnswers` | contracts/policy-vault/src/lib.rs:124-166 | each revert of pay exactly when its check is the first to fail, the counters said of the history with this payment |
| `VaultAuthority.InstallAnswers` | contracts/policy-vault/src/lib.rs:50-74 | init accepts exactly ordered positive limits and a future expiry, and its caller owns a vault that lists nobody |
| `VaultAuthority.StrangersChangeNothing` | contracts/policy-vault/src/lib.rs:218-222 | without a call by the owner a whole run leaves the policy as it is |
| `VaultAuthority.ListedAfterRun` | contracts/policy-vault/src/lib.rs:76-98 | after any run an address is listed exactly if the owner's last word on it stands |
| `VaultAuthority.PaidOnlyAsOwnerAllowed` | contracts/policy-vault/src/lib.rs:124-131 | whenever a payment of a run is accepted, the owner's last word on payer and receiver stood at that moment |
| `VaultAuthority.ExpiredUntilExtended` | contracts/policy-vault/src/lib.rs:111-122 | after expire_now no payment is accepted until the owner has set a later expiry |
| `VaultMachine.PaidDayWithinLimit` | contracts/policy-vault/src/lib.rs:144-156 | from any state, a UTC day on which a run pays at all stays within the largest limit in force during the run, what was paid before it included |
| `VaultMachine.EachDayWithinLimit` | contracts/policy-vault/src/lib.rs:144-156 | from any state, no UTC day of a run pays more than the largest limit in force during the run |
| `VaultMachine.LimitWithinExactly` | contracts/policy-vault/src/lib.rs:100-109 | a bound on the limit at the start holds over the run exactly when no accepted set_limits goes above it |
| `VaultMachine.SpanBound` | contracts/policy-vault/src/lib.rs:136-172 | from any state, a run pays at most the largest limit in force during it times the number of UTC days it spans |
| `VaultMachine.WindowBound` | contracts/policy-vault/src/lib.rs:136-172 | from any state, any 24-hour window of a run pays at most twice the largest limit in force during it |
| `SpendTable.UsedUpdate` | packages/signer-guard/src/spend-ledger.ts:78-92 | replacing one row changes only the cap sums of its old and new scope, by its amount |
| `SpendTable.ReserveSums` | packages/signer-guard/src/spend-ledger.ts:69-121 | a reservation adds its amount to its own scope, stays within the cap, and touches no other scope |
| `SpendTable.ReserveAnswers` | packages/signer-guard/src/spend-ledger.ts:88-118 | the cap is judged before the one row per intent, and only a grant adds a row |
| `SpendTable.SettleSums` | packages/signer-guard/src/spend-ledger.ts:123-139 | commit moves no sum; release returns exactly a reserved row's amount to its own scope |
| `SpendTable.SettleUnknown` | packages/signer-guard/src/spend-ledger.ts:123-139 | an id no row carries settles nothing |
| `SpendTable.SweepSums` | packages/signer-guard/src/spend-ledger.ts:141-153 | the sweep returns to each scope exactly what its stale rows held |
| `SpendTable.EveryRunWithinCap` | packages/signer-guard/src/spend-ledger.ts:67-153 | any run under one cap keeps ids unique, every scope within the cap, and statuses moving only from reserved |
| `SpendLedgerRows.SpendLedger.Reserve` | packages/signer-guard/src/spend-ledger.ts:69-121 | one transaction that acts on the map as a reservation; it throws exactly on a malformed amount, cap or counted row, and then inserts nothing |
| `SpendLedgerRows.SpendLedger.Commit` | packages/signer-guard/src/spend-ledger.ts:123-130 | acts on the map as a commit of a reserved row |
| `SpendLedgerRows.SpendLedger.Release` | packages/signer-guard/src/spend-ledger.ts:132-139 | acts on the map as a release of a reserved row |
| `SpendLedgerRows.SpendLedger.ReleaseExpired` | packages/signer-guard/src/spend-ledger.ts:141-153 | releases exactly the stale reserved rows and returns how many they were |
| `SpendLedgerRows.SpendLedger.FindByIntentId` | packages/signer-guard/src/spend-ledger.ts:155-163 | finds the one row of an intent, or none when there is none |
| `SpendLedgerRows.SpendLedger.UsedOnDay` | packages/signer-guard/src/spend-ledger.ts:165-181 | prints the cap sum, or throws exactly when a counted row is malformed |
| `SpendLedgerRows.SumRowsIsUsed` | packages/signer-guard/src/spend-ledger.ts:92 | the sum over rows is the cap sum of the map they stand for |
| `SpendLedgerRows.SumRowsFailsClosed` | packages/signer-guard/src/spend-ledger.ts:92 | the sum fails exactly when a counted row is malformed; it never under-counts |
| `PolicyRules.CheckPolicyRules` | packages/signer-guard/src/rules.ts:8-33 | no rule fails exactly for a request whose every field the policy allows explicitly |
| `PolicyRules.RulesDenyByRule` | packages/signer-guard/src/rules.ts:8-33 | each code names the first rule the request breaks, every earlier one holding |
| `PolicyRules.LoadedAllowlistGrants` | packages/signer-guard/src/config.ts:16-50 | a policy that loads with an allowlist allows some request |
| `SignerGuards.NextKeepsSound` | packages/signer-guard/src/guard.ts:18-57 | every step of every concurrent call keeps each signed or pending amount backed by its own live row |
| `SignerGuards.EveryInterleavingWithinCap` | packages/signer-guard/src/guard.ts:18-57 | in any interleaving in which outsiders spare the outstanding rows, signed plus pending amounts stay within the cap in every scope |
| `SignerGuards.NextKeepsOnce` | packages/signer-guard/src/spend-ledger.ts:97-118 | every step, outside releases and sweeps included, keeps one outstanding ticket per intent, each intent with a row |
| `SignerGuards.NoIntentSignedTwice` | packages/signer-guard/src/guard.ts:18-57 | in any interleaving whatever, no intent is signed twice |
| `SignerGuards.FailureReturnsOwnBudget` | packages/signer-guard/src/guard.ts:53-56 | a failed signing returns its own reservation and no other |
| `SignerGuards.DenialLeavesNothing` | packages/signer-guard/src/guard.ts:20-43 | a call that does not reach the signer leaves no trace |
| `SignerGuards.SigningMeansAllowed` | packages/signer-guard/src/guard.ts:20-46 | what reaches the signer was allowed field by field, under the signer's own role and key, for that UTC day |
| `SignerGuards.AuthorizeAnswers` | packages/signer-guard/src/guard.ts:18-46 | each answer of authorize exactly: the signer, then the rules, then the ledger |
| `SignerGuards.NextSoundExactly` | packages/signer-guard/src/spend-ledger.ts:132-153 | a step from a sound state stays sound exactly when it releases no outstanding ticket's row that is still reserved |
| `SignerGuards.RunSoundExactly` | packages/signer-guard/src/guard.ts:18-57 | the same for whole interleavings |
| `SignerGuards.CapSafeExactly` | packages/signer-guard/src/spend-ledger.ts:78-95 | in any state, no next call can take what is outstanding above the cap exactly when the ledger counts at least what is outstanding |
| `SignerGuards.FreedRowLowersUsed` | packages/signer-guard/src/spend-ledger.ts:132-153 | an outside release of a ticket's reserved row lowers its scope's sum by at least the ticket's amount |
| `SignerGuards.ReleasingOutstandingRowBreaksCap` | packages/signer-guard/src/spend-ledger.ts:132-153 | where a scope's live rows all belong to tickets, such a release lets some next call break the cap |
| `SignerGuards.FirstGrantReleasedBreaksCap` | packages/signer-guard/src/spend-ledger.ts:132-153 | such a state, concretely: the first request takes the whole cap, its row is released, and the next call breaks the cap |
| `SignerGuards.SignerGuard.BeginAuthorize` | packages/signer-guard/src/guard.ts:18-46 | authorize up to its await takes the protocol's step |
| `SignerGuards.SignerGuard.FinishSigned` | packages/signer-guard/src/guard.ts:46-52 | a resolved signature moves the ticket from pending to signed |
| `SignerGuards.SignerGuard.FinishFailed` | packages/signer-guard/src/guard.ts:53-56 | a rejected signature releases the reservation and answers signer_failed |
| `GatesAgree.SeedPlansShareCaps` | apps/harness/scripts/seed-demo.ts:22-57 | both gates of a seed plan carry the same caps |
| `GatesAgree.NextKeepsCoupled` | apps/harness/scripts/seed-demo.ts:35-56 | every step of either gate keeps the vault's payments covered by distinct live rows |
| `GatesAgree.VaultSpendWithinLedger` | contracts/policy-vault/src/lib.rs:144-156 | the vault's spend of a day is at most the ledger's sum for that day, and that at most the cap |
| `GatesAgree.LedgerOverApproximatesVault` | contracts/policy-vault/src/lib.rs:140-156 | after any coupled run, paying a signed ticket on its day never meets AmountAboveMax or DayLimitExceeded |
| `GatesAgree.SeededGatesAgree` | apps/harness/scripts/seed-demo.ts:22-57 | end to end: from a seed plan, a fresh vault and an empty ledger, every allowed run keeps the vault's day spend within the ledger's and the next ticket payable |
| `IntentRouters.IntentRouter.PostIntent` | apps/api/src/intents/router.ts:85-105 | creation takes the router's step |
| `IntentRouters.IntentRouter.PostValidatePolicy` | apps/api/src/intents/router.ts:124-195 | validation takes the router's step: rules, then the reservation, each outcome traced |
| `IntentRouters.IntentRouter.PostMarkExecuted` | apps/api/src/intents/router.ts:197-235 | mark-executed takes the router's step, including what RegExp.test coerces |
| `IntentRouters.IntentRouter.PostConfirmOnchain` | apps/api/src/intents/router.ts:324-396 | confirm-onchain takes the router's step: a throw or a revert changes nothing, a repeat only echoes |
| `IntentRouters.IntentRouter.PostReject` | apps/api/src/intents/router.ts:420-448 | reject takes the router's step: it releases a row still reserved and leaves a committed one |
| `IntentRouters.IntentRouter.SettleReservation` | apps/api/src/intents/router.ts:221-224 | looks the intent's row up and settles it only while it is reserved |
| `AuditTraces.AuditTraceStore.Append` | packages/audit-trace/src/store.ts:23-31 | the table grows by one row whose key is returned |
| `AuditTraces.ListingIsOrdered` | packages/audit-trace/src/store.ts:33-37 | the listing is exactly the intent's rows, ordered by time and then by key, whatever the clock did |
| `AuditTraces.ListingIsInsertionOrder` | packages/audit-trace/src/store.ts:33-37 | under a clock that never runs back the listing is the insertion order |
| `IntentStories.StepKeepsTold` | apps/api/src/intents/router.ts:85-448 | every handler keeps each intent's state, ledger row and trace rows telling one story |
| `IntentStories.RunKeepsTold` | apps/api/src/intents/router.ts:85-448 | so does every run |
| `IntentStories.IntentsMatchLedger` | apps/api/src/intents/router.ts:124-235 | a row is reserved iff its intent is POLICY_VALIDATED; EXECUTED implies committed, DRAFT no row; amount, token and day are the intent's own |
| `IntentInterleavings.TurnCouplesExactly` | apps/api/src/intents/router.ts:124-448 | one turn, a handler running from one await to the next, stays coupled exactly when the ledger row allows the state it writes |
| `IntentInterleavings.ScheduleCouplesExactly` | apps/api/src/intents/router.ts:124-448 | a schedule of handlers suspended at any of their awaits is coupled throughout exactly when every write passes that check |
| `IntentInterleavings.EveryScheduleCouplesExactly` | apps/api/src/intents/router.ts:85-448 | the same for every schedule from an empty store |
| `IntentSchedules.PlainChecks` | apps/api/src/intents/router.ts:221-225 | while nothing interrupts a validation the check is that no execution resumes over a released row |
| `IntentSchedules.NeverRepaired` | apps/api/src/intents/router.ts:124-448 | once the trace shows an execution over a released row, no continuation couples the store again |
| `IntentSchedules.EndCouplesExactly` | apps/api/src/intents/router.ts:197-448 | a schedule with uninterrupted validations ends coupled exactly when no execution resumed over a released row |
| `IntentSchedules.EveryEndCouplesExactly` | apps/api/src/intents/router.ts:85-448 | the same for every such schedule from an empty store |
| `IntentSchedules.RejectDuringMarkUncouples` | apps/api/src/intents/router.ts:221-225 | a failing schedule: the rejection releases the row and awaits, the mark resumes and records an execution; whatever follows, the store stays uncoupled |
| `IntentSchedules.RejectDuringConfirmUncouples` | apps/api/src/intents/router.ts:348-377 | the same while the confirmation awaits the chain |
| `IntentSchedules.RestingUsedIsHeld` | apps/api/src/vaults/projection.ts:96-101 | coupled and with no write pending, the day sum is the sum over intents validated that day and not released, within the cap |
| `IntentInterleavings.ValidateIsBothHalves` | apps/api/src/intents/router.ts:124-195 | a validation that nothing interrupts is its part before the ledger's answer, then its write |
| `IntentSchedules.UninterruptedConfirmIsWhole` | apps/api/src/intents/router.ts:324-396 | a confirmation resumed and finished at once is the handler as one step |
| `IntentSchedules.UninterruptedMarkIsWhole` | apps/api/src/intents/router.ts:197-235 | a mark-executed resumed and finished at once is the handler as one step |
| `IntentSchedules.UninterruptedRejectIsWhole` | apps/api/src/intents/router.ts:420-448 | a reject resumed and finished at once is the handler as one step |
| `IntentStories.ConflictNeverHappens` | apps/api/src/intents/router.ts:171-183 | validate-policy never answers reservation_conflict |
| `IntentJudgments.CreateAnswers` | apps/api/src/intents/router.ts:85-103 | a request is stored as a draft of exactly the six fields it carries, or refused when one is missing |
| `IntentJudgments.BodyTreeCarries` | apps/api/src/intents/router.ts:97-102 | the body written to the trace carries that body and no other |
| `IntentJudgments.ValidateAnswers` | apps/api/src/intents/router.ts:124-195 | each answer to a draft exactly, by the first rule its own body breaks; validated exactly when it meets every rule and fits the cap |
| `IntentJudgments.ValidateLeaves` | apps/api/src/intents/router.ts:146-195 | what each answer leaves: the state over an unchanged body, and the reserved row of the body's amount and token |
| `IntentJudgments.MarkAnswers` | apps/api/src/intents/router.ts:197-235 | which states and bodies mark-executed moves, and the row it commits |
| `IntentJudgments.MarkFailures` | apps/api/src/intents/router.ts:209-219 | when mark-executed answers 400 and when it throws |
| `IntentJudgments.ConfirmAnswers` | apps/api/src/intents/router.ts:324-396 | only a finalized success of a named hash moves a validated intent, and leaves that hash on it |
| `IntentJudgments.RejectAnswers` | apps/api/src/intents/router.ts:420-448 | reject moves every intent that is not over, and releases its open row |
| `IntentJudgments.ReasonRecorded` | apps/api/src/intents/router.ts:428-447 | the trace row of a rejection holds the request's own reason, or 'rejected' without one |
| `IntentJudgments.DenialCodesDiffer` | packages/signer-guard/src/types.ts:46-57 | different reasons have different codes in the trace |
| `IntentJudgments.StepMoves` | apps/api/src/intents/router.ts:85-448 | an intent moves only by its own request and along these edges; body and creation time never change |
| `IntentJudgments.RejectedIsFinal` | apps/api/src/intents/router.ts:424-427 | a rejected intent is never moved again |
| `IntentJudgments.EveryValidatedWasAllowed` | apps/api/src/intents/router.ts:124-195 | after any run, every intent ever validated has its own receiver, contract, token and network listed and an amount at most the single maximum |
| `IntentStories.UsedIsHeld` | apps/api/src/intents/router.ts:159-195 | the ledger's day sum is the sum over intents validated that day and not released, and within the cap |
| `IntentStories.EveryRunIsCoupled` | apps/api/src/intents/router.ts:85-448 | coupling and day sum after any run from an empty store |
| `IntentStories.ProjectVault` | apps/api/src/vaults/projection.ts:48-77 | usedTodayAtomic prints exactly that sum for the policy's first token, never above the cap; every other field is the policy's own |
| `IntentViews.DeriveIntent` | apps/web/src/lib/intent-view.ts:59-81 | the loop computes the fold of the rows, oldest first |
| `IntentViews.FieldSurvives` | packages/audit-trace/src/redactor.ts:57-66 | redaction passes down to the value of every key it keeps |
| `IntentViews.FoldShowsAll` | apps/web/src/lib/intent-view.ts:59-81 | when rows write different fields, the fold shows what every row says and leaves other fields alone |
| `IntentViews.ReplayRebuildsIntent` | apps/web/src/lib/intent-view.ts:59-81 | the view of the redacted trace has the intent's state and body, the digest iff ever validated, the recorded hash, a hash iff executed with a string, and what each of its rows says |
| `IntentViews.RunReplays` | apps/api/src/intents/router.ts:399-418 | the same after any run with a nondecreasing clock, from any state the invariant allows |
| `IntentViews.EveryRunReplays` | apps/api/src/intents/router.ts:399-418 | the same after any such run from an empty store |
| `IntentViews.MarkedHashReadBack` | apps/api/src/intents/router.ts:217-233 | a marked hash is read back exactly when the request gave it as a string |
| `IntentViews.CoercedHashIsLost` | apps/api/src/intents/router.ts:217-219 | an array of one hash is accepted and then shows no hash |
| `IntentViews.ConfirmedReadBack` | apps/api/src/intents/router.ts:375-394 | a confirmed execution is read back with the verified hash and the chain-resolved kind |
| `IntentViews.RefusalReadBack` | apps/api/src/intents/router.ts:147-158 | a refusal is read back with its code |
| `IntentViews.RejectionReadBack` | apps/api/src/intents/router.ts:428-446 | a rejection is read back with its reason when that is a string |
| `IntentViews.StepperIsHonest` | apps/web/src/lib/intent-view.ts:105-123 | at most one step is current, none exactly on an off-ramp or without a trace; a step is lit exactly when its state is on the trace |
| `IntentViews.StepperShowsOnlyWhatHappened` | apps/web/src/lib/intent-view.ts:105-123 | on a router's trace the skipped payment states stay in the future and only the first link can be done |
| `Tier1Plans.PlanSays` | apps/harness/scripts/run-tier1.ts:48-127 | what a plan that passes guarantees, and the orchestration input it projects to |
| `Tier1Plans.SeedSays` | apps/harness/scripts/seed-demo.ts:22-57 | a seed plan's receiver is a lower-case account address and its caps are ordered digit strings |
| `Tier1Plans.BigIntOfDigits` | apps/harness/src/tier1-pay.ts:28 | BigInt agrees with the digit parser on digit strings |
| `Tier1Answers.BigIntOfRadix` | apps/harness/src/tier1-pay.ts:28 | BigInt reads the prefixes 0x, 0o and 0b as their radix |
| `Tier1Answers.BigIntOfSigned` | apps/harness/src/tier1-pay.ts:28 | a sign before decimal digits is read |
| `Tier1Answers.BigIntTrims` | apps/harness/src/tier1-pay.ts:28 | white space around the text is dropped |
| `Tier1Answers.SeedAcceptsExactly` | apps/harness/scripts/seed-demo.ts:22-57 | a seed plan is built exactly from a complete environment with well-formed hashes and ordered caps |
| `Tier1Answers.MissingIsAbsent` | apps/harness/scripts/seed-demo.ts:22-33 | an environment refused as incomplete is told a variable it lacks |
| `Tier1Answers.SeedConfigures` | apps/harness/scripts/seed-demo.ts:35-56 | every field of both gates' configuration |
| `Tier1Answers.PlanAcceptsExactly` | apps/harness/scripts/run-tier1.ts:48-127 | the pre-flight passes exactly for a complete environment, another text for the blocked receiver, and amounts on their sides of the maximum |
| `Tier1Answers.PlannedAmounts` | apps/harness/scripts/run-tier1.ts:48-127 | the amounts a plan pays and overpays with, an unset one being its default |
| `Tier1Answers.DeclaredCodesAreTheVaults` | apps/harness/src/tier1-rejection.ts:19-25 | the codes a plan declares are the vault's own, and no two reverts share one |
| `Tier1Answers.AddressMeans` | apps/harness/src/live-tier1-ops.ts:76-82 | an address argument is tag 00 or 01 and 64 hex digits of either case |
| `Tier1Answers.PayloadHashNamesPayment` | apps/harness/src/live-tier1-ops.ts:119-121 | under an injective hash a payload hash names receiver and amount |
| `Tier1Runs.OrchestrateTier1` | apps/harness/src/orchestrate-tier1.ts:94-161 | the effects and the loop compute the orchestration function: same final chain, same events or failure |
| `Tier1Runs.RunSetup` | apps/harness/src/orchestrate-tier1.ts:98-118 | install, allow and fund in order, stopping at the first failure |
| `Tier1Answers.PayRevertAnswers` | apps/harness/src/orchestrate-tier1.ts:120-125 | the run reports a reverted payment exactly when setup went well and the payment reverted, with that revert's code |
| `Tier1Answers.ProvokedAnswers` | apps/harness/src/orchestrate-tier1.ts:127-146 | provoked payments all came back with their declared codes, or the first that did not is named with both codes |
| `Tier1Predictions.SetupOutcome` | apps/harness/src/orchestrate-tier1.ts:98-118 | setup succeeds exactly when the amounts fit, the maximum is positive, the supply covers the funding and the expiry is ahead |
| `Tier1Predictions.BlockedReverts` | apps/harness/src/tier1-rejection.ts:54-70 | for an allowed agent the code is 3 exactly for a receiver that is not allowed |
| `Tier1Predictions.OverMaxReverts` | apps/harness/src/tier1-rejection.ts:70-87 | above the maximum the code is 4 exactly while the vault is valid |
| `Tier1Predictions.PlanRunsAsPredicted` | apps/harness/scripts/run-tier1.ts:48-127 | a pre-flighted plan seals its payment and codes 3 and 4 exactly when the remaining conditions hold |
| `Tier1Predictions.AnyOtherTextPasses` | apps/harness/src/tier1-rejection.ts:54-60 | the pre-flight asks of the blocked receiver only that its text differs |
| `Tier1Predictions.CapitalsDefeatPlan` | apps/harness/src/tier1-rejection.ts:58-60 | the allowed receiver in capitals passes the pre-flight and the run fails |
| `PaymentLedgers.PaymentLedger.InsertVerified` | packages/payment-ledger/src/ledger.ts:23-46 | inserts exactly when no row clashes on (nonce, payer, asset) or on the payload hash |
| `PaymentLedgers.PaymentLedger.MarkSettled` | packages/payment-ledger/src/ledger.ts:48-53 | the row of that id becomes settled with the deploy hash |
| `PaymentLedgers.PaymentLedger.MarkFailed` | packages/payment-ledger/src/ledger.ts:57-59 | the row of that id becomes failed, its deploy hash kept |
| `PaymentLedgers.FindHash` | packages/payment-ledger/src/ledger.ts:61-69 | finds a row of that payload hash, or none exactly when there is none |
| `X402Gateways.NextKeepsSound` | packages/x402-gateway/src/gateway.ts:42-74 | every step keeps rows and valid verdicts in correspondence and pending marks aimed at their own row |
| `X402Gateways.OneVerdictEach` | packages/x402-gateway/src/gateway.ts:42-59 | in any interleaving no authorization and no (nonce, payer, asset) gets two valid verdicts |
| `X402Gateways.RefusedMeansReplayed` | packages/x402-gateway/src/gateway.ts:48-57 | a validated payment is refused exactly when its authorization or its triple was already honoured |
| `X402Gateways.VerifyInserts` | packages/x402-gateway/src/gateway.ts:39-58 | an accepted verification inserts one row of the request's own asset, amount, network, nonce and hash and of the facilitator's payer or the authorization's |
| `X402Gateways.RowsKeepFacts` | packages/x402-gateway/src/gateway.ts:60-73 | whatever follows, a row changes only its state and its settlement hash |
| `X402Gateways.SettleTouchesOwnRow` | packages/x402-gateway/src/gateway.ts:61-74 | settle changes the one row of its own authorization and no other |
| `X402Gateways.UnverifiedSettleIsIdle` | packages/x402-gateway/src/gateway.ts:65-72 | settling an authorization that was never verified marks nothing |
| `X402Gateways.X402Gateway.ResumeVerify` | packages/x402-gateway/src/gateway.ts:42-59 | verify, once answered, takes the protocol's step |
| `X402Gateways.X402Gateway.ResumeSettle` | packages/x402-gateway/src/gateway.ts:61-65 | settle, once answered, looks its row up |
| `X402Gateways.X402Gateway.FinishSettle` | packages/x402-gateway/src/gateway.ts:66-72 | settle, after its lookup, marks that row |
| `PaymentHeader.HeaderRoundTrip` | packages/x402-gateway/src/header.ts:9-28 | decoding an encoded schema-valid payload gives it back, and safe decode succeeds on it |
| `PaymentHeader.EncodeHeader` | packages/x402-gateway/src/header.ts:9-11 | the header uses only the base64url alphabet, without padding |
| `PaymentHeader.Base64Spells` | packages/x402-gateway/src/header.ts:10 | each three bytes are four letters of one 24-bit number in the alphabet of section 5 of RFC 4648, a shorter rest without padding |
| `HeaderMeanings.DecodedMeansPayload` | packages/x402-gateway/src/header.ts:13-28 | the safe decoder returns a payload exactly when it is valid and the header's JSON is its document up to key order, nothing missing or added |
| `PaymentHeader.Utf8RoundTrip` | packages/x402-gateway/src/header.ts:10-14 | UTF-8 encoding loses nothing of a well-paired text |
| `Redactor.ReportIsTruthful` | packages/audit-trace/src/redactor.ts:35-69 | on any graph, cyclic or shared, no forbidden key survives, and the flag is true exactly when an object reachable through allowed keys carries one |
| `Redactor.OutputIsRedacted` | packages/audit-trace/src/redactor.ts:44-69 | the walk's output holds no forbidden key at any depth |
| `Redactor.OutputMirrors` | packages/audit-trace/src/redactor.ts:44-69 | buffers and repeated objects are marked, forbidden entries are gone, and everything else stands in its place |
| `Redactor.WalkIsSanitize` | apps/web/src/lib/redact.ts:19-28 | on trees the walk is the browser's sanitize exactly when no Date is kept, so on all JSON, and its flag says whether a forbidden key was exposed |
| `Redactor.SecondPassIsIdle` | packages/audit-trace/src/redactor.ts:35-69 | a second pass over the output changes nothing and reports false |
| `Redactor.SanitizeRedacts` | apps/web/src/lib/redact.ts:19-28 | sanitize leaves no forbidden key |
| `Redactor.RedactWithReport` | packages/audit-trace/src/redactor.ts:35-42 | the walk that mutates its seen set and flag computes that output and that report |
| `Redactor.SanitizeObject` | apps/web/src/lib/redact.ts:22-27 | the loop over entries computes sanitize of an object |
| `Canonical.CanonicalJsonIdentifies` | packages/shared/src/canonical.ts:3-18 | two texts are equal exactly when the values are equal up to key order |
| `Canonical.CanonicalJsonIsFaithful` | packages/shared/src/canonical.ts:3-18 | the text parses back to the canonical value, which means the same and is a fixed point |
| `Canonical.CanonicalizeKeepsMeaning` | packages/shared/src/canonical.ts:7-18 | canonicalizing changes only key order |
| `Canonical.SameMeaningSameForm` | packages/shared/src/canonical.ts:7-18 | values equal up to key order get one form |
| `Canonical.CanonicalKeysInOrder` | packages/shared/src/canonical.ts:12 | at every depth index keys come first by value, the others by their first different code unit |
| `Canonical.CanonicalFormIsUnique` | packages/shared/src/canonical.ts:7-18 | the canonical form is the one document of that meaning with its keys so ordered |
| `LexOrders.LexMeansFirstDifference` | packages/shared/src/canonical.ts:12 | the sort order is decided by the first differing code unit, a proper prefix first |
| `JsStrings.IndexValueOrders` | packages/shared/src/canonical.ts:11-13 | index keys compare by length and then as texts |
| `JsStrings.IsIndexMeans` | packages/shared/src/canonical.ts:11-13 | which keys are indices, as texts |
| `Canonical.CanonicalizeObject` | packages/shared/src/canonical.ts:9-16 | the loop over sorted keys fills the object in enumeration order, integer-like keys first |
| `JsonText.TextRoundTrip` | packages/shared/src/canonical.ts:4 | printed JSON parses back to the same document in the full grammar of RFC 8259 |
| `JsonText.StringifyInjective` | packages/shared/src/canonical.ts:4 | different documents print differently |
| `JsonForms.StringifyIs` | packages/shared/src/canonical.ts:4 | each kind of document in full: literals, quoted pieces, parts joined by a comma alone |
| `JsonForms.EscapeIsPieces` | packages/shared/src/canonical.ts:4 | each code unit stands for itself, a two-character escape or four lower-case hex digits, lone surrogates among the last |
| `Digests.PolicyDigestIdentifies` | packages/signer-guard/src/digest.ts:4-6 | under an injective hash, equal policy digests mean equal policies |
| `Digests.PayloadHashIdentifies` | packages/x402-gateway/src/gateway.ts:52 | under an injective hash, equal payload hashes mean equal authorizations |
| `DigestTexts.AuthorizationText` | packages/x402-gateway/src/gateway.ts:52 | the hashed text of an authorization, letter for letter |
| `DigestTexts.PolicyText` | packages/signer-guard/src/digest.ts:4-6 | the hashed text of a policy: its nine names in order, each with its own field |
| `Calendar.EqualDayStrings` | packages/signer-guard/src/spend-ledger.ts:202-204 | when two instants share a day string, over the whole date range |
| `Calendar.SameDayString` | contracts/policy-vault/src/lib.rs:144 | in the years 1970 to 9999 the ledger's day string and the vault's day index agree |
| `Calendar.DayStringReadsBack` | packages/signer-guard/src/spend-ledger.ts:202-204 | in the years 0 to 9999 the year, month and day read off the string are a real date whose closed-form number is the day |
| `Calendar.DayStringCollidesAfter9999` | packages/signer-guard/src/spend-ledger.ts:202-204 | two different days with one day string |
| `Calendar.CivilRoundTrip` | packages/signer-guard/src/spend-ledger.ts:203 | the calendar date of a day number is a real date and leads back to it |
| `Calendar.CivilUnique` | packages/signer-guard/src/spend-ledger.ts:203 | each real date is the date of its day number |
| `Calendar.DateInClosedForm` | packages/signer-guard/src/spend-ledger.ts:203 | every real date has the day number of a closed form that uses no month table |
| `Calendar.NextMidnightIsNextKey` | apps/web/src/lib/vault.ts:43-54 | the countdown's midnight is exactly where the day string changes |
| `Calendar.CountdownIsHonest` | apps/web/src/lib/vault.ts:54-59 | the printed hours and minutes never claim more time than is left, and less than a minute less |
| `Decimal.PrintParse` | packages/signer-guard/src/spend-ledger.ts:51-56 | printing undoes parsing exactly on digit strings without a leading zero |
| `Decimal.ParsePrint` | packages/signer-guard/src/spend-ledger.ts:51-56 | parsing undoes printing |
| `Decimal.ValueOrders` | packages/signer-guard/src/spend-ledger.ts:51-56 | digit strings without leading zeros denote numbers ordered by length and then by the first different digit |
| `IntentIds.MintIntentId` | packages/intent-fsm/src/branded.ts:8-17 | the 26-round loop writes the buffer's number in 26 base-32 characters |
| `IntentIds.IdDecodes` | packages/intent-fsm/src/branded.ts:8-17 | the characters decode back to the number, and the first is at most '7' |
| `IntentIds.IdsOrderAsBuffers` | packages/intent-fsm/src/branded.ts:8-17 | ids sort as their buffers do, and different buffers get different ids |
| `IntentIds.RoundsSuffice` | packages/intent-fsm/src/branded.ts:12 | 2^128 is at most 32^26 |
| `FinalityPolls.AwaitDeployFinalized` | packages/adapters/src/casper-deploy.ts:90-128 | the earliest poll with a result answers after one sleep per earlier poll, or it throws after the whole budget; kind and height are the answering lookup's, success is exactly no message or an empty one, and a vault revert comes back as a failure with its code |
| `FinalityPolls.UserErrorReadsBack` | packages/adapters/src/casper-deploy.ts:121-122 | "User error: N" is read back as N whatever surrounds it; the first marker counts |
| `FinalityPolls.RevertCodeReadsBack` | packages/adapters/src/casper-deploy.ts:121-122 | every revert of the vault keeps its discriminant |
| `FinalityPolls.NoMarkNoCode` | packages/adapters/src/casper-deploy.ts:117-122 | a number without the marker is never taken for a code |

## Left out

- HTTP routing, CORS, request parsing, React components and hooks, wallet bridging: plumbing.
- casper-js-sdk: encodings, deploy building, signing and signature validation are foreign code; an amount argument is a decimal string below 2^256 and a key argument 64 hex digits of either case, anything else is taken to throw.
- `odraInstallArgs` and named-key recovery: the install arguments Odra itself consumes.
- SHA-256, UUIDs and random bytes: an injective hash, fresh ids and an arbitrary buffer.
- SQLite and drizzle: tables with the declared UNIQUE constraints and atomic statements.
- The canonical intent state table: the router's states do not conform to it and no conformance is claimed.
- build-unsigned-deploy and the intent list: they change no state.
- A ledger call that throws inside commit or release: the database is taken to answer.
- `releaseExpired` in router runs: it is not wired to the router; it is proved on the ledger alone.
- Binding a deploy hash to one intent: the router does not check it.
- Finality of a settled payment: `markSettled` and `markFailed` carry no guard on the state.
- The ledger's own clock: a reservation carries the time its caller read.
- `listForSigner`, recent debits, meter drawing: not scoped to a day.
- Vault events other than the payment record, and the getters that revert on an uninitialised vault.
- buildTier1RealConfig: the expiry and the WASM paths are given; only the caps and the supply are read from the environment.
- Values outside JSON and the spelling of numbers that JSON.parse would rewrite; canonical JSON is stated for objects with each key once, as JSON.parse builds them.
- Header texts with characters outside the base64url alphabet, and bytes that are ill-formed UTF-8: assumed to fail to decode, although Buffer skips or replaces them.
- Objects outside JSON other than a Date under sanitize: all are taken to have no entries, as a Date has none.
- An own `__proto__` key under the redactor: the prototype it sets is not modelled, only that no own key results.
- Error codes above 2^53: reported as rounded.
- FinalityPolls.AwaitDeployFinalized: transport timeouts and the poll interval's length are not modelled.
- Tier1Runs.OrchestrateTier1: deploy hashes and block heights are represented by the position of the deploy.
