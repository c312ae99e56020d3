# Verified models of the Kleomedes contracts

A Dafny model of five CosmWasm contracts and proofs about them: the proposal module
(`klmd-custom-proposal`), the vesting contract (`klmd-custom-vesting`), the voting-power module that
reads it (`klmd-dao-vesting-voting-power`), the Merkle airdrop (`klmd-airdrop`) and the token
(`klmd-cw20`).

Each contract that changes storage appears twice. A class (`ProposalModule`, `VestingModule`,
`AirdropModule`, `TokenModule`) holds the storage items as fields, and its methods load, change and
save them in the order the source does; its `Execute` adds the chain's rollback of failed messages.
Every method is proved against a step function on values (modules `Governance`, `Vesting`, `Airdrop`,
`Cw20`), each handler against the step of the same name and `Execute` against the whole; what the source
promises is proved about those steps and about runs of them. Voting power and the status tests are pure
in the source and are functions here.

| file | contents |
|---|---|
| `cosmos.dfy`, `sums.dfy`, `snapshots.dfy`, `voting.dfy` | chain and library notions: checked 128-bit arithmetic, blocks, expirations, sums over maps, snapshot storage, thresholds |
| `proposal.dfy`, `early_decisions.dfy` | the status of one proposal; early verdicts are exact |
| `governance.dfy`, `governance_invariants.dfy`, `deposits.dfy`, `late_decision.dfy`, `proposal_ends.dfy`, `proposal_terms.dfy`, `proposal_contract.dfy` | the proposal module: steps, invariants over runs, deposit ledger, refinement of a machine that decides only at the close, how a proposal ends and when it cannot, what is proposed and sent, the contract class |
| `vesting_account.dfy`, `vesting.dfy`, `vesting_history.dfy`, `vesting_payouts.dfy`, `vesting_recipients.dfy`, `vesting_contract.dfy` | vesting: amounts, steps, snapshot history, conservation and availability, who is paid, the contract class |
| `voting_power.dfy`, `shipped_module.dfy` | the two power formulas and the activity check; when the module's answers are fair to the proposal module |
| `merkle.dfy`, `airdrop.dfy` | sorted-pair trees, the airdrop steps and class |
| `cw20.dfy`, `token_movements.dfy` | balances and allowances, steps and class; who holds what |

## Assumptions

- A panic (overflow, `unwrap` of an error) is a failure like any returned error. Amounts are checked
  against 128 bits exactly where the source checks or panics. Block heights, times and proposal ids
  are unbounded.
- `compare_vote_count` and `Threshold::validate` belong to the external `voting` crate and are not part
  of the repository. Votes are compared exactly, as `yes >= total_votes * percent` in the schema says
  (`contracts/klmd-custom-proposal/schema/execute_msg.json:850`); valid thresholds have
  0 < percentage <= 1 and 0 <= quorum <= 1.
- `Fair`: the voting module reports fixed powers at a height, the same whichever DAO the configuration
  names, and they add up to at most the reported total. It is an assumption on the module, used for the
  results that need a tally within the total power and for nothing else; tallies equal stored ballots
  and evaluations abort as `ReachableAbortsExactly` says without it. Such modules exist
  (`LateDecision.OneVoterIsFair`); the repository's own voting module is one only while the condition of
  `ShippedModule.FairExactly` holds, which deregistering an account can violate (see the findings).
- A storage snapshot records the replaced value at the first save of a height; a query at a height
  answers the first record at or after it, else the current value.
- SHA-256 is any function from inputs to digests; a leaf input and a pair input are different inputs,
  and so are two leaf inputs that differ in address or amount. Soundness results name a hash
  collision as the alternative.
- Block height and time never decrease.

## Findings

- The 100% branches of `is_rejected` are redundant under exact counting (`HundredPercentBranchIsRedundant`).
- `VESTING_TOTAL` is saved at instantiation under the current height, while snapshots are filed under
  the previous one. Queries of the total at exactly the instantiation height therefore always answer
  zero, which is wrong exactly if the last snapshot of that block had an account with something
  pre-vested (`TotalQueriesRightExceptAtBirth`, `BirthAnswerCanBeWrong`).
- Registration does not check that the vesting products fit in 128 bits. A snapshot computes every
  account's row, so one account whose product does not fit stops every snapshot and everyone's claims for
  a while. Exactly when all later snapshots and claims succeed is a condition on the registered accounts
  (`SnapshotsAlwaysSucceedExactly`, `ClaimsAlwaysSucceedExactly`); `OneAccountStopsAnother` is a run
  from instantiation that violates it.
- Deregistering takes the account out of the total but leaves its last row in place, so the voting-power
  module keeps reporting its power. Reported powers add up to the reported total exactly if no such row
  carries power (`ReportedPowersAddUp`, `DeregisteredKeepsPower`).
- The voting-power module is therefore not fair in general: it is exactly while no row has power that the
  total leaves out (`FairExactly`). Without fairness an evaluation can abort in exactly one situation, a
  proposal with revoting past its expiration whose abstentions outweigh the total power, or whose tally
  under a quorum exceeds 128 bits (`ReachableAbortsExactly`). Such a proposal can never be decided, executed
  or closed, and its deposit stays (`StuckForever`); `ShippedModuleSticks` is a run across the vesting and
  proposal contracts that ends there.
- A proposal can be decided by the message that creates it (`DecidedByCreation`); the verdict is still the
  one counted ballots would give (`EarlyRefinesLate`).
- The activity percentage drops a remainder below 10^9 atomics (`ActivityExactUnlessRemainderDropped`).
- Initial balances of the token add up to the supply exactly if no address with tokens is listed again
  (`InitialSupplyExact`).

## Model

| member | source | states |
|---|---|---|
| EarlyDecisions.RejectedIffUnreachable | contracts/klmd-custom-proposal/src/proposal.rs:69-90 | the inverted no-vote test says exactly that the proposal fails even if everyone else votes yes |
| EarlyDecisions.HundredPercentBranchIsRedundant | contracts/klmd-custom-proposal/src/proposal.rs:184-202 | the special 100% branch never changes the result |
| EarlyDecisions.TestsNeverPanic | contracts/klmd-custom-proposal/src/proposal.rs:106-280 | on a tally within the total power no subtraction or addition of the status tests aborts |
| EarlyDecisions.ClosedPassExact | contracts/klmd-custom-proposal/src/proposal.rs:143-167 | past the expiration the pass test is the reference verdict |
| EarlyDecisions.VerdictInNumbers | contracts/klmd-custom-proposal/src/proposal.rs:52-67 | the reference verdict in plain numbers, for every kind of threshold: the share of the power not abstaining, the share of yes and no votes under a quorum, or the count |
| EarlyDecisions.EarlyPassExact | contracts/klmd-custom-proposal/src/proposal.rs:123-167 | before the close, without revoting, "passed" holds iff the minimum period is over and every tally still reachable passes at the close |
| EarlyDecisions.EarlyRejectExact | contracts/klmd-custom-proposal/src/proposal.rs:169-280 | before the close, without revoting, "rejected" holds iff no tally still reachable passes at the close |
| EarlyDecisions.EarlyVerdictsExactOverFutures | contracts/klmd-custom-proposal/src/proposal.rs:123-125 | the same over every future in which each remaining voter votes or stays away |
| EarlyDecisions.PassAndRejectExclude | contracts/klmd-custom-proposal/src/proposal.rs:126-280 | the two tests never both hold |
| EarlyDecisions.ClosedRejectExact | contracts/klmd-custom-proposal/src/proposal.rs:178-279 | past the expiration the rejection test is the opposite of the verdict with a quorum, and otherwise asks whether even all votes not cast would not help |
| EarlyDecisions.QuorumDecidesAtClose | contracts/klmd-custom-proposal/src/proposal.rs:206-271 | with a quorum exactly one of the tests holds at the close |
| EarlyDecisions.StatusAtClose | contracts/klmd-custom-proposal/src/proposal.rs:106-116 | an open proposal past its expiration reads passed or rejected by the reference verdict, undecided tallies as rejected |
| EarlyDecisions.StatusAtCloseInNumbers | contracts/klmd-custom-proposal/src/proposal.rs:106-167 | an open proposal past its expiration reads passed exactly if those numbers say so |
| EarlyDecisions.StatusBeforeClose | contracts/klmd-custom-proposal/src/proposal.rs:106-116 | before the close the status is the one its reachable tallies dictate |
| EarlyDecisions.RevotingDecidesNothingEarly | contracts/klmd-custom-proposal/src/proposal.rs:127-131 | with revoting the status stays open until the close |
| EarlyDecisions.LazyStatusIsPathIndependent | contracts/klmd-custom-proposal/src/proposal.rs:105-121 | storing the status at one block and evaluating at a later one gives what evaluating once gives |
| EarlyDecisions.MisalignedPeriodsDisagree | contracts/klmd-custom-proposal/src/proposal.rs:137-141 | path independence needs the minimum period to end with the vote at the latest |
| GovernanceInvariants.PeriodsValidExactly | contracts/klmd-custom-proposal/src/utils.rs:31-53 | the period validation accepts exactly the pairs whose minimum period can never outlast the vote |
| GovernanceInvariants.NewProposalAligned | contracts/klmd-custom-proposal/src/contract.rs:176-196 | a new proposal's minimum period is over once it expires |
| GovernanceInvariants.VoteEffect | contracts/klmd-custom-proposal/src/contract.rs:309-366 | a successful vote replaces the sender's ballot and turns the tally into that of the new ballots |
| GovernanceInvariants.VoteCountedExactly | contracts/klmd-custom-proposal/src/contract.rs:309-366 | a vote succeeds iff the proposal is open, the sender has power, and an earlier ballot may be and is changed |
| GovernanceInvariants.CountingSucceeds | contracts/klmd-custom-proposal/src/contract.rs:356-363 | taking out a replaced ballot and adding the new one never under- or overflows |
| GovernanceInvariants.StepKeepsInv | contracts/klmd-custom-proposal/src/contract.rs:88-132 | every message keeps yes, no and abstain counts equal to the sums of stored ballots, ids contiguous, periods aligned |
| GovernanceInvariants.RunKeepsInv | contracts/klmd-custom-proposal/src/contract.rs:82-133 | so does every run |
| GovernanceInvariants.InstantiateInv | contracts/klmd-custom-proposal/src/contract.rs:38-79 | instantiation establishes the invariant |
| GovernanceInvariants.RunKeepsBacked | contracts/klmd-custom-proposal/src/contract.rs:316-321 | under a fair voting module every run keeps ballots at their reported power and total powers at the reported total |
| GovernanceInvariants.ReachableNeverPanics | contracts/klmd-custom-proposal/src/proposal.rs:145-161 | from instantiation on, tallies stay within the total power and evaluating a status cannot abort |
| GovernanceInvariants.StepMovesForward | contracts/klmd-custom-proposal/src/contract.rs:257-267 | a message changes no terms of a proposal; passed moves only to executed, rejected only to closed; only a proposal that reads passed is executed, only one that reads rejected closed; decided tallies are frozen |
| GovernanceInvariants.RunMovesForward | contracts/klmd-custom-proposal/src/contract.rs:399-422 | the same over runs: what was executed, or closed, on the way was so by a message that found it reading passed, or rejected |
| GovernanceInvariants.FinalisedOnce | contracts/klmd-custom-proposal/src/contract.rs:262-267 | a proposal is executed or closed at most once in a run, never both |
| Deposits.StepKeepsLedger | contracts/klmd-custom-proposal/src/state.rs:118-162 | a message sends exactly the messages by which the proposals' ledger entries grow |
| Deposits.LedgerIsExact | contracts/klmd-custom-proposal/src/contract.rs:266-272 | over any run the messages sent are, as a multiset and up to the DAO of a hook: one deposit request per proposal with a deposit, its own messages once if executed, one refund to the proposer in the amount fixed at creation if executed or closed with refund |
| Deposits.DepositsConserved | contracts/klmd-custom-proposal/src/contract.rs:410-422 | in every token, requested = refunded + held + forfeited |
| LateDecision.EffectOf | contracts/klmd-custom-proposal/src/contract.rs:301-438 | what any message can do to one proposal without revoting |
| LateDecision.StepKeepsAgree | contracts/klmd-custom-proposal/src/contract.rs:301-391 | the early-deciding contract and the machine that keeps counting stay related |
| LateDecision.RunKeepsAgree | contracts/klmd-custom-proposal/src/contract.rs:301-391 | so does every run |
| LateDecision.StatusFollows | contracts/klmd-custom-proposal/src/proposal.rs:106-116 | for related states the computed status is the other machine's verdict, or open with equal ballots before the close |
| LateDecision.CreatedAgrees | contracts/klmd-custom-proposal/src/contract.rs:180-196 | a new proposal, even one its own creation decides, is related to a machine without ballots |
| LateDecision.EarlyRefinesLate | contracts/klmd-custom-proposal/src/contract.rs:135-391 | every proposal any run creates without revoting, whatever messages follow: past its expiration the verdict is that of the ballots counted from creation to the close, however early it was decided |
| LateDecision.OpenProposalRefinesLate | contracts/klmd-custom-proposal/src/proposal.rs:106-121 | the same from the middle of a vote, for a proposal still stored as open |
| LateDecision.DecidedByCreation | contracts/klmd-custom-proposal/src/contract.rs:194-196 | a run whose proposal is stored as rejected by the message that creates it |
| ProposalEnds.EveryProposalEnds | contracts/klmd-custom-proposal/src/contract.rs:239-438 | over any run under a fair module, past its expiration a proposal neither executed nor closed can be closed iff its ballots lose, and executed iff they win and the sender may execute |
| ProposalEnds.EndsEarlyExactly | contracts/klmd-custom-proposal/src/contract.rs:239-438 | before its expiration a proposal can be executed iff, without revoting, its minimum period is over, no remaining vote can make it lose and the sender may; closed iff, without revoting, none can make it win |
| ProposalEnds.StatusAbortsExactly | contracts/klmd-custom-proposal/src/proposal.rs:106-280 | for any tally at all, per kind of threshold, exactly when evaluating the status aborts |
| ProposalEnds.ReachableAbortsExactly | contracts/klmd-custom-proposal/src/proposal.rs:127-161 | over any run and any voting module: only with revoting, past the expiration, and with more abstentions than total power or, under a quorum, a tally beyond 128 bits |
| ProposalEnds.StuckForever | contracts/klmd-custom-proposal/src/contract.rs:239-438 | no later run changes a proposal whose evaluation aborts so |
| ProposalTerms.ConfigAcceptedExactly | contracts/klmd-custom-proposal/src/contract.rs:45-60 | the configurations accepted, in plain numbers and by when the periods end |
| ProposalTerms.CreationExact | contracts/klmd-custom-proposal/src/contract.rs:38-79 | an accepted configuration and the given addresses are stored, and nothing else |
| ProposalTerms.ProposeSucceedsExactly | contracts/klmd-custom-proposal/src/contract.rs:135-215 | a proposal is accepted iff the DAO is active, its sender is an allowed member and it is small enough |
| ProposalTerms.ProposedTerms | contracts/klmd-custom-proposal/src/contract.rs:176-232 | every term of a new proposal is what the message and the configuration of that moment say, its periods by the blocks at which they end; nothing else changes |
| ProposalTerms.SettingsFollowTheDao | contracts/klmd-custom-proposal/src/contract.rs:441-605 | only the DAO changes the configuration and the allowed addresses, as its messages say |
| ProposalTerms.EverythingSentIsExplained | contracts/klmd-custom-proposal/src/contract.rs:266-281 | every message sent in a run: proposed messages go to the DAO configured at that moment by an execution while the proposal reads passed, requests to the proposer, refunds to the proposer |
| ProposalTerms.ProposedIsExecuted | contracts/klmd-custom-proposal/src/contract.rs:135-438 | over any runs before and after: execution sends exactly the messages proposed, to the DAO, and refunds the deposit configured at the time; closing refunds iff that configuration said so |
| ProposalContract.ProposalModule.Instantiate | contracts/klmd-custom-proposal/src/contract.rs:38-79 | fails for invalid thresholds or periods, else starts empty |
| ProposalContract.ProposalModule.Execute | contracts/klmd-custom-proposal/src/contract.rs:82-605 | one message through its handler, a failed one rolled back, moves the stored items and sends what the run relation says |
| VestingAccounts.VestedMonotone | contracts/klmd-custom-vesting/src/state.rs:105-119 | the vested amount never shrinks and never exceeds the grant |
| VestingAccounts.VestedLaw | contracts/klmd-custom-vesting/src/state.rs:105-119 | nothing before the start, the grant from the end on, and in between the elapsed part of the grant, less than one token short |
| VestingAccounts.PrevestedLaw | contracts/klmd-custom-vesting/src/state.rs:121-140 | the same from registration to the start, never below the configured floor |
| VestingAccounts.PrevestedCapMonotone | contracts/klmd-custom-vesting/src/state.rs:121-140 | the smaller of pre-vested and grant never shrinks and is the grant from the start on |
| VestingAccounts.ChecksAreExact | contracts/klmd-custom-vesting/src/state.rs:105-140 | the checked computations return the linear amounts and fail only by overflow of the product |
| VestingAccounts.NeverAbortsExactly | contracts/klmd-custom-vesting/src/state.rs:200-205 | a row can be computed at every later block iff the largest products fit |
| VestingAccounts.RegistrationAcceptsUnaffordable | contracts/klmd-custom-vesting/src/state.rs:76-103 | validation accepts an account whose row later overflows |
| Snapshots.SaveThenLoad | contracts/klmd-custom-vesting/src/contract.rs:83-91 | a save filed under the previous height is seen from its own block on and nowhere before |
| VestingHistory.ComputedRowOk | contracts/klmd-custom-vesting/src/state.rs:200-220 | a computed row has claimed <= vested <= grant, and nothing vested while pre-vesting is incomplete |
| VestingHistory.AccountsAfter | contracts/klmd-custom-vesting/src/contract.rs:134-275 | every message leaves accounts well formed with claimed <= vested |
| VestingHistory.SnapshotKeepsHistory | contracts/klmd-custom-vesting/src/contract.rs:71-95 | a snapshot extends the recorded history by itself and keeps all answers right |
| VestingHistory.InstantiateInv | contracts/klmd-custom-vesting/src/contract.rs:15-36 | instantiation establishes the invariant |
| VestingHistory.DeliverKeepsInv | contracts/klmd-custom-vesting/src/contract.rs:39-60 | every message keeps it |
| VestingHistory.RunKeepsInv | contracts/klmd-custom-vesting/src/contract.rs:39-60 | over any run accounts and history obey the invariant |
| VestingHistory.RowQueriesRight | contracts/klmd-custom-vesting/src/contract.rs:314-319 | an account query answers the last row stored at or before the height; for registered accounts the governing snapshot's |
| VestingHistory.ZeroTotalExactly | contracts/klmd-custom-vesting/src/contract.rs:105-132 | a snapshot's total is zero iff none of its accounts had pre-vested anything |
| VestingHistory.TotalQueriesRightExceptAtBirth | contracts/klmd-custom-vesting/src/contract.rs:305-312 | a total query is right iff it is not at the instantiation height, or the last snapshot of that block had no account with anything pre-vested; up to that height it answers zero |
| VestingHistory.BirthAnswerCanBeWrong | contracts/klmd-custom-vesting/src/contract.rs:27-34 | a run whose total query at the instantiation height is wrong |
| VestingHistory.HistoryIsImmutable | contracts/klmd-custom-vesting/src/contract.rs:83-91 | later messages never change an answer below their block |
| VestingPayouts.SettlementAmounts | contracts/klmd-custom-vesting/src/contract.rs:190-218 | the two settlement transfers add up to claimable plus left-over |
| VestingPayouts.DeliverKeepsBalanced | contracts/klmd-custom-vesting/src/contract.rs:186-251 | every message keeps payouts equal to settled grants plus recorded claims |
| VestingPayouts.PayoutsConserved | contracts/klmd-custom-vesting/src/contract.rs:134-275 | over any run, per account address: paid on its account = grants of deregistered accounts + claimed of the present one, which is at most vested and granted; registered grants = grants of deregistered accounts + grant of the present one |
| VestingRecipients.SucceedsExactly | contracts/klmd-custom-vesting/src/contract.rs:39-275 | for every kind of message exactly when it goes through |
| VestingRecipients.AccountFollows | contracts/klmd-custom-vesting/src/contract.rs:134-275 | what each message leaves of each account: the terms of its registration, the claimed amount raised to what has vested, removal |
| VestingRecipients.CreatorOwns | contracts/klmd-custom-vesting/src/contract.rs:97-103 | the owner stays the creator until the creator hands the contract over |
| VestingRecipients.ReceivedExactly | contracts/klmd-custom-vesting/src/contract.rs:186-268 | over any run, by the recipients of the transfers: an address receives exactly what claims of its own accounts and settlements naming it make due, and those claims are the claimed amounts on record |
| VestingPayouts.RowExact | contracts/klmd-custom-vesting/src/state.rs:200-220 | a row can be computed iff its products fit, and shows the account and its amounts at that time |
| VestingPayouts.SnapshotExact | contracts/klmd-custom-vesting/src/contract.rs:71-95 | a snapshot succeeds iff each account's products and all totals fit in 128 bits at its block |
| VestingPayouts.ClaimExact | contracts/klmd-custom-vesting/src/contract.rs:232-275 | a claim for a registered account succeeds iff the same holds, of all accounts |
| VestingPayouts.OneRowStopsAllClaims | contracts/klmd-custom-vesting/src/contract.rs:77-81 | where one account's row cannot be computed, every claim for every account fails |
| VestingPayouts.ReadyForeverExactly | contracts/klmd-custom-vesting/src/state.rs:105-140 | everything fits at all later times iff every account is affordable and the totals fit at the end of all vesting and just before each start to come |
| VestingPayouts.SnapshotsAlwaysSucceedExactly | contracts/klmd-custom-vesting/src/contract.rs:77-89 | all later snapshots succeed iff that condition on the registered accounts holds now |
| VestingPayouts.ClaimsAlwaysSucceedExactly | contracts/klmd-custom-vesting/src/contract.rs:232-258 | all later claims for registered accounts succeed iff the same condition holds |
| VestingPayouts.AffordabilityDecides | contracts/klmd-custom-vesting/src/contract.rs:71-95 | when the ceilings fit together, snapshots and claims always succeed iff every account is affordable |
| VestingPayouts.OneAccountStopsAnother | contracts/klmd-custom-vesting/src/contract.rs:134-165 | a run from instantiation after which the owner of an affordable account cannot claim because of another account |
| VestingContract.VestingModule.constructor | contracts/klmd-custom-vesting/src/contract.rs:15-36 | starts without accounts, the zero total filed under the current height |
| VestingContract.VestingModule.CollectRows | contracts/klmd-custom-vesting/src/contract.rs:72-81 | yields each registered account's row once, or fails if any cannot be computed |
| VestingContract.VestingModule.ComputeTotalVestingInfo | contracts/klmd-custom-vesting/src/contract.rs:105-132 | the loop computes the sums over all rows in whatever order, or fails iff one overflows |
| VestingContract.VestingModule.SaveSnapshot | contracts/klmd-custom-vesting/src/contract.rs:71-95 | the loops save every row under the previous height and the total of all rows, or fail as the snapshot step does |
| VestingContract.VestingModule.Execute | contracts/klmd-custom-vesting/src/contract.rs:39-275 | one message through its handler, a failed one rolled back, is one step: new storage, transfers and attributes |
| VotingPower.PowerPlusClaimed | contracts/klmd-dao-vesting-voting-power/src/contract.rs:356-361 | individual power plus claims is the smaller of pre-vested and grant |
| VotingPower.ReportedPower | contracts/klmd-dao-vesting-voting-power/src/contract.rs:356-363 | the reported power is stake plus that power, or none beyond 128 bits |
| VotingPower.ReportedTotal | contracts/klmd-dao-vesting-voting-power/src/contract.rs:381-385 | the reported total is all stakes plus the rows' powers, or none beyond 128 bits |
| VotingPower.AccountPowerOverTime | contracts/klmd-dao-vesting-voting-power/src/contract.rs:356-361 | the same along an account's life; power never shrinks between claims and is grant minus claims from the start on |
| VotingPower.TotalsOfRows | contracts/klmd-custom-vesting/src/contract.rs:111-121 | a snapshot's total power is the sum of its rows' individual powers |
| VotingPower.TotalPowerIsSum | contracts/klmd-dao-vesting-voting-power/src/contract.rs:381-385 | over any run, at heights above the instantiation block, queried total = sum of queried individual powers of the accounts of the governing snapshot |
| VotingPower.VestingPowerOfSet | contracts/klmd-dao-vesting-voting-power/src/contract.rs:356-361 | over any run, the vesting powers of any set of addresses with the governing accounts in it = queried total + what rows of the others still carry |
| VotingPower.ReportedPowersAddUp | contracts/klmd-dao-vesting-voting-power/src/contract.rs:363-387 | with any stakers, the reported powers of all add up to the reported total plus the power of rows outside the governing snapshot, and to the total itself iff no deregistered account's last row carries power |
| VotingPower.DeregisteredKeepsPower | contracts/klmd-custom-vesting/src/contract.rs:180-184 | a run in which a deregistered account keeps its power while the total is zero |
| ShippedModule.CapsIsSum | contracts/klmd-dao-vesting-voting-power/src/contract.rs:334-387 | no ballots with the reported powers outweigh a total iff the powers of all stakers and all addresses with rows add up to at most it |
| ShippedModule.FairAtExactly | contracts/klmd-dao-vesting-voting-power/src/contract.rs:334-387 | over any run, at any height: ballots stay within the reported total iff no row, of a deregistered account or of the instantiation block, has power the total leaves out |
| ShippedModule.FairExactly | contracts/klmd-dao-vesting-voting-power/src/contract.rs:334-387 | the same for all heights at once: exactly when the module is fair |
| ShippedModule.AbstentionSticks | contracts/klmd-custom-proposal/src/contract.rs:309-391 | a voter with more power than the total gets a proposal stuck by proposing and abstaining, under a percentage threshold with revoting |
| ShippedModule.ShippedModuleSticks | contracts/klmd-dao-vesting-voting-power/src/contract.rs:334-387 | a run of the vesting contract after which the module is not fair and a proposal with a deposit is never decided |
| VotingPower.PercentageCountExact | contracts/klmd-dao-vesting-voting-power/src/contract.rs:431-440 | the count is the share rounded up unless the remainder is below 10^9 atomics, and at most the supply |
| VotingPower.ActivityExactUnlessRemainderDropped | contracts/klmd-dao-vesting-voting-power/src/contract.rs:421-443 | the activity check agrees with the exact percentage iff no such remainder is dropped |
| VotingPower.DroppedRemainderExample | contracts/klmd-dao-vesting-voting-power/src/contract.rs:431-440 | an input where it does not |
| VotingPower.ActivityExact | contracts/klmd-dao-vesting-voting-power/src/contract.rs:406-450 | over any run: active iff no threshold is set or stakes plus what the governing snapshot's accounts could claim reach the count, a sum beyond 128 bits counting as none |
| VotingPower.ActivePowerWithinTotal | contracts/klmd-dao-vesting-voting-power/src/contract.rs:421-422 | the activity check never counts more power than the total power query reports |
| Merkle.PairsAscend | contracts/klmd-airdrop/src/contract.rs:168-179 | two digests are hashed in ascending order, whichever side they come from |
| Merkle.LeavesVerify | contracts/klmd-airdrop/src/contract.rs:163-184 | every leaf of every tree verifies with its sibling path |
| Merkle.OnlyLeavesVerify | contracts/klmd-airdrop/src/contract.rs:163-184 | what verifies is a leaf, or the hash has a collision |
| Airdrop.ClaimKeepsStage | contracts/klmd-airdrop/src/contract.rs:152-190 | a claim keeps the stage's total, payees and proofs in step |
| Airdrop.DeliverKeepsInv | contracts/klmd-airdrop/src/contract.rs:44-61 | every message keeps stages contiguous, payees paid once and proven, totals in step |
| Airdrop.RunKeepsInv | contracts/klmd-airdrop/src/contract.rs:44-61 | so does every run |
| Airdrop.AirdropSound | contracts/klmd-airdrop/src/contract.rs:152-190 | over any run each address is paid at most once a stage, only leaves are paid, and the running total is the sum paid and at most the sum of the leaves |
| Airdrop.StagesAreFixed | contracts/klmd-airdrop/src/contract.rs:108-121 | root, expiration and start of a stage never change |
| Airdrop.StageOpensExactly | contracts/klmd-airdrop/src/contract.rs:108-157 | whatever runs after its registration, a stage has the registered root and is open exactly from the registered start until the registered expiration |
| Airdrop.OwnerActsExactly | contracts/klmd-airdrop/src/contract.rs:63-129 | only the owner registers stages, at most 255, and names the next owner |
| Airdrop.CreatorOwns | contracts/klmd-airdrop/src/contract.rs:63-88 | the owner stays the creator until the creator names another |
| Airdrop.ClaimableExactly | contracts/klmd-airdrop/src/contract.rs:139-190 | an address can claim an amount in a stage iff the stage is open, it has not claimed there, they are a leaf and the running total has room |
| Airdrop.LeavesHaveRoom | contracts/klmd-airdrop/src/contract.rs:139-190 | when the leaves add up to 128 bits there always is room, and being a leaf decides |
| AirdropContract.AirdropModule.Execute | contracts/klmd-airdrop/src/contract.rs:44-208 | one message through its handler, a failed one rolled back, is one step |
| Cw20.InitialSupplyExact | contracts/klmd-cw20/src/contract.rs:142-150 | initial balances add up to at most the supply, to it exactly iff no address with tokens is listed again |
| Cw20.MoveExact | contracts/klmd-cw20/src/contract.rs:214-225 | a movement succeeds iff the source holds the amount, conserves the sum, and changes only the two parties, self-transfers included |
| Cw20.StepConserves | contracts/klmd-cw20/src/contract.rs:153-199 | every message keeps supply and circulation, minting and burning being refused |
| Cw20.TokensConserved | contracts/klmd-cw20/src/contract.rs:153-199 | so does every run |
| Cw20.SupplyBacksBalances | contracts/klmd-cw20/src/contract.rs:142-150 | from creation on balances add up to at most the supply, exactly iff nothing was overwritten |
| Cw20.StepBalancesAllowance | contracts/klmd-cw20/src/allowances.rs:10-109 | a message balances each allowance: before + added = after + spent + taken back |
| Cw20.AllowancesConserved | contracts/klmd-cw20/src/allowances.rs:23-146 | the same over runs |
| Cw20.DebitsAreAuthorised | contracts/klmd-cw20/src/allowances.rs:85-146 | a balance falls only by its owner's message or within a live allowance |
| TokenMovements.SucceedsExactly | contracts/klmd-cw20/src/contract.rs:153-233 | for every kind of message exactly when it goes through |
| TokenMovements.BalanceMoves | contracts/klmd-cw20/src/allowances.rs:111-187 | a message moves the amount it names from the address it names to the address it names and touches no other balance |
| TokenMovements.BalancesFollowMessages | contracts/klmd-cw20/src/contract.rs:142-233 | from creation on, each balance = the amount last listed + received - sent, as the messages name it |
| TokenMovements.AllowanceTerms | contracts/klmd-cw20/src/allowances.rs:10-109 | an allowance exists from its increase until a decrease takes all of it, and ends when its owner last said |
| Cw20Contract.TokenModule.CreateAccounts | contracts/klmd-cw20/src/contract.rs:142-150 | the loop stores the rows in order and sums them, or fails iff the sum does not fit |
| Cw20Contract.TokenModule.Execute | contracts/klmd-cw20/src/contract.rs:153-233 | one message through its handler, a failed one rolled back, is one step |

## Left out

- Message encoding, attributes beyond those the vesting payouts need, contract versions, migration, schemas and error texts.
- Hooks: registering, removing by index and notifying them.
- Titles, descriptions and the listing queries; the serialised size of a proposal is a parameter of the message.
- Deposit configuration is taken as already checked: the token queries of `into_checked` are not modelled.
- The voting-power module's instantiation, replies and threshold updates; the staking contract's balances are parameters.
- Address validation, hex decoding and SHA-256 itself; the TypeScript helper that builds the tree.
- Marketing, logos, name and symbol checks, pagination and the message a token send delivers to the receiving contract.
- What the receivers of outgoing messages do: a claim of nothing emits a transfer of zero, which the token would refuse.
- The widths of block heights, times and proposal ids, and of expirations computed from them.
- The voting module's answers are taken as fixed at each height; a snapshot changes those at the height of its own block until that block is over.
