# Verified model of the BURN contracts tooling

The repository deploys the BURN token stack on TON and exercises it with scenario runs. This project models the
parts of that tooling that decide something, and proves what they are for. Source paths below are relative to the
repository root.

| file | what it models |
|---|---|
| `ScenarioOrder.dfy` | ordering scenarios by their dependencies, cycles and missing ones included |
| `Chain.dfy`, `Script.dfy` | the chain as the bootstrap sees it, and the bootstrap as a list of probe-then-send steps |
| `Allocations.dfy` | the mint plan and the expected balance of every owner |
| `BootstrapSafety.dfy`, `BootstrapConvergence.dfy`, `BootstrapModes.dfy`, `BootstrapHandover.dfy` | every history of crashed, refused and completed launches, in both modes |
| `BootstrapMessages.dfy` | what a first launch sends, message by message |
| `BootstrapMishaps.dfy` | reachable chains on which an allocation is minted twice or the launch is stopped |
| `Bootstrap.dfy` | the bootstrap as a class that sends messages and mutates the chain, proved equal to its step list |
| `Fees.dfy`, `Ledger.dfy`, `Sums.dfy` | the fee split, the token ledger and the balance checkers |
| `Vesting.dfy` | the vesting schedule, the vault and its in-flight transfers |
| `LockedPower.dfy`, `QueueDelay.dfy`, `ProposalScan.dfy` | governance helpers of the scenarios |
| `ProposalLife.dfy`, `Timelock.dfy` | the contracts those helpers talk to, and the checkers that observe them |
| `Runner.dfy`, `RunnerLock.dfy`, `Fingerprint.dfy` | recorded state, selection, the run loop, the single-runner lock, the fingerprint payload |
| `Multisig.dfy` | mapping signers to a multisig and collecting approvals |
| `EnvText.dfy`, `EnvFile.dfy` | editing an env file and reading it back |

Where the source computes a value, the model is a function; where it changes things step by step, the model is a
method or a class proved against such a function, and the properties are lemmas about the function. Contract code
(`.tact` files) is modelled as a transition function on values.

## What the proofs found

- Ordering is idempotent exactly when no two different scenarios lead back to each other; a two-scenario cycle swaps
  its members at every ordering.
- The bootstrap hands out the whole supply exactly when the six mint receivers differ. Its defaults send the airdrop
  and the liquidity allocation to the same deployer wallet; the second one is then refused, at this and every later
  launch.
- A jetton wallet that cannot be read counts as empty, so a launch mints again what was minted, while the deployer is
  admin, the mint is open and the cap has room. A second mint of the emission goes unnoticed once its relay arrived.
- A mint that is still on its way when the next launch probes its receiver is sent twice, with the same outcome.
- A finalizing launch completes exactly when no ordinary one has handed the admin to the timelock. An ordinary launch
  on a finalized chain changes nothing there and overwrites the record of it.
- The linear-claim check compares an amount computed from the runner's clock with what the chain pays later. A genuine
  claim passes exactly when nothing more vests between the two.
- The expired-vote check calls the window over at its last second, in which the proposal still counts votes.
- The double-vote check cannot tell a refused vote from an accepted first vote against.
- The Timelock performs an id at most as often as it was queued, but not each queueing at most once: the bounce of a
  cancelled dispatch re-arms the next entry of the same id and target, also while that entry's own dispatch is on its
  way, and the second queueing is then performed twice. Cancelling only when nothing is on its way excludes it. After an
  accepted cancel, or after an ordinary action ran, the governor may queue the same id again.
- The early-execution check can pass although the attempt was accepted: its clock is read before sending, and the entry
  of a dispatched high-value action stays in the map.
- A run killed while it writes the state file forgets every recorded pass.
- The runner lock is shared exactly when a process releases one handle while it holds another.
- Signer slots of the multisig sender are not checked for duplicates: a wallet opened twice counts once, and its order
  can stay short of the threshold.
- Editing an env file is idempotent exactly when a line can carry every key; any other key is appended again each time.
- A code hash filed under `vesting` and a vault address print alike in the fingerprint payload; without a hash line of
  that form the payload tells every two deployments apart.

## Assumptions

- Bootstrap: `force`, dry run and the governance slice are off; every launch resolves the same address book (a pinned
  `VESTING_START`); receivers do not spend between launches; an inactive fee configuration ends the run instead of
  being repaired with a dust transfer. Any message may be lost, a lost mint or a missing relay may arrive before any
  later step or launch, and any wallet read may fail; a failed read of another contract throws, which is a crash.
  Convergence, and that exclusions are complete at the hand-over, assume that a sent message lands before the next
  probe; convergence also that reads succeed.
- Runner lock: acquire and release are single steps, and process numbers are not used twice.
- Locked power: the records read are those the staking master holds, each under its own tier.
- Runner: the catalogue has distinct ids, as scenario discovery guarantees. A state file cut off anywhere before its
  last brace does not parse; one that only lacks its final line break counts as saved.
- Multisig sender: at least as many local wallets as the configured threshold, as the environment check guarantees.

## Model

| member | source | states |
|---|---|---|
| `ScenarioOrder.OrderByDependsOn` | contracts/testnet-scenarios/registry.ts:76-103 | the recursive search on mutable sets terminates on every list, cyclic or not, returns the specified order, and loses or repeats no scenario of a list with distinct ids |
| `ScenarioOrder.DepthFirstSearch.VisitNode` | contracts/testnet-scenarios/registry.ts:82-97 | one visit extends the output as specified, marks exactly the output as done and leaves the visiting set as it found it |
| `ScenarioOrder.OrderIsPermutation` | contracts/testnet-scenarios/registry.ts:75-103 | with distinct ids the result holds exactly the given scenarios, each once |
| `ScenarioOrder.OrderIsComplete` | contracts/testnet-scenarios/registry.ts:76-103 | with repeated ids too, every id comes out exactly once |
| `ScenarioOrder.OrderRespectsDependencies` | contracts/testnet-scenarios/registry.ts:75-103 | a listed dependency that does not lead back to its dependant comes before it, whatever cycles there are |
| `ScenarioOrder.TopologicalIffAcyclic` | contracts/testnet-scenarios/registry.ts:75-103 | the result is a topological order exactly when the listed dependencies have no cycle |
| `ScenarioOrder.UnchangedIffInOrder` | contracts/testnet-scenarios/registry.ts:99-102 | a list comes back unchanged exactly when it is in dependency order already |
| `ScenarioOrder.IdempotentIffNoMutualCycle` | contracts/testnet-scenarios/registry.ts:75-103 | ordering twice is ordering once exactly when no two different scenarios lead back to each other; a scenario that depends on itself does no harm |
| `ScenarioOrder.CycleIsNotIdempotent` | contracts/testnet-scenarios/registry.ts:86-88 | two scenarios that depend on each other swap places at every ordering |
| `Allocations.AggregateExpectedBalancesByOwner` | contracts/scripts/deploy/bootstrap.ts:158-179 | the in-place grouping yields each owner once, in order of first mention, with the sum and the labels of its allocations |
| `Allocations.AggregationConserves` | contracts/scripts/deploy/bootstrap.ts:151-179 | for every plan and every receiver-to-owner map the owners are distinct and the expected balances add up to the plan |
| `Allocations.PlanIsWholeSupply` | contracts/scripts/deploy/bootstrap.ts:22-49 | the mint plan is exactly the 1000 BURN cap |
| `Bootstrap.Deployer.DeployBurnStack` | contracts/scripts/deploy/bootstrap.ts:723-1137 | the script, method by method on a mutable chain with errors and crashes, does what its step list says: same chain, same end, same messages sent |
| `Bootstrap.Deployer.DeployIfNeeded` | contracts/scripts/deploy/bootstrap.ts:69-85 | deploys a contract only when it is not live, and stops the run when it does not become live |
| `Bootstrap.Deployer.ReadJettonWalletBalance` | contracts/scripts/deploy/bootstrap.ts:1182-1198 | a wallet that cannot be read counts as empty |
| `Bootstrap.Deployer.IsWalletFeeConfigSynced` | contracts/scripts/deploy/bootstrap.ts:422-440 | a wallet that cannot be read counts as not synchronized |
| `Bootstrap.Deployer.EnsureMint` | contracts/scripts/deploy/bootstrap.ts:456-484 | one allocation: skipped on the exact balance read, refused on any other, minted on zero, be it read or the read failed |
| `Bootstrap.Deployer.EnsureStakingEmissionMint` | contracts/scripts/deploy/bootstrap.ts:494-555 | the emission: skipped when funded, refused when partly funded or when the pool is seen to hold jettons without the relay, minted otherwise, also after a failed pool read, and awaited |
| `Bootstrap.Deployer.PointMasterToGovernor` | contracts/scripts/deploy/bootstrap.ts:930-945 | wires the governor only while the staking master still names the deployer |
| `Bootstrap.Deployer.MintAllocations` | contracts/scripts/deploy/bootstrap.ts:958-987 | the mint loop, with its running total ending at the cap |
| `Bootstrap.Deployer.ConfigureFees` | contracts/scripts/deploy/bootstrap.ts:989-1072 | fee destinations, exclusions and fee-config synchronization, in this order and each only when not seen; the closing check stops the run on a wallet not seen active |
| `Bootstrap.Deployer.HandOverJettonTimelock` | contracts/scripts/deploy/bootstrap.ts:1087-1105 | hands the jetton timelock on only while the deployer holds it |
| `Bootstrap.Deployer.FinalizeSupply` | contracts/scripts/deploy/bootstrap.ts:576-702 | owner balances, emission and supply are checked before the mint is closed and the admin revoked |
| `BootstrapSafety.MintedAtMostOnceIff` | contracts/scripts/deploy/bootstrap.ts:456-555 | over every history, with crashes, lost and late messages, missing relays and failed reads, the supply is the sum of the balances within 1000 BURN; and no allocation is minted twice exactly when no launch minted on a failed read, and no late mint arrived, where the allocation was minted already and the chain still took it |
| `BootstrapSafety.StepMintsAgainIff` | contracts/scripts/deploy/bootstrap.ts:467-541 | a step mints a minted allocation again exactly when its wallet read fails, the message lands, the deployer is admin, the mint is open, the cap has room and, for the emission, nothing is funded |
| `BootstrapSafety.MintedAtMostOnce` | contracts/scripts/deploy/bootstrap.ts:456-555 | where wallet reads succeed and no mint is late, no allocation is minted twice, whatever crashes, messages are lost or relays missing |
| `BootstrapSafety.PartialMintIsRefused` | contracts/scripts/deploy/bootstrap.ts:467-541 | while an allocation is partly minted or not relayed, a launch mints it again exactly when it comes to its mint with a failed read (and, for the emission, nothing funded); otherwise it does not complete and the allocation stays so |
| `BootstrapMishaps.FailedReadMintsTwiceIff` | contracts/scripts/deploy/bootstrap.ts:1182-1198 | a crash after the mint and a failed read at the next launch: the allocation is minted twice exactly for the first four, for which the cap has room; the next probe refuses then, but passes for the emission |
| `BootstrapMishaps.LateMintLandsTwiceIff` | contracts/scripts/deploy/bootstrap.ts:467-484 | a crash with the mint on its way, a second launch, then the first mint arrives: minted twice exactly for the first four allocations; the next probe refuses then, but passes for the emission once a relay arrived |
| `BootstrapMishaps.SecondMintIsSilentIff` | contracts/scripts/deploy/bootstrap.ts:505-532 | after any history, the probe after a second mint refuses, and passes exactly for an emission of which a relay arrived |
| `BootstrapMishaps.SharedHolderIsRefused` | contracts/scripts/deploy/bootstrap.ts:857-858 | with one wallet for airdrop and liquidity the first launch stops at the liquidity mint after 657 BURN, and no later launch that can read completes |
| `BootstrapSafety.RevokedOnlyWhenClosed` | contracts/scripts/deploy/bootstrap.ts:633-702 | in every reachable state of mixed ordinary and finalizing runs a revoked admin stands behind a closed mint, and `supplyFinalized` is recorded only behind both |
| `BootstrapSafety.GivenAwayStays` | contracts/jetton/burn-jetton-master.tact:98-275 | from any chain on, whatever launches and late messages follow: without the admin, or behind a closed mint, the ledger never changes again, without the timelock the fee set-up, and wiring written once stays |
| `Script.MissingContractThrows` | contracts/scripts/deploy/bootstrap.ts:385-396 | a step whose getter belongs to a contract that is not there throws and sends nothing |
| `BootstrapSafety.FinalizedMeansDistributed` | contracts/scripts/deploy/bootstrap.ts:590-702 | a finalizing run that completes leaves at every address exactly what the plan gives it, 7, 200, 300, 150, 300 and 43 BURN at the six receivers by name, shared ones added up, and nothing anywhere else, full supply, a funded emission, a closed mint and no admin, whichever messages were lost or late and whichever reads failed |
| `BootstrapSafety.NothingOutsideTheOwners` | contracts/scripts/deploy/bootstrap.ts:590-627 | exact owner balances and a full supply force every nano to sit at an allocation owner |
| `BootstrapSafety.FullSupplyNeedsDistinctReceivers` | contracts/scripts/deploy/bootstrap.ts:467-480 | a history whose mints all landed on empty wallets, as they do where reads succeed and no mint is late, does not reach the full supply when two allocations share a receiver |
| `BootstrapConvergence.CrashedLaunchesConverge` | contracts/scripts/deploy/bootstrap.ts:878-1137 | after launches crashed at any steps one uninterrupted launch completes in the state of a fresh one, and any later launch sends nothing and changes nothing |
| `BootstrapModes.MixedLaunchesConverge` | contracts/scripts/deploy/bootstrap.ts:1074-1137 | after launches of both modes in any mixture, crashed anywhere: an ordinary launch completes, a finalizing one exactly when the admin was not handed to the timelock; each leaves what a fresh one leaves, up to a mint closed and an admin revoked before, and repeating it changes nothing |
| `BootstrapModes.OrdinaryAfterFinal` | contracts/scripts/deploy/bootstrap.ts:1078-1085 | an ordinary launch on a finalized chain sends one `ChangeOwner`, which bounces, changes nothing and records `supplyFinalized` as false |
| `BootstrapConvergence.FullDistributionIffDistinct` | contracts/scripts/deploy/bootstrap.ts:456-480 | a first uninterrupted launch reaches the full supply exactly when the mint receivers differ |
| `BootstrapConvergence.FullRunOutcome` | contracts/scripts/deploy/bootstrap.ts:878-1137 | what a full launch leaves, field by field of the address book: 7, 200, 300, 150, 300 and 43 BURN at their six receivers and nothing elsewhere, all ten contracts live and wired, exactly the seven excluded and eight configured owners, timelock handed over, admin and mint as the mode says |
| `BootstrapMessages.FirstLaunchSends` | contracts/scripts/deploy/bootstrap.ts:878-1137 | a first launch sends exactly the listed messages in the listed order: contracts and wiring, the six mints, the fee set-up, and the handovers or the end of minting |
| `BootstrapConvergence.StepAdvances` | contracts/scripts/deploy/bootstrap.ts:886-1105 | at its place in the list each step applies exactly itself, and sends nothing when it is applied already |
| `BootstrapHandover.HandoverComesLast` | contracts/scripts/deploy/bootstrap.ts:989-1105 | where messages land, failed reads or not, a handed-over jetton timelock implies fee destinations, all exclusions and all fee configurations |
| `BootstrapHandover.HandoverNeedsActiveFees` | contracts/scripts/deploy/bootstrap.ts:989-1105 | in every history, with lost messages and failed reads, a handed-over jetton timelock implies fee destinations and active fee configurations |
| `BootstrapHandover.GatedSyncIffUnread` | contracts/scripts/deploy/bootstrap.ts:422-440 | when all messages before the handover landed, a launch after it sends a message that only the timelock may send exactly when it comes to a synchronization whose wallet read fails |
| `BootstrapHandover.GatedMessageIff` | contracts/scripts/deploy/bootstrap.ts:1012-1105 | after a handover by any history a launch sends a timelock-gated message exactly when it comes to a missing exclusion or to a synchronization whose wallet read fails, and all of them bounce |
| `Fees.FeeOfPieces` | contracts/testnet-scenarios/lib/matrix-checks.ts:56-75 | paying in n pieces costs at most the fee of the whole and saves at most 3(n-1) nano |
| `Fees.LegsAreFloors` | contracts/testnet-scenarios/lib/matrix-checks.ts:56-75 | the legs are 0.5%, 0.3% and 0.2% of the amount to the whole nano below |
| `Fees.SavingsBoundIsReached` | contracts/testnet-scenarios/lib/matrix-checks.ts:56-75 | the bound is met with equality for up to 200 pieces of 999 nano |
| `Fees.NetVersusSampled` | contracts/testnet-scenarios/lib/tonapi.ts:439-441 | the net of three floored legs exceeds the sampler's single-floor net by 0 to 2 nano, by a function of the last three digits, and by 0 on whole thousands; both bounds are reached |
| `Fees.NetPassesDelivery` | contracts/scripts/fund-test-wallets.ts:164-166 | the delivery test asks for 99% of the amount to the whole nano below, and a credited net always meets it |
| `Ledger.RunStaysBalanced` | contracts/testnet-scenarios/lib/matrix-checks.ts:56-75 | over every run of transfers, excluded transfers and capped mints the balances add up to the supply within the cap, however accounts coincide |
| `Ledger.TransferDelta` | contracts/testnet-scenarios/lib/matrix-checks.ts:223-255 | what a fee-bearing transfer does to any account when sender, recipient, pool and treasury may coincide |
| `Ledger.ExcludedTransferDelta` | contracts/jetton/burn-jetton-wallet.tact:810-832 | an excluded transfer moves the whole amount from sender to recipient, within the sender's balance, and leaves the supply |
| `Ledger.MintDelta` | contracts/jetton/burn-jetton-master.tact:98-128 | a mint gives its receiver the whole amount while the cap has room, and nothing otherwise |
| `Ledger.TransferAcceptedIff` | contracts/jetton/burn-jetton-wallet.tact:835-852 | the amount and the sender's balance alone decide: in a balanced ledger the burn leg of a covered transfer never exceeds the supply |
| `Ledger.TransferCheckIff` | contracts/testnet-scenarios/lib/matrix-checks.ts:223-255 | the transfer check passes exactly when the parties differ and collect no fee leg themselves |
| `Ledger.SelfTransferCheckIff` | contracts/testnet-scenarios/lib/matrix-checks.ts:172-205 | a self-transfer costs exactly the total fee, unless the holder collects a leg |
| `Ledger.SupplyCheckIff` | contracts/testnet-scenarios/lib/matrix-checks.ts:469-503 | after any run the supply check on any distinct known holders passes exactly when the on-chain rates are the expected ones |
| `Ledger.SupplyCheckAsks` | contracts/testnet-scenarios/lib/matrix-checks.ts:469-503 | which readings the supply check decides by; its fee-split clause never does |
| `Vesting.VestedMonotoneAndBounded` | contracts/testnet-scenarios/lib/vesting.ts:120-143 | the vested amount never decreases in time and stays within the allocation |
| `Vesting.VestedIsLinear` | contracts/testnet-scenarios/lib/vesting.ts:120-143 | nothing before the cliff, the total from the end on, in between the whole nano below the linear share; the only error is a cliff beyond the end |
| `Vesting.ClaimEffect` | contracts/vesting/vesting.tact:76-97 | a claim pays the beneficiary what has vested beyond what was released; of anybody else, or with nothing to pay, it changes nothing |
| `Vesting.RevokeEffect` | contracts/vesting/vesting.tact:99-130 | a revoke by the timelock with 3.5 TON sends the treasury all that is not released; any other changes nothing |
| `Vesting.RunStaysAccounted` | contracts/vesting/vesting.tact:76-137 | over every run of claims, revokes, deliveries and bounces, released = paid + on its way, at most the total, and no jetton appears or vanishes |
| `Vesting.FundedVaultAlwaysPays` | contracts/vesting/vesting.tact:132-137 | a fully funded vault covers every transfer on its way, and a bounce is never unexpected |
| `Vesting.BounceUndoes` | contracts/vesting/vesting.tact:76-137 | the bounce of the transfer just sent restores the vault before the claim or revoke |
| `Vesting.ClaimCatchesUp` | contracts/testnet-scenarios/lib/vesting.ts:145-156 | after any claims, deliveries and bounces up to t, a claim at t leaves exactly the vested amount released |
| `Vesting.SettledClaimsPayTheVestedAmount` | contracts/testnet-scenarios/lib/vesting.ts:120-156 | path independence: once settled, the beneficiary holds the amount vested at the last claim, however often it claimed |
| `Vesting.RevokeSettlesTheVault` | contracts/vesting/vesting.tact:99-130 | after an accepted revoke, until a bounce, every claim and revoke is refused, and once delivered beneficiary and treasury hold the total |
| `Vesting.BeneficiaryWithinVested` | contracts/vesting/vesting.tact:76-137 | in every run, revokes and bounces in any order, what was paid or is on its way to the beneficiary is at most the amount vested at its last accepted claim |
| `Vesting.LinearClaimCheckIff` | contracts/testnet-scenarios/lib/vesting.ts:484-521 | the claim check passes on a delivered claim exactly when something was releasable at the reading and nothing more vested until it was handled |
| `Vesting.LateClaimFailsTheCheck` | contracts/testnet-scenarios/scenarios/fs-vesting-claim-linear.ts:30-94 | a concrete genuine claim that fails the check |
| `Vesting.ChecksAsk` | contracts/testnet-scenarios/lib/vesting.ts:484-584 | which readings the two vesting checks decide by; their other clauses never do |
| `Vesting.RevokeCheckPasses` | contracts/testnet-scenarios/lib/vesting.ts:545-584 | the revoke check passes on every accepted, delivered revoke |
| `LockedPower.ComputeLockedBeyondVp` | contracts/testnet-scenarios/lib/gov.ts:569-587 | the loop computes the specified sum, or the first missing multiplier |
| `LockedPower.PowerIsAdditive` | contracts/testnet-scenarios/lib/gov.ts:569-587 | the power of two record lists together is the sum of their powers, and errors come from the first part that fails |
| `LockedPower.PowerFailsIff` | contracts/testnet-scenarios/lib/gov.ts:576-582 | it fails exactly when a counting record has a tier outside the table |
| `LockedPower.PowerOfOne` | contracts/testnet-scenarios/lib/gov.ts:576-583 | one record counts when it is locked past the end, for amount times multiplier to the whole hundred below |
| `LockedPower.PowerAtMostWeight` | contracts/testnet-scenarios/lib/gov.ts:569-587 | it is at most the sum of amount times multiplier over 100 |
| `LockedPower.PowerIsAntitone` | contracts/testnet-scenarios/lib/gov.ts:569-587 | a later vote end never has more power |
| `LockedPower.ReadActorStakeRecords` | contracts/testnet-scenarios/lib/gov.ts:630-649 | reads the records of tiers 0 to 3 in order, without the absent ones |
| `LockedPower.MirrorsStakingMaster` | contracts/staking/staking-master.tact:737-753 | over the full tier table the mirror never fails and equals the staking master's own sum |
| `LockedPower.EnsureLockedVotingPower` | contracts/testnet-scenarios/lib/gov.ts:675-728 | returns the power already held, stakes only when there is none and the balance suffices, then returns the first positive poll; a success is always positive |
| `LockedPower.PolledWasRead` | contracts/testnet-scenarios/lib/gov.ts:710-721 | power returned after polling was read on some poll |
| `LockedPower.PowerIsPositiveIff` | contracts/testnet-scenarios/lib/gov.ts:576-583 | there is power exactly when one counting record gives a whole unit on its own |
| `LockedPower.PollingSucceedsIff` | contracts/testnet-scenarios/lib/gov.ts:710-727 | with known tiers polling succeeds exactly when some poll shows power |
| `LockedPower.SurfacedStakeIsEnough` | contracts/testnet-scenarios/lib/gov.ts:702-721 | the stake the helper sends, locked past the end, is enough once a poll shows it |
| `LockedPower.EnsuredPowerVotes` | contracts/staking/staking-master.tact:768-779 | power found under the estimated end is counted in full by the vote relay of any proposal created within the margin |
| `QueueDelay.RepairIsAdmitted` | contracts/testnet-scenarios/lib/gov.ts:267-314 | every non-negative delay is repaired to one the gate admits, the nearest on the proper side, and an admitted one is left alone |
| `QueueDelay.RepairAdmittedIff` | contracts/testnet-scenarios/lib/gov.ts:267-314 | negative delays are repaired only where a floor is known |
| `ProposalScan.ResolveUsableProposal` | contracts/testnet-scenarios/lib/gov.ts:850-880 | the downward scan returns the greatest usable id within the depth, and none exactly when there is none |
| `ProposalScan.WantTakes` | contracts/testnet-scenarios/lib/gov.ts:799-880 | which states and windows each of the three scans takes, among the last `depth` ids |
| `ProposalScan.ResolveProposalMatching` | contracts/testnet-scenarios/lib/gov.ts:907-952 | the filtered scan returns the greatest matching id within the depth, and none exactly when there is none |
| `ProposalScan.ScansAreOrdered` | contracts/testnet-scenarios/lib/gov.ts:791-840 | on one snapshot the votable id is at most the reusable id, and that at most the executable id |
| `ProposalScan.VotableScanIsMatching` | contracts/testnet-scenarios/lib/gov.ts:811-952 | the votable scan finds what the matching scan for active proposals with the same guard finds |
| `ProposalLife.TalliesAreTheBallots` | contracts/governance/proposal.tact:93-120 | in every run the tallies are exactly the power of the accepted votes, one per voter |
| `ProposalLife.NobodyVotesTwice` | contracts/governance/proposal.tact:102-104 | in every run any two accepted votes have different voters |
| `ProposalLife.TerminalIsFinal` | contracts/governance/proposal.tact:93-234 | cancelled, defeated and executed proposals never change again |
| `ProposalLife.VerdictIsExact` | contracts/governance/proposal.tact:122-152 | succeeded and executed mean that the power of the accepted votes met quorum and threshold, defeated that it did not, cancelled that nobody voted |
| `ProposalLife.MessagesDecideTheOutcome` | contracts/governance/proposal.tact:81-207 | in every ordered run the received messages alone decide the state: withdrawn, open, defeated, succeeded or executed, by quorum and threshold over the first vote of each voter inside the window; a threshold out of range leaves it open |
| `ProposalLife.OutcomeIsSettledAtTheEnd` | contracts/governance/proposal.tact:93-197 | after the end one verdict is left, decided by the votes in time; only finalizing ends the active state |
| `ProposalLife.VoteChecksIff` | contracts/testnet-scenarios/lib/gov.ts:1216-1229 | exactly when each of the three vote checks passes on a vote message |
| `ProposalLife.ChecksAsk` | contracts/testnet-scenarios/lib/gov.ts:1671-1820 | which readings the vote checks decide by: the expiry check asks that neither the tally nor the voter's record changed |
| `ProposalLife.ExpiryCheckFailsIff` | contracts/testnet-scenarios/lib/gov.ts:1796-1820 | the expiry check fails on exactly the votes accepted in the last second |
| `ProposalLife.EndVoteFailsTheCheck` | contracts/testnet-scenarios/lib/gov.ts:1808-1812 | a first vote at the end itself is accepted and fails the expiry check |
| `ProposalLife.FirstVoteAgainstLooksRefused` | contracts/testnet-scenarios/lib/gov.ts:1671-1684 | an accepted first vote against passes the double-vote check |
| `Timelock.PerformedAtMostAsQueued` | contracts/governance/timelock.tact:69-220 | over every run with bounces and re-arms, an id is performed at most as often as it was queued, what is armed or on its way included |
| `Timelock.OncePerQueueingIff` | contracts/governance/timelock.tact:100-220 | over every run, one accepted queueing is performed at most once, what is armed or on its way included, exactly when no bounce of another queueing's dispatch re-armed its entry |
| `Timelock.OncePerQueueing` | contracts/governance/timelock.tact:192-231 | while no accepted cancel hits an id whose dispatch is on its way, every accepted queueing of the id is performed at most once |
| `Timelock.RearmIsUnsafeIff` | contracts/governance/timelock.tact:192-220 | a bounce re-arms an entry that was performed or whose own dispatch is on its way exactly when the bouncing dispatch belongs to an earlier queueing of the id |
| `Timelock.EarlierBounceRunsTwice` | contracts/governance/timelock.tact:192-231 | a concrete run: cancelled on its way, queued again for the same target, the first bounce re-arms the second entry, which is performed twice while the first is never performed |
| `Timelock.QueueingsBalance` | contracts/governance/timelock.tact:69-231 | in every run the accepted queueings of an id are exactly its accepted cancels, its ordinary executions and the entry that stands |
| `Timelock.PerformedAgainOnlyAfterRemoval` | contracts/governance/timelock.tact:100-220 | whatever bounces and re-arms, an id whose entry was never cancelled nor ran as an ordinary action is performed at most once |
| `Timelock.OrdinaryActionRunsTwice` | contracts/governance/timelock.tact:169-189 | an ordinary action that ran can be queued under its id and run again |
| `Timelock.CancelledActionRunsTwice` | contracts/governance/timelock.tact:222-231 | a high-value action that took effect can be cancelled, queued and performed again |
| `Timelock.PendingWasQueued` | contracts/governance/timelock.tact:69-98 | every entry was queued by the governor with an admitted delay and not cancelled since |
| `Timelock.DispatchWasQueuedInTime` | contracts/governance/timelock.tact:100-105 | nothing is dispatched before its scheduled time, or with another target or opcode than the governor queued |
| `Timelock.HighValueWaits` | contracts/governance/timelock.tact:72-79 | a high-value action waits at least the floor, and at least one second |
| `Timelock.QueueAcceptedIff` | contracts/governance/timelock.tact:69-83 | a queueing is accepted exactly from the governor, under a free id, with a delay of at least the floor and a second for treasury spends and emergency revokes, and of zero or at least a day for anything else |
| `Timelock.ExecutionByMethod` | contracts/governance/timelock.tact:100-189 | in every run an executed treasury spend or emergency revoke has waited for the floor and at least a second, brought the bounce budget and arguments of its own method, and leaves a flagged entry and a message on its way; any other action leaves no entry |
| `Timelock.DueEntryRuns` | contracts/governance/timelock.tact:100-116 | a due, unexecuted entry is executed for anybody who attaches what its method demands |
| `Timelock.EntryLeavesIff` | contracts/governance/timelock.tact:165-231 | an entry leaves exactly by the governor's cancel or by running as an ordinary action, and keeps its content until then |
| `Timelock.FailureUndoesTheDispatch` | contracts/governance/timelock.tact:192-220 | a bounced high-value dispatch leaves the Timelock as before it |
| `Timelock.NeverQueuedIsAbsent` | contracts/testnet-scenarios/lib/gov.ts:954-968 | a proposal nobody queued is reported absent even where another one holds its id |
| `Timelock.QueueExecuteCheckIff` | contracts/testnet-scenarios/lib/gov.ts:1231-1247 | exactly when the execution check passes, before and after a failed dispatch |
| `Timelock.EarlyExecuteCheckIff` | contracts/testnet-scenarios/lib/gov.ts:1847-1870 | with the clock read before the attempt is handled, the check passes exactly when the reading was early, the proposal is not executed and the entry is still there, as after a refusal or a high-value dispatch for a proposal that has not succeeded |
| `Timelock.EarlyAttemptIsRefused` | contracts/governance/timelock.tact:100-105 | an attempt handled before its time is refused, and then the check passes unless the proposal was executed before |
| `Timelock.EarlyCheckMissesARace` | contracts/testnet-scenarios/scenarios/fs-gov-timelock-early-execute-reject.ts:44-71 | an attempt read early and accepted on time that passes the check |
| `Timelock.RepairedDelayIsQueued` | contracts/testnet-scenarios/scenarios/fs-gov-queue-execute-happy.ts:102-131 | a repaired delay is never refused by the gate |
| `Runner.ExecuteRun` | contracts/testnet-scenarios/runner.ts:530-562 | loads, selects, runs each selected scenario in turn and saves; a refused selection saves nothing |
| `Runner.SelectionIsExact` | contracts/testnet-scenarios/runner.ts:150-187 | every mode selects exactly the wanted scenarios, each once, a dependency first unless it leads back; the only error is an unknown id |
| `Runner.AllIsNeverDestructive` | contracts/testnet-scenarios/runner.ts:173-176 | a run of everything takes exactly the scenarios that are neither marked nor tagged destructive |
| `Runner.TagTakesItsBearers` | contracts/testnet-scenarios/runner.ts:168-172 | the tag `destructive` takes exactly the scenarios a run of everything leaves out, any other tag exactly its bearers |
| `Runner.OneTakesItsScenario` | contracts/testnet-scenarios/runner.ts:157-167 | one id takes its scenario, destructive or not, and a listing takes none |
| `Runner.LoadedIff` | contracts/testnet-scenarios/state.ts:19-41 | records are taken over exactly from a file saved in format 1 under the same fingerprint |
| `Runner.FailedOnlyIsTheFailures` | contracts/testnet-scenarios/runner.ts:177-181 | the failed-only selection is the recorded failures that are still discovered |
| `Runner.RunAllIsPointwise` | contracts/testnet-scenarios/runner.ts:333-487 | one result per selected scenario in order, each decided by the state at the start; other records stay |
| `Runner.ReportsTellOutcomes` | contracts/testnet-scenarios/runner.ts:333-487 | each selected scenario is reported as skipped exactly on a recorded pass in an unforced run, and otherwise as what it met |
| `Runner.CompletedRecords` | contracts/testnet-scenarios/runner.ts:333-487 | what a completed run does to each record; preflight N/A and skips change none |
| `Runner.PassSurvivesIff` | contracts/testnet-scenarios/state.ts:19-70 | without force a recorded pass survives a sequence of completed, killed and torn runs exactly when no run died inside its save or it passed again since |
| `Runner.PassIsNeverRunAgain` | contracts/testnet-scenarios/state.ts:47-70 | while no run dies inside its save a recorded pass is never attempted again |
| `Runner.TornSaveForgets` | contracts/testnet-scenarios/state.ts:23-44 | after a run that died inside its save the next run attempts whatever it wants, passed before or not |
| `Runner.SelectedIsAttemptedIff` | contracts/testnet-scenarios/state.ts:51-70 | a selected scenario is attempted unless it is a recorded pass in an unforced run |
| `Runner.FailureIsAlwaysRetried` | contracts/testnet-scenarios/state.ts:63-65 | a recorded failure is attempted whenever it is selected |
| `Runner.FailureIsListedAgainIff` | contracts/testnet-scenarios/state.ts:86-91 | after a failed-only run a failure is listed again unless it passed or ended in a soft N/A |
| `Runner.OtherFingerprintForgets` | contracts/testnet-scenarios/state.ts:28-31 | another fingerprint starts from nothing, and once it has saved, the old records are gone |
| `RunnerLock.AcquireRunnerLock` | contracts/testnet-scenarios/runner.ts:264-300 | refuses exactly on a lock of another live process without force, and otherwise writes its own |
| `RunnerLock.Lock.Release` | contracts/testnet-scenarios/runner.ts:301-314 | the first release removes the lock only if it still names this process |
| `RunnerLock.MutualExclusion` | contracts/testnet-scenarios/runner.ts:264-315 | without force, and while nobody releases one handle holding another, at most one live process holds the lock, through repeated acquires and every crash, also in the middle of writing it |
| `RunnerLock.RefusedIffHeld` | contracts/testnet-scenarios/runner.ts:274-295 | in the same runs a live process is refused exactly when another live process holds the lock: dead and unreadable locks never block |
| `RunnerLock.ReleaseSharesTheLockIff` | contracts/testnet-scenarios/runner.ts:301-314 | after a release by the holder and an acquire by another process both hold the lock exactly when the first had another unreleased handle |
| `RunnerLock.LastAcquirerKeepsTheLock` | contracts/testnet-scenarios/runner.ts:304-313 | after a takeover, forced or not, no release or death of others removes the new lock |
| `RunnerLock.ReacquiringBreaksExclusion` | contracts/testnet-scenarios/runner.ts:276-276 | a process that acquires twice and releases once lets a second live process in |
| `Fingerprint.PayloadIgnoresPropertyOrder` | contracts/testnet-scenarios/lib/fingerprint.ts:55-84 | the order of manifest properties does not change the payload |
| `Fingerprint.PayloadSharedIff` | contracts/testnet-scenarios/lib/fingerprint.ts:77-84 | two manifests share a payload exactly when they share all masters and the joint list of vesting and code hash lines |
| `Fingerprint.SeparablePayloadSharedIff` | contracts/testnet-scenarios/lib/fingerprint.ts:55-84 | between manifests without a code hash that prints like a vault line, the payload is shared exactly when masters, vault addresses and code hashes are the same up to order |
| `Fingerprint.ChangedPropertyShowsIff` | contracts/testnet-scenarios/lib/fingerprint.ts:55-61 | another value of one address property that is no master changes the payload exactly when its key begins with `vesting` |
| `Fingerprint.ChangedHashShowsIff` | contracts/testnet-scenarios/lib/fingerprint.ts:63-84 | another code hash changes the payload exactly when its printed line changes |
| `Fingerprint.PayloadText` | contracts/testnet-scenarios/lib/fingerprint.ts:77-83 | the lines of a manifest with two vaults and a code hash, in full and in order |
| `Fingerprint.VaultAndHashCollide` | contracts/testnet-scenarios/lib/fingerprint.ts:80-82 | a vault address and a code hash filed under `vesting` give the same payload |
| `Multisig.MapSignersToOnChain` | contracts/testnet-scenarios/lib/multisig.ts:314-340 | returns the local wallets as a permutation in ascending on-chain position, or names the first wallet that is no signer |
| `Multisig.StrictIffDistinct` | contracts/testnet-scenarios/lib/multisig.ts:338-339 | the positions strictly ascend exactly when no wallet is opened twice |
| `Multisig.GovernorSender.SendViaMultisig` | contracts/testnet-scenarios/lib/multisig.ts:415-483 | asks each of the first signers once, succeeds exactly when the approvals that land reach the order's threshold, and only then counts one more order |
| `Multisig.MakeGovernorSender` | contracts/testnet-scenarios/lib/multisig.ts:401-413 | uses the larger of the configured and the on-chain threshold; an unknown wallet or too few wallets is an error |
| `Multisig.ApprovalsCountDistinctWallets` | contracts/testnet-scenarios/lib/multisig.ts:431-479 | when all messages land the approvals are as many as there are different wallets asked |
| `Multisig.DistinctSignersReachTheThreshold` | contracts/testnet-scenarios/lib/multisig.ts:405-411 | with distinct wallets they are exactly the chosen threshold |
| `Multisig.SendSucceedsIff` | contracts/testnet-scenarios/lib/multisig.ts:415-483 | when all messages land a send executes its order exactly when the order requires no more approvals than there are different wallets among the proposers |
| `Multisig.OneWalletInTwoSlots` | contracts/testnet-scenarios/lib/multisig.ts:320-337 | one wallet in both slots of a two-of-two multisig: everything lands and the order is not executed |
| `EnvFile.UpsertEnvLines` | contracts/scripts/deploy/syncAppConfigs.ts:5-35 | the loop over lines with its shrinking key set writes the specified text |
| `EnvFile.ApplyEnvFile` | contracts/scripts/deploy/env.ts:37-52 | the loop over lines gives the specified environment |
| `EnvFile.FirstLineWins` | contracts/scripts/deploy/env.ts:42-51 | what is set stays, otherwise the first line with the key wins |
| `EnvFile.FirstFilledLineWins` | contracts/scripts/deploy/env.ts:47-50 | with empty values overridden the first non-empty line wins |
| `EnvFile.QuotedValueReads` | contracts/scripts/deploy/env.ts:17-27 | a quoted value is read up to its closing quote, and as it stands without one |
| `EnvFile.CommentedValueReads` | contracts/scripts/deploy/env.ts:28-33 | an unquoted value is read up to the comment, without the space before it |
| `EnvFile.AssignmentReadsBack` | contracts/scripts/deploy/env.ts:6-35 | a written assignment of a valid key is parsed as that key with the unquoted, uncommented, trimmed value |
| `EnvFile.ReadsBackIffPlain` | contracts/scripts/deploy/env.ts:16-33 | a value is read back as written exactly when it has no outer space and no character taken for a closing quote or a comment |
| `EnvFile.EditedFileReadsBack` | contracts/scripts/deploy/syncAppConfigs.ts:10-34 | reading an edited file gives each updated key its new value as parsed, and every other key its old value |
| `EnvFile.NewValueComesBackIff` | contracts/scripts/deploy/syncAppConfigs.ts:22-32 | the new value itself comes back exactly when it is plain |
| `EnvFile.IdempotentIffKeysValid` | contracts/scripts/deploy/syncAppConfigs.ts:5-35 | with single-line keys and values, editing twice is editing once exactly when a line can carry every key |
| `EnvFile.UntargetedLinesStay` | contracts/scripts/deploy/syncAppConfigs.ts:10-28 | lines that are not targeted keep text and order, up to empty lines at the end |

## Left out

- BootstrapConvergence.CrashedLaunchesConverge: assumes that every sent message lands with its relay before the next probe and that reads succeed; otherwise only the safety results hold.
- BootstrapModes.MixedLaunchesConverge: assumes the same.
- BootstrapHandover.HandoverComesLast: assumes that every sent message lands, because the script does not poll an exclusion; what holds with lost messages is stated by `HandoverNeedsActiveFees` and `GatedMessageIff`.
- BootstrapHandover.GatedSyncIffUnread: assumes the same of the history before the hand-over, for the same reason.
- BootstrapSafety.PartialMintIsRefused: nothing arrives late during that launch, and wallet reads fail in it only where receivers differ; a failed read with a shared receiver may mint another allocation on top.
- Late messages other than mints and relays: an administrative message that does not land in time is lost in the model.
- Fingerprint.SeparablePayloadSharedIff: compares strings by code point, while the source sorts with the locale's order; the payload is not hashed, so equality of fingerprints is equality of payloads up to collisions.
- Multisig.SortByIndex: inserts in order where the source calls the library sort; both are stable sorts by position.
- Multisig.GovernorSender.SendViaMultisig: an order that its signers approve by other means, and the expiry of orders, are not modelled; the multisig contract itself is not part of the repository.
- LockedPower.EnsureLockedVotingPower: the readings are parameters; the stake message and the sequence-number wait are not modelled.
- Runner.ExecuteRun: the network guards, the provider and the report file are left out; a killed run is one that does not reach its save.
- Contracts in place: proposal, Timelock, vault and ledger are transition functions on values, so aliasing of contract storage and action-phase failures are not modelled.
- The governor contract: creation of proposals and relaying of votes appear only as the messages they send.
- Dust repair of fee configurations, forced and dry runs, and the governance slice of the bootstrap.
- The choice between the deployer and the multisig path, a comparison of three addresses.
- Network and chain access, polling delays, cell encoding, key derivation, gas amounts and the generated wrappers.
- Staking rewards and emission ticks, dynamic burn and fee parameter changes.
- The React frontend, report formats, command-line parsing and secret scanning.
- Object keys that look like integers, which JavaScript enumerates first, and text outside the basic multilingual plane.
