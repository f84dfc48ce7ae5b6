# Drop: a verified model of the liquid staking protocol

Drop lets users bond a staking coin for a liquid token and unbond it again. Contract `core` is
driven by ticks: Idle, Claiming, Transfering, Staking, Unbonding. It orders the transactions of a
remote staking account through contract `puppeteer`, which allows one outstanding interchain
transaction and calls a hook on core when an acknowledgement, an error or a timeout arrives.

The project models the logic of these contracts and proves what holds in every reachable state and
over every run. Core, puppeteer, distribution and the auto-withdrawer appear twice. A `..._spec`
module (`distribution` for the distribution) says what a handler does as a function from stored state
to stored state; an error is a reverted call. A `..._contract` module holds the contract in its own
form, methods that load, update and save the stored items one by one, and proves every method against
the specification. Statements that loop in the source loop there; iterator chains that only compute a
value (sums, filters, collected lists) and helpers that store nothing are calls of the specification
functions. The invariants and theorems are lemmas about the specification, so they hold of the
classes.

## How the modules fit together

- `fixed_point`, `key_order`, `share_ledger`: 18-digit fixed point numbers, the key order of storage
  maps, and the ledgers of LSM shares.
- `distribution`, `distribution_contract`, `strategy`, `staking_plan`: from a validator set, reported
  delegations and a reported balance to the delegations and undelegations core orders.
- `protocol_types`, `core_spec`, `puppeteer_spec`, `protocol_spec`: the records, the handlers of core
  and puppeteer, and both contracts with bank, vouchers, withdrawal manager and channel as one
  transition system. A step is one call with all messages it causes; a refused message reverts it all.
- `tick_facts`, `channel_invariant`, `lsm_invariant`, `machine_invariant`, `batch_updates`,
  `batch_invariant`, `voucher_invariant`: the parts of the global invariant, each kept by every step.
- `protocol_theorems`: the invariant as a whole (`Inv`) and what it gives for every run.
- `tick_theorems`, `call_theorems`, `lsm_entries`: what each tick, trade, message and acknowledgement
  does and exactly when, in terms of stored items and reports, and what follows for later calls.
- `claim_solvency`: payouts against the coins that acknowledged claims moved.
- `payout_limits`: what the vouchers of a batch are worth, and exactly when a limit on its payouts holds.
- `exchange_rate`, `rate_over_runs`: pricing, for one holder and over runs of trades.
- `run_views`, `retry_run`, `stuck_runs`, `pricing_runs`: complete runs from the initial state into
  the states where the protocol overpays, is stuck, or loses its rate.
- `fsm`, `core_contract`, `puppeteer_contract`, `protocol_contract`: the classes.
- `auto_withdrawer_spec`, `auto_withdrawer_custody`, `auto_withdrawer_contract`, `pagination`: the
  auto-withdrawer, its custody of deposits and vouchers, and its paginated query.
- `version_codec`: versions as three 10-bit fields of a word.

## What the code does that a reader may not expect

Each point follows the code; where a comment or a promise says otherwise, the code was kept.

- The transition table (`packages/base/src/state/core.rs:109-154`) has no way from Claiming or
  Transfering to Unbonding, though the ticks of both states try it: such a tick is reverted
  (`OnlyStakingUnbonds`). It has no way from Idle to Idle either, so the failure of a redeem, an LSM
  share transfer or a rewards transfer sent while Idle reverts the hook, and the slot of the
  puppeteer stays taken (`AckRevertsIff`, `BlockedUntilSuccess`); three calls lead there
  (`BlockedIsReachable`).
- A failed delegation leaves core in Staking forever (`FailedDelegationIsFinal`,
  `FailedStakingIsReachable`).
- No hypothesis that a tick reads a fresh response is needed: the invariant holds without it, because
  a tick that comes before the acknowledgement cannot send a second transaction
  (`EarlyTickFallsBack`). A stale response does make ticks of Claiming answer `InvalidTransaction`;
  `InvalidTransactionIff` says exactly when, `InvalidTransactionIsReachable` reaches it.
- Retrying the failed batch k stores an empty batch at k + 1. When batch k + 1 already held items,
  their vouchers lose their backing (`RetryKeepsVouchersIff`, with a whole run from the initial state
  in `RetryLosesItems`), and the same run goes on until the batch has paid 85 coins out of 65
  (`OverwrittenBatchOverpays`). The solvency theorem holds for all batches whose items were never
  dropped; the history field `overwritten` of the model names the others. For every batch, dropped
  items or not, payouts stay within a limit exactly when its vouchers are worth no more
  (`PayoutsWithinLimitIff`).
- Collected fees are never cleared. Their transfer comes first in every short idle tick, so after the
  first collected fee no LSM share is sent or redeemed any more (`FeesStarveRedeems`); a run ends with
  a collected fee and shares that wait forever (`StarvedSharesAreReachable`).
- The rate formula subtracts ld token amounts from base token amounts. An unbond therefore keeps the
  rate when it is at least one, lowers the exact rate otherwise, and can even make the rate impossible
  to compute (`UnbondKeepsRate`, `UnbondKeepsExactRateIff`). A slashing by half leads to either
  (`RateFallIsReachable`, `LostRateIsReachable`); without a rate nothing can be bonded or unbonded and
  no idle tick succeeds (`NothingWithoutRate`).
- A batch is undelegated while `created + switch time > now`, that is until its time has passed
  (`contracts/core/src/contract.rs:1140-1143`).
- The distribution hands out everything only up to a total weight of 10^18 (`WeightLimitIsExact`), and
  reserves one token even for validators with nothing staked, so a withdrawal plan can ask for stake
  that is not there (`WithdrawFeasibleIff`, `EmptyValidatorIsOverdrawn`).
- Bonding a voucher that is already bonded replaces its record (`BondWithNftKeepsRecordsIff`): it
  succeeds for any caller with a deposit, and the voucher is returned to the new bonder only
  (`RebondReplacesBonder`). As long as nobody does that or withdraws, the bonder gets voucher and
  deposit back at any time (`BonderCanAlwaysUnbond`).
- A client of the paginated query with a limit of zero never finishes (`ClientFinishesIff`).
- `version_to_u32` accepts a leading plus sign and leading zeros, so only canonical texts print back
  (`PrintOfParse`).

## Conventions

Queries to other contracts and modules are inputs of a step: reported balances and delegations, the
validator set, the answers of `check_denom`, the block. They are arbitrary, so the theorems hold
whatever is reported. Integers are unbounded in core and puppeteer; subtraction, division and
inversion fail where the source's would, because the release profile of the workspace checks overflow.
A call that overflows upwards is reverted and leaves no trace, so every run of the contracts is a run
of the model without such calls. In `distribution` the bounds of `u64` and `u128` are explicit.

## Model

| member | source | states |
|---|---|---|
| ProtocolTheorems.RunKeeps | contracts/core/src/contract.rs:285-806 | The global invariant (channel, LSM ledgers, machine, batches, vouchers) holds in every state of every run |
| ProtocolTheorems.StepKeeps | contracts/core/src/contract.rs:382-398 | Every call keeps the invariant, and batches only advance in it |
| ProtocolTheorems.LsmSharesBalance | contracts/core/src/contract.rs:302-350 | After any run the total of LSM shares is the pending ones plus those to redeem, and a redeem in flight covers exactly the latter |
| LsmInvariant.HookKeepsLsm | contracts/core/src/contract.rs:297-374 | A hook for the transaction in flight balances the ledgers and no subtraction underflows; it reverts exactly when the machine refuses to return to Idle |
| LsmInvariant.RedeemEmptiesLedger | contracts/core/src/contract.rs:342-350 | A successful redeem empties the redeem ledger and leaves the pending shares as the total |
| LsmInvariant.BondKeepsLsm | contracts/core/src/contract.rs:768-781 | Bonding LSM shares while a transfer or redeem is in flight keeps the ledgers balanced and the flight covered |
| LsmInvariant.TickMessageCovered | contracts/core/src/contract.rs:1331-1400 | A redeem that a tick sends lists the whole redeem ledger, an LSM transfer at most the pending amount of its denom |
| LsmInvariant.StepKeepsLsm | contracts/core/src/contract.rs:302-350 | Every step of the two contracts keeps the ledgers balanced |
| LsmEntries.SentSharesMoveTheirEntry | contracts/core/src/contract.rs:302-340 | An acknowledged transfer of shares moves its amount from the pending entry to the one to redeem, which keeps its remote denom or takes that of the pending one; every other entry stays |
| LsmEntries.BondedSharesJoinTheirEntry | contracts/core/src/contract.rs:768-781 | A bond of shares raises the pending entry of its denom, with the traced remote denom for a new one; every other entry stays |
| LsmEntries.RedeemsNameTheTrace | contracts/puppeteer/src/contract.rs:782-825 | When all bonds of a denom carry one trace, both ledgers and every redeem submitted in any run name that remote denom |
| ShareLedger.RedeemItemsCoverLedger | contracts/core/src/contract.rs:1348-1359 | The redeem items add up to the ledger's total and removing them all leaves it empty |
| ShareLedger.RedeemItemsListLedger | contracts/core/src/contract.rs:1348-1359 | The items carry every ledger entry exactly once with its remote denom and amount |
| ShareLedger.TotalOfCredit | contracts/core/src/contract.rs:775-779 | Crediting a denom raises the ledger's total by the amount |
| ShareLedger.TotalOfDebit | contracts/core/src/contract.rs:323-337 | Moving an amount out of a denom lowers the total by it, whether the entry stays or is removed |
| ProtocolTheorems.OneTransactionAtATime | packages/puppeteer-base/src/execute.rs:64-113 | After any run every submitted transaction was hooked exactly once, in order, with its own content, or it is the single one in flight and the stored one |
| ChannelInvariant.StepKeepsChannel | contracts/puppeteer/src/contract.rs:928-1171 | A transaction is stored exactly when the status is not idle, and the hooks follow the submissions one by one |
| ChannelInvariant.AckIsForStoredTransaction | packages/puppeteer-base/src/reply.rs:60-83 | Though no handler compares sequence numbers, the only packet that can be acknowledged is the stored transaction, not hooked before |
| ChannelInvariant.DeliverKeepsChannel | contracts/puppeteer/src/contract.rs:928-995 | The hook core receives carries the transaction that was submitted under the acknowledged number |
| ProtocolTheorems.StateNamesTransaction | contracts/core/src/contract.rs:562-656 | After any run a transaction in flight while core is away from Idle is the kind that the state of core names |
| MachineInvariant.StepKeepsMachine | contracts/core/src/contract.rs:603-750 | Every step keeps: state and transaction agree, the cached rate is there outside Idle, and with nothing in flight the stored response answers the state's transaction |
| MachineInvariant.EarlyTickFallsBack | contracts/core/src/contract.rs:1185-1191 | A tick outside Idle that succeeds before its acknowledgement sends nothing and only falls back to Idle |
| MachineInvariant.InvalidTransactionIff | contracts/core/src/contract.rs:635-745 | In Unbonding the check cannot fail; in Claiming it fails exactly when another transaction's success is stored, with the claim still in flight |
| TickFacts.OnlyStakingUnbonds | contracts/core/src/contract.rs:642-683 | A tick of Claiming or Transfering is refused by the transition table exactly when it finds nothing to transfer or stake and then a batch to undelegate |
| FsmHelper.TableIsAllowed | packages/base/src/state/core.rs:109-154 | The table lists exactly the moves the model allows |
| FsmHelper.Fsm.GoTo | packages/helpers/src/fsm.rs:34-45 | The search through the table moves the state exactly when the transition is listed |
| CallTheorems.MessageAcceptedIff | contracts/puppeteer/src/contract.rs:296-352 | A message is taken exactly when the puppeteer is idle, its account registered and, for a transfer, one coin besides the fee attached, which is what is then sent |
| CallTheorems.AckLeaves | contracts/core/src/contract.rs:297-379 | An acknowledgement frees the slot and stores the answer; a success marks the height, and a redeem its time; the failures of claim, redeem, rewards and share transfers send core back to Idle; a timeout loses the account |
| CallTheorems.TimeoutClosesAccount | contracts/puppeteer/src/contract.rs:1120-1171 | After a timeout nothing is submitted in any run until the account is opened again |
| CallTheorems.StakeUsesFreshBalance | contracts/core/src/contract.rs:1079-1090 | Over any run a balance is staked only when it was reported at the height of the last success or later |
| CallTheorems.RedeemsKeepInterval | contracts/core/src/contract.rs:1337-1347 | Over any run the next redeem is submitted only when the maximum interval has passed since the last acknowledged one |
| ProtocolTheorems.AckRevertsIff | contracts/core/src/contract.rs:353-370 | A hook is reverted exactly when it reports the failure of a claim, redeem, LSM transfer or rewards transfer while core is Idle |
| ProtocolTheorems.BlockedUntilSuccess | contracts/core/src/contract.rs:353-370 | After such a failure nothing is submitted in any run without a successful acknowledgement |
| StuckRuns.BlockedIsReachable | contracts/core/src/contract.rs:353-370 | A run of three calls ends with such a transaction in flight |
| ProtocolTheorems.FailedDelegationIsFinal | contracts/core/src/contract.rs:693-696 | When a delegation is answered by an error or a timeout, core stays in Staking and submits nothing in any run that follows |
| ProtocolTheorems.FailedStakingIsFinal | contracts/core/src/contract.rs:693-696 | A stored failure in Staking with nothing in flight is kept by every run |
| StuckRuns.FailedStakingIsReachable | contracts/core/src/contract.rs:693-696 | A run from the initial state ends there |
| StuckRuns.InvalidTransactionIsReachable | contracts/core/src/contract.rs:603-640 | A run of five calls ends in Claiming with a claim in flight and every tick refused as an invalid transaction |
| ProtocolTheorems.FeesStarveRedeems | contracts/core/src/contract.rs:411-423 | Over any run after the first collected fee, no redeem and no LSM share transfer is submitted |
| StuckRuns.StarvedSharesAreReachable | contracts/core/src/contract.rs:411-423 | A run of six calls ends with a collected fee and an LSM share that no continuation sends or redeems |
| ProtocolTheorems.OneRatePerExcursion | contracts/core/src/contract.rs:120-126 | Away from Idle the rate is present and the same in every state of the run, and it is what every bond and unbond is priced at |
| ProtocolTheorems.ExcursionTradesAtOneRate | contracts/core/src/contract.rs:115-190 | From the idle tick that leaves Idle to the return, every bond issues and every unbond promises at the one rate that tick computed |
| ProtocolTheorems.ExcursionStartsAtComputedRate | contracts/core/src/contract.rs:182-190 | The cached rate is the one computed by the idle tick that leaves Idle |
| TickTheorems.ReleasedIff | contracts/core/src/contract.rs:455-463 | A successful tick releases an unbonding batch exactly when it is a long idle tick, the release time has come and the balance was reported after it; otherwise the batch stays as it is |
| TickTheorems.NoReleaseIsClose | contracts/core/src/contract.rs:1193-1205 | A long idle tick succeeds only when no unbonding batch is within the safe period before its release |
| TickTheorems.LongTickClaims | contracts/core/src/contract.rs:543-599 | A successful long idle tick claims exactly from the validators of the set with a reported delegation, or goes on without any; its time is recorded |
| TickTheorems.ClaimCarriesReleased | contracts/core/src/contract.rs:473-597 | A claim carries a transfer exactly when batches are released with it, for exactly those batches |
| TickTheorems.ClaimingTickFinishes | contracts/core/src/contract.rs:603-660 | A claiming tick gives exactly the batches of a stored successful claim their final status, emergency or not, reads the response away, and sends all coins, else stakes a sufficient balance, else rests |
| TickTheorems.TransferingTickStakes | contracts/core/src/contract.rs:662-685 | A transfering tick reads its response away, leaves the batches alone, and stakes exactly when the balance suffices, on a report not older than the last success |
| TickTheorems.StakingTickUndelegatesIff | contracts/core/src/contract.rs:1129-1183 | A staking tick undelegates, the failed batch first, exactly when that batch is young enough and has items and a total; the plan reaches the total up to the stake behind its break, a fresh batch follows |
| TickTheorems.UnbondingTickAnswers | contracts/core/src/contract.rs:712-750 | The answer starts the unbonding of the batch before the newest with its release time, or records its failure; nothing else changes |
| TickTheorems.ShortTickSends | contracts/core/src/contract.rs:409-424 | A short idle tick sends rewards and collected fees, else a due redeem of the whole ledger, else the whole pending amount of the first denom, and changes only the cached rate |
| TickTheorems.ShortTickRefusedIff | contracts/core/src/contract.rs:420-423 | It is refused for being early exactly when it has none of these to send |
| ProtocolTheorems.WithdrawnIsFinal | contracts/core/src/contract.rs:617-632 | Over any run no batch disappears, and a withdrawn one never changes again |
| BatchInvariant.StepKeepsBatches | contracts/core/src/contract.rs:712-750 | Ids are contiguous, exactly the newest batch is New, a failed batch directly precedes it, totals are item sums, claims list waiting batches; statuses move only along the life cycle |
| BatchInvariant.RequestKeepsShape | contracts/core/src/contract.rs:1136-1166 | Requesting the newest or the failed batch keeps ids contiguous and exactly one New batch |
| BatchInvariant.FinishUnbondKeepsShape | contracts/core/src/contract.rs:717-748 | The answer to an undelegation always finds its batch and starts or fails it |
| BatchInvariant.ReleaseKeepsShape | contracts/core/src/contract.rs:477-535 | Releasing batches changes exactly the listed ones, which were unbonding and now wait for their coins |
| BatchInvariant.FinishClaimKeepsShape | contracts/core/src/contract.rs:612-640 | A successful claim marks exactly its own batches withdrawn |
| BatchInvariant.UnbondKeepsBatches | contracts/core/src/contract.rs:955-968 | An unbond keeps total and expected amount the sums of the items |
| ClaimSolvency.SubmittedTransferIsBacked | contracts/core/src/contract.rs:455-595 | In every reachable state a submitted claim lists exactly the due unbonding batches in order and moves at most the reported balance, to the pump exactly what they are credited with |
| BatchUpdates.TransferIsBacked | contracts/core/src/contract.rs:473-541 | A transfer attached to a claim is at most the reported balance; outside an emergency it is exactly what the listed batches were credited with, each at most its expected amount with slashing at most one |
| BatchUpdates.ReadyIdsExact | contracts/core/src/contract.rs:428-471 | The released batches are exactly the unbonding ones whose release is not after now and before the reported time, in id order |
| BatchUpdates.SlashSingleIsSlashed | contracts/core/src/contract.rs:485-505 | A single batch is credited with the smaller of balance and expected amount, never divides by zero and is slashed by at most one |
| BatchUpdates.PrepareTransferAt | contracts/core/src/contract.rs:474-541 | Preparing a transfer changes status and credit of the listed batches and nothing else |
| ProtocolTheorems.PayoutsNeverExceedUnbonded | contracts/withdrawal-manager/src/contract.rs:200-212 | Over any run the payouts of a withdrawn batch stay within its unbonded amount, and once all vouchers are redeemed fall short by at most n + expected / 10^18 |
| ClaimSolvency.PayoutsWithinArrivedClaims | contracts/core/src/contract.rs:612-632 | After any run every withdrawn batch is on an acknowledged claim, and all payouts for batches that kept their items stay within the coins acknowledged claims moved to the pump |
| ClaimSolvency.StepKeepsClaims | contracts/core/src/contract.rs:473-632 | Every submitted claim goes on matching the credits of its batches, and no batch is on two claims |
| ClaimSolvency.ArrivedIsCredited | contracts/core/src/contract.rs:473-541 | The coins of the acknowledged claims are the credits of the batches they list, each counted once |
| PayoutLimits.PayoutsWithinLimitIff | contracts/withdrawal-manager/src/contract.rs:187-212 | In every later run the payouts of a withdrawn batch stay within a limit exactly when its vouchers are worth no more, overwritten or not |
| PayoutLimits.KeptBatchIsCovered | contracts/withdrawal-manager/src/contract.rs:200-212 | The vouchers of a batch that kept its items are worth at most its unbonded amount |
| PayoutLimits.StepPaysWorth | contracts/withdrawal-manager/src/contract.rs:200-212 | Every batch has paid exactly what its redeemed vouchers are worth, and only withdrawn ones paid |
| VoucherInvariant.StepKeepsVouchers | contracts/core/src/contract.rs:962-1020 | Every voucher of a kept batch is backed by its own item, every item has its voucher, and what was paid is what the redeemed vouchers are worth |
| VoucherInvariant.Solvent | contracts/withdrawal-manager/src/contract.rs:200-212 | The invariant bounds the payouts of a batch from above and below |
| VoucherInvariant.OneMoreToken | contracts/withdrawal-manager/src/contract.rs:200-212 | Redeeming one more voucher adds exactly its slashed amount |
| VoucherInvariant.PaidForAtMost | contracts/withdrawal-manager/src/contract.rs:205-208 | Floored payouts together stay within slashing times the expected total |
| VoucherInvariant.PaidForAtLeast | contracts/withdrawal-manager/src/contract.rs:205-208 | Floored payouts of all vouchers lose less than one token each |
| VoucherInvariant.RetryKeepsVouchersIff | contracts/core/src/contract.rs:1161-1166 | After the retry of a failed batch the vouchers of the next one are backed exactly when it held no items |
| RetryRun.RetryLosesItems | contracts/core/src/contract.rs:1129-1166 | A run from the initial state after which a minted voucher has no item |
| RetryRun.OverwrittenBatchOverpays | contracts/core/src/contract.rs:1161-1166 | The run goes on: that batch is unbonded, released, claimed and withdrawn with 65 coins and pays 85 |
| ExchangeRateTheorems.RoundTrip | contracts/core/src/contract.rs:785-788 | Bonding and unbonding what was issued, at one rate r, promises at most the amount and at least amount - amount * r / 10^18 - r - 1 |
| ExchangeRateTheorems.RateCountsEveryReport | contracts/core/src/contract.rs:136-149 | Every reported delegation counts once wherever it stands: it is worth as much to the rate as the same amount held by core |
| ExchangeRateTheorems.RateWithoutReports | contracts/core/src/contract.rs:168-178 | Without reports the rate is the coins and shares held less the bond being priced and the unprocessed unbonds, over the supply, rounded down, and one without supply |
| CallTheorems.QuoteIs | contracts/core/src/contract.rs:120-128 | The quoted rate is the cached one away from Idle; in Idle it is computed, and refused without an ld denom |
| CallTheorems.BondAcceptedIff | contracts/core/src/contract.rs:752-806 | A bond is accepted exactly when one bondable coin is attached, the limit is kept and a positive rate is quoted; it issues at that rate and counts towards the limit |
| CallTheorems.BondedWithinLimit | contracts/core/src/contract.rs:760-765 | Over any run the bonded amount adds up all bonds and never exceeds a configured limit |
| CallTheorems.UnbondAcceptedIff | contracts/core/src/contract.rs:945-1020 | An unbond is accepted exactly when existing ld tokens are attached, a rate is quoted and the voucher is new; item and voucher carry sender, amount and what the rate makes of it |
| ExchangeRateTheorems.BondPricedAtOldRate | contracts/core/src/contract.rs:153-178 | Subtracting the bonded amount makes a bond issue at the rate from before its coins arrived, for base coins and LSM shares alike |
| ExchangeRateTheorems.BondKeepsRate | contracts/core/src/contract.rs:785-788 | A bond while Idle never lowers the computed rate under all roundings |
| ExchangeRateTheorems.UnbondKeepsRate | contracts/core/src/contract.rs:956-965 | With a rate of at least one an unbond does not lower it; the rate stays computable exactly when the books hold the burned number of tokens |
| ExchangeRateTheorems.UnbondKeepsExactRateIff | contracts/core/src/contract.rs:956-965 | The exact rate does not fall with an unbond exactly when the quoted rate is at least one |
| PricingRuns.RateFallIsReachable | contracts/core/src/contract.rs:153-178 | A run from the initial state, with half of the stake slashed, ends at a rate below one that an unbond lowers |
| PricingRuns.LostRateIsReachable | contracts/core/src/contract.rs:170-178 | The same run with a larger unbond ends without a computable rate |
| PricingRuns.NothingWithoutRate | contracts/core/src/contract.rs:115-190 | Without a rate every bond, unbond and idle tick is reverted while the reports stay as they are |
| RateOverRuns.UnprocessedWhileIdle | contracts/core/src/contract.rs:143-167 | In every reachable Idle state the unprocessed unbonds are the newest and the failed batch; the requested branch is never taken |
| RateOverRuns.TradesNeverLowerRate | contracts/core/src/contract.rs:115-180 | No run of bonds, and with rate at least one no run of bonds and unbonds, lowers the rate while Idle |
| StakingPlan.DelegateSpendsBalance | contracts/core/src/contract.rs:1077-1122 | Fee plus delegated items is exactly the reported balance (total weight up to 10^18; up to the dust beyond), items follow the validator set in order with at least one token each |
| CallTheorems.TickBooksFee | contracts/core/src/contract.rs:1091-1119 | What a delegation leaves of the balance is the fee, rounded down, and is added to the collected fees of the address already there or else the configured one; no other tick changes them |
| StakingPlan.UndelegateWithinBatch | contracts/core/src/contract.rs:1145-1178 | An undelegation asks for at most the total of its batch, from validators of the set |
| StakingPlan.DelegateFollowsPlan | contracts/core/src/contract.rs:1094-1122 | The delegations are the changes of a plan for the validator set and its stake reported in the remote denom, towards the ideal shares with the deposit added |
| StakingPlan.UndelegateFollowsPlan | contracts/core/src/contract.rs:1151-1178 | The undelegations are the changes of such a plan towards the ideal shares without the batch |
| StakingPlan.FeeWithinBalance | contracts/core/src/contract.rs:1091-1092 | A fee rate of at most one takes at most the balance |
| Distribution.IdealStakesConserve | contracts/distribution/src/contract.rs:144-183 | The ideal stakes sum to the total for weights up to 10^18, lose at most the dust beyond, and describe a prefix of the input in order |
| Distribution.IdealStakesProportional | contracts/distribution/src/contract.rs:150-163 | No ideal stake exceeds its exact proportional share rounded up |
| Distribution.IdealStakesCoverShares | contracts/distribution/src/contract.rs:150-177 | Every validator but the last one reached gets at least its exact share, up to the rounding of the stake per weight |
| Distribution.WeightLimitIsExact | contracts/distribution/src/contract.rs:148-152 | All of every total is handed out exactly when the total weight is at most 10^18 |
| Distribution.DepositConserves | contracts/distribution/src/contract.rs:133-142 | The stake changes sum to the deposit; position by position a change is at least one and at most the gap from the validator's stake to its ideal stake, and gaps are filled from the front |
| Distribution.WithdrawBounded | contracts/distribution/src/contract.rs:121-130 | The stake changes sum to at most the withdrawal and fall short by at most the stake cut off by the early break |
| Distribution.WithdrawFeasibleIff | contracts/distribution/src/contract.rs:62-89 | A plan asks only for stake that is there exactly when no validator reached before the break of the ideal stakes is empty |
| Distribution.EmptyValidatorIsOverdrawn | contracts/distribution/src/contract.rs:62-89 | Withdrawing four tokens from an empty and a full validator asks the empty one for a token |
| Distribution.SpreadConserves | contracts/distribution/src/contract.rs:91-118 | Reserving one token each and filling the gaps spends the amount, or the whole demand when that is smaller |
| Distribution.SpreadIsGreedy | contracts/distribution/src/contract.rs:91-118 | Gaps are filled from the front: nobody gets more than the reserved token before everyone in front has got the whole gap |
| Distribution.SpreadBounded | contracts/distribution/src/contract.rs:91-118 | Every change is between the reserved token and the gap, and nothing else about an entry changes |
| DistributionContract.CalcIdealStake | contracts/distribution/src/contract.rs:144-183 | The loop with clamp and early break computes the ideal stakes, with the same failures |
| DistributionContract.DistributeStakeDeposit | contracts/distribution/src/contract.rs:91-118 | The in-place walk over the array leaves exactly the spread deposit |
| DistributionContract.DistributeStakeWithdraw | contracts/distribution/src/contract.rs:62-89 | The in-place walk over the array leaves exactly the spread withdrawal |
| DistributionContract.CalcDeposit | contracts/distribution/src/contract.rs:133-142 | The plan of the array form is the specified one, with the same failures |
| DistributionContract.CalcWithdraw | contracts/distribution/src/contract.rs:121-130 | The plan of the array form is the specified one, with the same failures |
| Strategy.PrepareDelegationData | contracts/strategy/src/contract.rs:115-160 | Collecting reports into a map and looking every validator up gives the specified join |
| Strategy.JoinConservesStake | contracts/strategy/src/contract.rs:134-157 | The plan sees the whole reported stake of the denom except what is outside the validator set |
| Strategy.LastReportCounts | contracts/strategy/src/contract.rs:134-151 | A validator's stake is what its last report in the denom says, or nothing without one |
| Strategy.JoinAt | contracts/strategy/src/contract.rs:142-157 | Position by position the join keeps the validator, its weight and its last report |
| CoreContract.CoreStorage.QueryExchangeRate | contracts/core/src/contract.rs:115-180 | Adding up the unprocessed unbonds batch by batch gives the specified rate, failures included |
| CoreContract.CoreStorage.ExecuteBond | contracts/core/src/contract.rs:752-806 | The item by item bond is the specified one, failures included |
| CoreContract.CoreStorage.ExecuteUnbond | contracts/core/src/contract.rs:945-968 | The item by item unbond is the specified one |
| CoreContract.CoreStorage.ExecutePuppeteerHook | contracts/core/src/contract.rs:285-380 | The hook's updates of the ledgers and the machine are the specified ones |
| CoreContract.CoreStorage.ExecuteTick | contracts/core/src/contract.rs:382-398 | A tick in any state has the specified effect and message |
| CoreContract.CoreStorage.TickIdle | contracts/core/src/contract.rs:400-424 | The idle tick caches the rate, then prefers rewards and fees, redeem, LSM transfer, or starts an excursion |
| CoreContract.CoreStorage.TickClaiming | contracts/core/src/contract.rs:603-660 | The claiming tick has the specified effect |
| CoreContract.CoreStorage.TickTransfering | contracts/core/src/contract.rs:662-685 | The transfering tick has the specified effect |
| CoreContract.CoreStorage.TickStaking | contracts/core/src/contract.rs:687-710 | The staking tick has the specified effect |
| CoreContract.CoreStorage.TickUnbonding | contracts/core/src/contract.rs:712-750 | The unbonding tick has the specified effect |
| CoreContract.CoreStorage.ReleaseBatches | contracts/core/src/contract.rs:474-541 | The release of ready batches, with the loop over them, is the specified one |
| CoreContract.CoreStorage.GetStakeMsg | contracts/core/src/contract.rs:1063-1127 | The stake message and the fee booking are the specified ones |
| CoreContract.CoreStorage.GetUnbondingMsg | contracts/core/src/contract.rs:1129-1183 | The undelegation and the batch it stores are the specified ones |
| PuppeteerContract.PuppeteerStorage.Execute | contracts/puppeteer/src/contract.rs:782-825 | Idle check, transaction and stored state are the specified ones; a refusal changes nothing |
| PuppeteerContract.PuppeteerStorage.Sudo | contracts/puppeteer/src/contract.rs:928-1171 | The three sudo handlers clear the slot and return the hook with the stored transaction |
| PuppeteerContract.PuppeteerStorage.SubmitTxReply | packages/puppeteer-base/src/reply.rs:60-83 | The reply records the sequence number and waits for the acknowledgement |
| PuppeteerContract.Ica.Register | packages/helpers/src/ica.rs:29-51 | Registration starts only from no account or a timed out one |
| PuppeteerContract.Ica.GetAddress | packages/helpers/src/ica.rs:70-83 | An address is returned exactly when the account is registered |
| ProtocolContract.Chain.Tick | contracts/core/src/contract.rs:382-398 | A tick with its message is one step of the transition system, undone as a whole when refused |
| ProtocolContract.Chain.Deliver | contracts/puppeteer/src/contract.rs:872-926 | An acknowledgement with its hook is one step, undone as a whole when core refuses |
| ProtocolContract.Chain.Bond | contracts/core/src/contract.rs:752-806 | A bond with its minting is one step |
| ProtocolContract.Chain.Unbond | contracts/core/src/contract.rs:945-1023 | An unbond with voucher and burning is one step |
| ProtocolContract.Chain.Withdraw | contracts/withdrawal-manager/src/contract.rs:162-227 | Redeeming a voucher is one step; it pays the specified amount |
| AutoWithdrawerCustody.CustodyHolds | contracts/auto-withdrawer/src/contract.rs:76-260 | In every reachable state balances cover the recorded deposits in every denom, every bonded voucher is owned, and no unbond is pending |
| AutoWithdrawerCustody.UnbondReturnsAll | contracts/auto-withdrawer/src/contract.rs:150-184 | An unbond succeeds exactly for the bonder and returns the voucher and exactly the deposit, touching no other balance |
| AutoWithdrawerCustody.WithdrawSplitsRewards | contracts/auto-withdrawer/src/contract.rs:186-222 | A withdraw succeeds for anyone exactly when the voucher is bonded and accepted; deposit to the caller, payout to the bonder |
| AutoWithdrawerCustody.BondWithLdAssetsKeepsHeld | contracts/auto-withdrawer/src/contract.rs:76-110 | Bonding with ld assets ends with the minted voucher and the remaining funds in custody and the slot empty |
| AutoWithdrawerCustody.BondWithLdAssetsRecords | contracts/auto-withdrawer/src/contract.rs:76-110 | A bond succeeds exactly with an ld coin, a deposit beside it, coins that cover both and a newly minted voucher; it records the sender with exactly the coins beside the first ld coin, which goes to core |
| AutoWithdrawerCustody.BondThenUnbond | contracts/auto-withdrawer/src/contract.rs:76-184 | Bonding and unbonding returns the voucher and every coin but the ld coin, and leaves every other balance as it was |
| AutoWithdrawerCustody.BondWithNftKeepsHeld | contracts/auto-withdrawer/src/contract.rs:112-148 | Bonding a voucher ends with the voucher and the funds in custody |
| AutoWithdrawerCustody.BondWithNftKeepsRecordsIff | contracts/auto-withdrawer/src/contract.rs:123-130 | Bonding a voucher keeps all records exactly when it is not bonded yet, or with the same record |
| AutoWithdrawerCustody.RebondReplacesBonder | contracts/auto-withdrawer/src/contract.rs:112-184 | Bonding a bonded voucher again succeeds for any caller and answer, and then the voucher is returned to the new bonder and to nobody else |
| AutoWithdrawerCustody.BonderCanAlwaysUnbond | contracts/auto-withdrawer/src/contract.rs:150-222 | Over any run without an unbond by the bonder, a withdraw or a rebond of the voucher, its record stays and the bonder gets voucher and deposit back |
| AutoWithdrawerCustody.SwapRemoveAmount | contracts/auto-withdrawer/src/contract.rs:82-87 | Swap removal takes exactly the ld asset out of the funds |
| AutoWithdrawerContract.AutoWithdrawer.ExecuteBondWithLdAssets | contracts/auto-withdrawer/src/contract.rs:76-110 | The search, the swap removal and the saved slot are the specified ones |
| AutoWithdrawerContract.AutoWithdrawer.Reply | contracts/auto-withdrawer/src/contract.rs:224-260 | The reply empties the slot into the bonding of the minted voucher |
| AutoWithdrawerContract.AutoWithdrawer.ExecuteBondWithNft | contracts/auto-withdrawer/src/contract.rs:112-148 | The record and the transfer message are the specified ones |
| AutoWithdrawerContract.AutoWithdrawer.ExecuteUnbond | contracts/auto-withdrawer/src/contract.rs:150-184 | Only the bonder removes the record; both messages go to the bonder |
| AutoWithdrawerContract.AutoWithdrawer.ExecuteWithdraw | contracts/auto-withdrawer/src/contract.rs:186-222 | The record is removed; the voucher goes to the manager, the deposit to the caller |
| AutoWithdrawerContract.AutoWithdrawer.QueryAllBondings | contracts/auto-withdrawer/src/contract.rs:274-316 | Of all bondings, or those of one user, the page holds exactly those from the page key up to the next one, each once in key order with its record; the limit defaults to one hundred |
| AutoWithdrawerContract.QueriedPagesCover | contracts/auto-withdrawer/src/contract.rs:281-312 | Enough pages list all bondings, or all bondings of one user, each exactly once in key order and no other |
| Pagination.PagesAfter | contracts/auto-withdrawer/src/contract.rs:281-312 | After n requests the pages together are the first n * limit keys, and the client is done exactly when that is all |
| Pagination.ClientFinishesIff | contracts/auto-withdrawer/src/contract.rs:296-312 | Following the keys ends exactly when the limit is positive or nothing is stored |
| Pagination.ChangingListIsListedOnce | contracts/auto-withdrawer/src/contract.rs:281-312 | If bondings change between requests nothing is listed twice, order is kept, and what stays stored is listed |
| Pagination.PageIsInterval | contracts/auto-withdrawer/src/contract.rs:281-312 | A page is exactly the stored keys from its inclusive bound up to the next one |
| VersionCodec.ParseOfPrint | packages/helpers/src/version.rs:29-31 | Parsing a printed word gives its low thirty bits, the word itself exactly below 2^30 |
| VersionCodec.PrintOfParse | packages/helpers/src/version.rs:3-31 | Printing a parsed text gives it back exactly when its three numbers are canonical |
| VersionCodec.ParseSucceedsIff | packages/helpers/src/version.rs:3-27 | Parsing succeeds exactly on three dot-separated numbers below 1024 |
| VersionCodec.NumberIff | packages/helpers/src/version.rs:14-22 | A number is one or more digits, with or without a plus sign, that denote a value below 1024 |
| VersionCodec.OrderAgrees | packages/helpers/src/version.rs:3-27 | Words compare as the versions do, number by number |
| VersionCodec.VersionToU32 | packages/helpers/src/version.rs:3-27 | The loop from the right with shift and or builds the specified word, or fails on the rightmost bad part |
| VersionCodec.JoinOfSplit | packages/helpers/src/version.rs:4 | Splitting loses nothing and leaves no dot in a part |
| VersionCodec.FieldsOfPack | packages/helpers/src/version.rs:29-31 | Masks and shifts read the packed fields back |

## Left out

- Overflow of u128 and u64 in core, puppeteer, withdrawal manager and auto-withdrawer: additions and multiplications are unbounded there; see Conventions.
- Pausing, ownership, configuration updates, resetting the bonded amount, migrations: configuration is fixed during a run and nothing is paused.
- Registration of interchain queries, their results and their heights: reported balances, delegations and times are arbitrary inputs of a step.
- `check_denom`: the denom trace and the validator found for a denom are an input of a bond; the fee denom never has a trace.
- The amounts of non-native rewards: the payments a tick finds are an input; the fees that follow them are modelled.
- Redelegation and tokenized shares of the puppeteer: core never sends them; core is its only sender and the receiver of every hook.
- Fees of interchain transactions, timeouts as durations, answers inside an acknowledgement and message encoding.
- Refunds of a failed transfer to the core contract: the coins that leave core for the puppeteer are not followed.
- Base coins attached to a tick: they are passed on with the message and not counted in core's balance.
- The denom key of the collected fees: there is only the remote denom.
- Batch ids in vouchers and hooks: numbers, not texts; a voucher id is the record of batch, sender and index instead of the joined text.
- ProtocolTheorems.PayoutsNeverExceedUnbonded: for batches that were not overwritten; for the others it can fail, see `RetryRun.OverwrittenBatchOverpays`, and `PayoutLimits.PayoutsWithinLimitIff` gives the exact condition.
- Approvals and internals of the voucher contract: whether a foreign voucher may be moved is an input; the auto-withdrawer reads the id of the minted voucher from an event, which is an input as well.
- The withdrawal manager: it stores nothing when it pays, so it is the function `Payout` of the transition system and no class.
- The chain around the auto-withdrawer (`AutoWithdrawerSpec.Perform`): bank, vouchers and the delivery of messages are functions on values; only the contract's own handlers are methods of a class.
- Liveness: nothing is proved about when ticks happen or answers arrive.
- Contracts factory, pump, rewards manager, astroport handler, validators set and statistics, token, proposal votes and hook tester: wiring or counters.
