# Verified model of the Sovereign Citadel core

This project models, in Dafny, the parts of the Sovereign Citadel Protocol where money and
signatures are accounted for, and proves what they keep over every run:

- **Staking rewards** (`Token`, `Staking`, `StakingSafety`, `StakingWidths`, `EagerStaking`,
  `StakingFairness`, `FeeDistribution`): the $CTDL ledger, the constant-time reward
  accumulator on top of it, and the fee distributor that feeds it.
- **Liquidity pool** (`LiquidityPool`, `LiquidityRuns`): shares minted and burnt at a floored
  integer price, with liquidity locked alongside.
- **Signing policy** (`Policy`, `Signing`): a sliding-window rate limit and an hourly cap over
  pruned memories, driven by the signer.
- **Contracts** (`Hex`, `DlcStates`, `DlcStorage`, `DlcLifecycle`, `Payout`): a store with a
  text-keyed index, the contract state machine on it, and payout curves.
- **Liquidity bootstrapping** (`Bootstrapping`): proofs claimed once each for minted tokens.

`Prelude`, `MapSums` and `Arithmetic` hold shared types and the sums and roundings everything
rests on.

## How it is built

Each stateful component of the program is a class whose methods change fields step by step as
the Rust code does. Every such method is proved to compute a function on plain values
(`Do`, `Signed`, `Saved`, ...), and the run-level results are lemmas about those functions,
by induction over sequences of calls. The reward pool is also compared with a second,
independent algorithm (`EagerStaking`) and with exact real-valued shares (`StakingFairness`);
the pruned signing policy is compared with one that never forgets.

Conventions:

- One public operation is one atomic step. The program takes several locks in turn; calls are
  assumed to be serialised.
- Amounts are mathematical integers. `StakingWidths.NoOverflow`, `LiquidityPool.NoOverflow` and
  `Signing.NoCheckOverflows` show which of the values the code computes stay within their
  machine types, and when.
- Clock readings, the keystore's answer and the verdict on a pair of signatures are parameters.
  The two clocks of the signing policy are separate, as in the code.
- Account keys are the text form of public keys, which the code uses as map keys.
- Floating point is replaced: the early-withdrawal penalty is any value between zero and the
  amount, the bootstrapping rate is an integer, linear payouts are floored rationals and
  polynomial payouts are computed over the reals. These are abstractions.

Facts of the code that its documentation does not say, or says otherwise; the model follows
the code:

- `unstake` reports the amount less the penalty but unlocks the full amount
  (`StakingSafety.UnstakeIsAtomic`).
- A claim refused for lack of rewards has settled the position and forfeits the fraction of a
  satoshi it found (`StakingSafety.RefusedClaimForfeits`).
- A fee batch sent while nobody is staked counts as distributed and reaches nobody
  (`FeeDistribution.FeesAreConserved`).
- The configured maximum utilization is not enforced when liquidity is locked.
- Refunding does not look at the timeout, settling looks at neither payout nor oracle, signing
  does not compare the contract id in the signature message, and failing succeeds from any
  state or none (`DlcLifecycle.SucceedsExactlyWhen`).
- Validating a discrete payout curve does not bound its payouts
  (`Payout.DiscreteSplitsExactlyWhen`).
- In the first hour of the Unix epoch the hour arithmetic wraps and the hourly total is
  forgotten (`Signing.FirstHourIsForgotten`); the run-level results start after it.

## Model

| member | source | states |
|---|---|---|
| `Token.CtdlToken.Mint` | crates/scp-economics/src/token.rs:78-101 | the ledger after a mint, refused when the cap would be exceeded |
| `Token.CtdlToken.Transfer` | crates/scp-economics/src/token.rs:104-130 | the ledger after a transfer, with both refusals |
| `Token.CtdlToken.Stake` | crates/scp-economics/src/token.rs:139-157 | the ledger after locking tokens |
| `Token.CtdlToken.Unstake` | crates/scp-economics/src/token.rs:160-178 | the ledger after unlocking tokens |
| `Token.CtdlToken.TotalStaked` | crates/scp-economics/src/token.rs:202-209 | the loop returns the sum of all staked balances |
| `Token.MintConserves` | crates/scp-economics/src/token.rs:78-101 | all balances sum to the supply, within the cap; a mint succeeds if and only if that sum stays within it |
| `Token.MintPays` | crates/scp-economics/src/token.rs:93-97 | a mint pays its recipient the amount, and nobody else |
| `Token.TransferConserves` | crates/scp-economics/src/token.rs:104-130 | a transfer, also to oneself, neither creates nor loses tokens |
| `Token.TransferMoves` | crates/scp-economics/src/token.rs:104-130 | when it succeeds, who gains and loses, that paying oneself changes nothing, and that no stake moves |
| `Token.LockConserves` | crates/scp-economics/src/token.rs:139-178 | locking and unlocking keep the supply balanced |
| `Token.LockMoves` | crates/scp-economics/src/token.rs:139-178 | when locking and unlocking succeed, and that they move an amount between one holder's two balances |
| `Token.UnlockUndoesLock` | crates/scp-economics/src/token.rs:139-178 | locking and unlocking undo each other exactly |
| `Token.StakesWithinSupply` | crates/scp-economics/src/token.rs:45-49 | no balance and no sum of stakes exceeds the supply |
| `Token.SupplyIsWhatIsHeld` | crates/scp-economics/src/token.rs:45-49 | the supply is the sum of all available, staked and vesting balances |
| `Staking.StakingPool.SumStaked` | crates/scp-economics/src/staking.rs:260-267 | the loop returns the sum of all staked amounts |
| `Staking.StakingPool.Distribute` | crates/scp-economics/src/staking.rs:94-119 | the pool after a distribution, unchanged for zero sats or no stakers |
| `Staking.StakingPool.Stake` | crates/scp-economics/src/staking.rs:122-168 | pool and token after a stake, with every refusal |
| `Staking.StakingPool.Unstake` | crates/scp-economics/src/staking.rs:171-214 | pool and token after an unstake, with every refusal |
| `Staking.StakingPool.Claim` | crates/scp-economics/src/staking.rs:217-242 | the pool after a claim, including a refused one that settles |
| `Staking.StakingPool.Position` | crates/scp-economics/src/staking.rs:245-257 | the position as it would stand if settled now |
| `StakingSafety.RunKeepsInv` | crates/scp-economics/src/staking.rs:94-242 | in every reachable state debts never exceed credits, each token stake equals the position, and balances sum to the supply |
| `StakingSafety.UnstakeIsAtomic` | crates/scp-economics/src/staking.rs:175-214 | an unstake succeeds if and only if the position covers it, never half done, and returns the full amount |
| `StakingSafety.StepBalances` | crates/scp-economics/src/staking.rs:94-242 | one call, one staker: owed and earned equals paid, still owed and rounded off |
| `StakingSafety.DistributionBalances` | crates/scp-economics/src/staking.rs:104-116 | a distribution raises the total owed by the sats less the remainder of the division |
| `StakingSafety.RunBalances` | crates/scp-economics/src/staking.rs:94-242 | over any run every distributed scaled satoshi is paid, owed or accounted for as rounding |
| `StakingSafety.Solvency` | crates/scp-economics/src/staking.rs:94-242 | claimed plus claimable never exceeds distributed, and the exact two-sided bound on the dust |
| `StakingSafety.OthersUnaffected` | crates/scp-economics/src/staking.rs:122-242 | nobody's staking, unstaking or claiming changes what another is owed |
| `StakingSafety.RefusedClaimForfeits` | crates/scp-economics/src/staking.rs:226-236 | what a refused claim loses, and exactly when it changes nothing |
| `StakingSafety.ClaimPaysWhatIsShown` | crates/scp-economics/src/staking.rs:217-257 | a claim pays exactly what a query shows, and leaves nothing to show |
| `StakingSafety.QueryShowsThePosition` | crates/scp-economics/src/staking.rs:245-257 | apart from the rewards a query shows the position as stored |
| `StakingWidths.AccumulatorBounded` | crates/scp-economics/src/staking.rs:104-116 | the accumulator never exceeds the scaled total distributed |
| `StakingWidths.SettlementAlwaysFits` | crates/scp-economics/src/staking.rs:152-161 | no product overflows u128 and the narrowing cast of the reward loses nothing |
| `StakingWidths.NoOverflow` | crates/scp-economics/src/staking.rs:94-242 | within range every call computes within its machine types; a mint if and only if the new supply fits |
| `StakingWidths.BitcoinIsInRange` | crates/scp-economics/src/staking.rs:9 | a cap of a billion units and all satoshis ever are within range |
| `EagerStaking.DistributeRefines` | crates/scp-economics/src/staking.rs:104-116 | raising the accumulator is crediting every position |
| `EagerStaking.StepRefines` | crates/scp-economics/src/staking.rs:94-242 | every call agrees with the loop-over-everybody algorithm, in state and answer |
| `EagerStaking.LazyRefinesEager` | crates/scp-economics/src/staking.rs:94-242 | so does every run, answer by answer |
| `StakingFairness.CreditNearShare` | crates/scp-economics/src/staking.rs:104-112 | one distribution credits a staker the exact share less under one scaled unit per staked unit |
| `StakingFairness.EveryStakerGetsTheirShare` | crates/scp-economics/src/staking.rs:94-242 | over any run a staker gets at most the exact share and misses it by bounded rounding |
| `StakingFairness.OneSettlementIsAccurate` | crates/scp-economics/src/staking.rs:226-238 | a claim after waiting pays within one satoshi and the growth rounding of the exact share |
| `StakingFairness.ManySettlementsLoseLittle` | crates/scp-economics/src/staking.rs:226-238 | claiming after every call never pays more and loses under one satoshi per further distribution |
| `FeeDistribution.FeeDistributor.CollectFee` | crates/scp-economics/src/fees.rs:66-74 | the distributor after collecting a fee |
| `FeeDistribution.FeeDistributor.Distribute` | crates/scp-economics/src/fees.rs:83-111 | distributor and pool after a batch, and the sats sent |
| `FeeDistribution.PoolSeesItsCalls` | crates/scp-economics/src/fees.rs:83-111 | a run of the whole system is a run of the pool on the calls it sees |
| `FeeDistribution.CollectedIsPaidIn` | crates/scp-economics/src/fees.rs:66-74 | over any run the collected total grows by exactly the fees paid in |
| `FeeDistribution.FlushHandsOverEverything` | crates/scp-economics/src/fees.rs:83-111 | a flush hands the pool everything pending and leaves nothing behind |
| `FeeDistribution.FeesAreConserved` | crates/scp-economics/src/fees.rs:66-111 | collected is pending plus distributed, and distributed is the pool's total plus what nobody received |
| `FeeDistribution.FeesPayRewards` | crates/scp-economics/src/fees.rs:66-111 | where every fee paid in went; stakers are never paid more than traders paid in |
| `LiquidityPool.Pool.Deposit` | crates/scp-vault/src/pool.rs:104-172 | the pool after a deposit, with every refusal |
| `LiquidityPool.Pool.Withdraw` | crates/scp-vault/src/pool.rs:175-236 | the pool after a withdrawal, with every refusal |
| `LiquidityPool.Pool.LockLiquidity` | crates/scp-vault/src/pool.rs:257-272 | the pool after locking liquidity |
| `LiquidityPool.Pool.ReleaseLiquidity` | crates/scp-vault/src/pool.rs:275-278 | the pool after releasing liquidity, saturating at zero |
| `LiquidityPool.Pool.SetCircuitBreaker` | crates/scp-vault/src/pool.rs:293-304 | the pool after switching the breaker |
| `LiquidityPool.Pool.AvailableLiquidity` | crates/scp-vault/src/pool.rs:239-243 | in a valid pool the subtraction never saturates |
| `LiquidityPool.PriceCoversShares` | crates/scp-vault/src/pool.rs:92-101 | the price is at least the initial one and the largest at which the liquidity covers all shares |
| `LiquidityPool.DepositKeepsInv` | crates/scp-vault/src/pool.rs:104-154 | when a deposit succeeds, that it buys all the whole shares it pays for, and the invariant |
| `LiquidityPool.WithdrawKeepsInv` | crates/scp-vault/src/pool.rs:175-236 | when a withdrawal succeeds, that it pays exactly the price, and the invariant |
| `LiquidityPool.DepositRecords` | crates/scp-vault/src/pool.rs:136-154 | a deposit opens or adds to its owner's record and leaves all others |
| `LiquidityPool.WithdrawalRecords` | crates/scp-vault/src/pool.rs:217-226 | a withdrawal keeps its owner's record while shares remain, and leaves all others |
| `LiquidityPool.RefusesWith` | crates/scp-vault/src/pool.rs:104-264 | which error each refused deposit, withdrawal and lock returns |
| `LiquidityPool.PauseSwitches` | crates/scp-vault/src/pool.rs:293-304 | pausing stops deposits, resuming allows them, and neither moves money |
| `LiquidityPool.ReleaseFrees` | crates/scp-vault/src/pool.rs:275-278 | a release frees what it names, and everything when it names more than is locked |
| `LiquidityPool.OneBitcoinBuysAHundredShares` | crates/scp-vault/src/pool.rs:96-121 | the opening price in numbers |
| `LiquidityPool.LockKeepsInv` | crates/scp-vault/src/pool.rs:257-278 | a lock succeeds if and only if covered, and releasing it restores the pool |
| `LiquidityPool.StepKeepsInv` | crates/scp-vault/src/pool.rs:104-278 | every call keeps the invariant, and a failing one changes nothing |
| `LiquidityPool.NoOverflow` | crates/scp-vault/src/pool.rs:120-134 | no division by zero and no u64 overflow in deposits and withdrawals |
| `LiquidityPool.PriceFallsOnlyWhenEmptied` | crates/scp-vault/src/pool.rs:92-101 | a call lowers the price exactly when it burns the last share above the initial price |
| `LiquidityRuns.LiquidityConserved` | crates/scp-vault/src/pool.rs:104-236 | over any run liquidity is deposits less withdrawals |
| `LiquidityRuns.EveryRunOfANewPool` | crates/scp-vault/src/pool.rs:104-278 | shares add up, the price floor holds and locks are covered in every reachable state |
| `LiquidityRuns.HoldersNeverLose` | crates/scp-vault/src/pool.rs:92-236 | nobody can lower the worth of an idle holder's shares |
| `LiquidityRuns.NewcomersCannotProfit` | crates/scp-vault/src/pool.rs:92-236 | against idle holders of all shares, what others take out and hold is at most what they put in |
| `LiquidityRuns.EmptyPoolGain` | crates/scp-vault/src/pool.rs:96-97 | from a pool without shares the gain is at most the liquidity left in it |
| `LiquidityRuns.EmptyPoolGainIsReached` | crates/scp-vault/src/pool.rs:96-97 | and the next depositor can take exactly that |
| `LiquidityRuns.SmallFirstDepositIsLeftBehind` | crates/scp-vault/src/pool.rs:120-154 | a first deposit below the price of a share leaves sats and no shares |
| `Policy.Verdict` | crates/scp-signer/src/policy.rs:103-132 | a request passes if and only if it is permitted, under the rate limit and, when it is one of the four operations with an amount, under both amount limits |
| `Policy.AllowedByName` | crates/scp-signer/src/policy.rs:112-121 | an allowlist admits an operation if and only if one of its entries stands for that operation |
| `Policy.RetainedExactly` | crates/scp-signer/src/policy.rs:144-146 | pruning keeps every time after the cutoff, as often as it was there, and nothing else |
| `Policy.RecordingForgetsTheOld` | crates/scp-signer/src/policy.rs:135-164 | exactly which times and hours are remembered after recording |
| `Policy.SigningPolicy.Validate` | crates/scp-signer/src/policy.rs:103-132 | the verdict on the pruned memory, with the error of the first check that fails |
| `Policy.SigningPolicy.CheckAmountLimit` | crates/scp-signer/src/policy.rs:190-220 | the per-sign and hourly verdict on an amount |
| `Policy.SigningPolicy.RecordSign` | crates/scp-signer/src/policy.rs:135-167 | the memory after recording and pruning |
| `Signing.Signer.Sign` | crates/scp-signer/src/signer.rs:46-101 | validate, sign, record; nothing is recorded when either of the first two fails |
| `Signing.Signer.WouldAllow` | crates/scp-signer/src/signer.rs:104-106 | the same verdict without signing |
| `Signing.RetainedCounts` | crates/scp-signer/src/policy.rs:144-146 | dropping what is older than one cutoff does not show at a later one |
| `Signing.StepDecidesAlike` | crates/scp-signer/src/signer.rs:46-70 | one request is answered as the full history would, and the memory stays equivalent |
| `Signing.RecordRemembersHours` | crates/scp-signer/src/policy.rs:148-164 | pruning hours never changes the total of the current hour or a later one |
| `Signing.FreshPolicyDecidesAlike` | crates/scp-signer/src/policy.rs:135-167 | over every run pruning never changes an answer |
| `Signing.FirstHourIsForgotten` | crates/scp-signer/src/policy.rs:161-163 | an hour's charge survives pruning if and only if it is not hour zero |
| `Signing.WindowHolds` | crates/scp-signer/src/policy.rs:170-187 | no window exceeds the rate limit though the clock moves between check and record |
| `Signing.HourHolds` | crates/scp-signer/src/policy.rs:190-220 | no hour exceeds its cap though the hour may turn between check and record |
| `Signing.LimitsHoldOverEveryRun` | crates/scp-signer/src/signer.rs:46-101 | of what a fresh policy lets through, every minute-long window, every hour and every operation with an amount is within limits |
| `Signing.NoCheckOverflows` | crates/scp-signer/src/policy.rs:176-212 | with limits that fit together, the u32 count and the u64 hourly sum never overflow in any run |
| `Hex.DecodeEncode` | crates/scp-dlc/src/storage.rs:231-241 | decoding undoes encoding |
| `Hex.EncodeDecode` | crates/scp-dlc/src/storage.rs:231-241 | encoding undoes decoding exactly on lower-case hex text |
| `Hex.DecoderIsLenient` | crates/scp-dlc/src/storage.rs:236-241 | the decoder also takes capitals and a plus sign, and nothing else |
| `DlcStorage.PrefixIsName` | crates/scp-dlc/src/storage.rs:128-136 | a prefix scan meets a key if and only if the text is its whole name |
| `DlcStorage.KeysAreDistinct` | crates/scp-dlc/src/storage.rs:199-216 | equal index keys have equal names and identifiers |
| `DlcStorage.SaveKeepsInv` | crates/scp-dlc/src/storage.rs:38-72 | a save keeps the index equal to the keys of the stored states |
| `DlcStorage.DeleteKeepsInv` | crates/scp-dlc/src/storage.rs:93-119 | so does a delete |
| `DlcStorage.WritesKeepInv` | crates/scp-dlc/src/storage.rs:38-119 | and so does any sequence of both |
| `DlcStorage.SaveStores` | crates/scp-dlc/src/storage.rs:38-72 | a save stores the state and touches no other |
| `DlcStorage.DeleteRemoves` | crates/scp-dlc/src/storage.rs:93-119 | a delete removes the state and touches no other |
| `DlcStorage.LastWriteWins` | crates/scp-dlc/src/storage.rs:38-119 | after any writes a contract is stored exactly when its last write was a save, with the state saved |
| `DlcStorage.Storage.Save` | crates/scp-dlc/src/storage.rs:38-72 | both trees after a save |
| `DlcStorage.Storage.Get` | crates/scp-dlc/src/storage.rs:75-90 | the stored state, or none |
| `DlcStorage.Storage.Delete` | crates/scp-dlc/src/storage.rs:93-119 | both trees after a delete |
| `DlcStorage.Storage.UpdateIndex` | crates/scp-dlc/src/storage.rs:188-218 | the index after removing an old key and adding a new one |
| `DlcStorage.Storage.ListByState` | crates/scp-dlc/src/storage.rs:122-152 | exactly the stored states with that name, once each, for any text |
| `DlcStorage.Storage.CountByState` | crates/scp-dlc/src/storage.rs:176-185 | the number of contracts in that state |
| `DlcStorage.Storage.ListAll` | crates/scp-dlc/src/storage.rs:155-173 | every stored state, once each |
| `DlcStorage.ListingLength` | crates/scp-dlc/src/storage.rs:176-185 | a listing is as long as the number of contracts it lists |
| `DlcLifecycle.SucceedsExactlyWhen` | crates/scp-dlc/src/state_machine.rs:144-358 | for each operation the states and supplied data from which it succeeds, and the state it leads to |
| `DlcLifecycle.RefusesWith` | crates/scp-dlc/src/state_machine.rs:144-344 | which error each refused operation returns |
| `DlcLifecycle.NamesTellStates` | crates/scp-dlc/src/state_machine.rs:98-123 | names tell the states an operation moves on from, the active states and the terminal ones |
| `DlcLifecycle.StepMovesForward` | crates/scp-dlc/src/state_machine.rs:144-358 | a step touches its own contract alone, keeps the trees in agreement and raises the rank, except for failing again |
| `DlcLifecycle.StatesCertifyTheirHistory` | crates/scp-dlc/src/state_machine.rs:144-358 | after any run the operations that succeeded on a contract are exactly those its stored state calls for, and offer, acceptance, signatures, timeout and txid are theirs, field by field |
| `DlcLifecycle.RunsAreBounded` | crates/scp-dlc/src/state_machine.rs:144-358 | a contract moves at most six times and is never forgotten |
| `DlcLifecycle.TerminalStatesStay` | crates/scp-dlc/src/state_machine.rs:112-117 | a terminal contract accepts nothing but being failed |
| `DlcLifecycle.StateMachine.CreateOffer` | crates/scp-dlc/src/state_machine.rs:144-162 | store and answer after creating an offer |
| `DlcLifecycle.StateMachine.AcceptOffer` | crates/scp-dlc/src/state_machine.rs:165-201 | store and answer after accepting |
| `DlcLifecycle.StateMachine.SignContract` | crates/scp-dlc/src/state_machine.rs:204-243 | store and answer after signing |
| `DlcLifecycle.StateMachine.ConfirmFunding` | crates/scp-dlc/src/state_machine.rs:246-280 | store and answer after funding |
| `DlcLifecycle.StateMachine.Settle` | crates/scp-dlc/src/state_machine.rs:283-314 | store and answer after settling |
| `DlcLifecycle.StateMachine.Refund` | crates/scp-dlc/src/state_machine.rs:317-344 | store and answer after refunding |
| `DlcLifecycle.StateMachine.Fail` | crates/scp-dlc/src/state_machine.rs:347-358 | store and answer after failing |
| `DlcLifecycle.StateMachine.GetState` | crates/scp-dlc/src/state_machine.rs:361-365 | the stored state, or that there is none |
| `DlcLifecycle.StateMachine.ListActive` | crates/scp-dlc/src/state_machine.rs:373-377 | exactly the contracts whose funds are locked, once each |
| `Payout.NearestIsFirstMinimum` | crates/scp-dlc/src/payout.rs:88-95 | the scan finds the earliest point at minimum distance |
| `Payout.DiscretePaysNearest` | crates/scp-dlc/src/payout.rs:88-95 | a discrete curve pays what the earliest of its nearest points says |
| `Payout.ValidBinarySplits` | crates/scp-dlc/src/payout.rs:57-131 | a validated binary curve pays out the whole collateral at every outcome, one amount to each side |
| `Payout.AccepterGetsTheRest` | crates/scp-dlc/src/payout.rs:114-119 | the accepter gets what the offerer leaves of the total |
| `Payout.ValidatesExactlyWhen` | crates/scp-dlc/src/payout.rs:122-153 | what validation checks, by what the curve pays |
| `Payout.LinearSplitsExactlyWhen` | crates/scp-dlc/src/payout.rs:70-119 | a linear curve does so exactly when its own total is within the argument |
| `Payout.LinearBounded` | crates/scp-dlc/src/payout.rs:70-86 | a linear curve pays at most its total, all of it from one end on and nothing up to the other |
| `Payout.DiscreteSplitsExactlyWhen` | crates/scp-dlc/src/payout.rs:88-119 | a discrete curve does so exactly when every point that can decide an outcome is within the total |
| `Payout.ValidationDoesNotBoundDiscrete` | crates/scp-dlc/src/payout.rs:141-145 | a validated discrete curve that pays more than there is |
| `Payout.LinearInterpolates` | crates/scp-dlc/src/payout.rs:80-85 | between its ends a linear curve pays the floored proportion |
| `Payout.LinearIsMonotone` | crates/scp-dlc/src/payout.rs:70-86 | a linear curve is monotone with exact end points |
| `Payout.PolynomialBounded` | crates/scp-dlc/src/payout.rs:97-109 | a polynomial payout stays within its bounds |
| `Payout.PolynomialPays` | crates/scp-dlc/src/payout.rs:97-109 | a polynomial payout is the whole part of the value when within bounds, else the nearer bound |
| `Payout.PolynomialNests` | crates/scp-dlc/src/payout.rs:102-106 | the sum of terms equals the nested form |
| `Payout.EvaluatePolynomial` | crates/scp-dlc/src/payout.rs:102-106 | the loop computes the polynomial |
| `Payout.BuiltCurvesSplit` | crates/scp-dlc/src/payout.rs:157-192 | built curves pay out their total at every outcome |
| `Bootstrapping.LiquidityBootstrapping.SubmitProof` | crates/scp-economics/src/lbo.rs:93-138 | the offering after a submission, with every refusal |
| `Bootstrapping.LiquidityBootstrapping.MarkClaimed` | crates/scp-economics/src/lbo.rs:182-193 | the loop marks exactly the unclaimed proofs |
| `Bootstrapping.LiquidityBootstrapping.Claim` | crates/scp-economics/src/lbo.rs:141-208 | offering and token after a claim, with every refusal |
| `Bootstrapping.SubmitKeepsInv` | crates/scp-economics/src/lbo.rs:93-138 | when a submission is accepted, that it keeps the books and the bounds, and that a refused one changes nothing |
| `Bootstrapping.SubmitStores` | crates/scp-economics/src/lbo.rs:118-129 | an accepted proof is stored and counted once, and no other participant is touched |
| `Bootstrapping.SubmitRefusesWith` | crates/scp-economics/src/lbo.rs:94-115 | which error a refused submission returns |
| `Bootstrapping.ClaimKeepsInv` | crates/scp-economics/src/lbo.rs:141-208 | a claim keeps the books within the allocation; a refused one changes nothing |
| `Bootstrapping.ClaimPaysOnce` | crates/scp-economics/src/lbo.rs:141-208 | when a claim succeeds, what it mints to whom, and that claiming again is refused |
| `Bootstrapping.RaisedIsAccepted` | crates/scp-economics/src/lbo.rs:118-129 | over any run the amount raised grows by exactly the accepted submissions |
| `Bootstrapping.SupplyIsAccountedFor` | crates/scp-economics/src/lbo.rs:163-201 | over any run the token supply grows by what the offering distributed and others minted |
| `Bootstrapping.OfferingBalances` | crates/scp-economics/src/lbo.rs:93-237 | over every run: raised equals the stored and the accepted proofs, bounds and allocation hold, and exactly when tokens are the rate times the claimed sats |

## Left out

- JSON files, the embedded database, flushing and crash windows: storage is two in-memory trees, and a stored state reads back as written.
- DlcStorage.Storage.ListByState: does not state the order of the results, which the database's key order would fix.
- Keystores, Schnorr and ECDSA verification: the keystore's answer and the signature verdict are parameters, so nothing is said about forging.
- Lock-level interleavings inside one operation: calls are serialised.
- Agent sentiment, spreads and circuit-breaker signals: heuristics in floating point; the breaker itself is modelled as a switch.
- Signal handler, vault wrapper, contract manager, delta-neutral strategy, positions, request records, oracle quorum: plumbing, counters and placeholders.
- Trading-fee calculation, utilization ratio, the ratio-based binary curve builder and the penalty rate: defined by floating point.
- Payout.EvaluatePolynomial: computes over the reals, so rounding of the f64 terms is not modelled.
- Payout.LinearInterpolates: floors the exact rational, where the code rounds an f64 ratio first.
- Payout outcome differences and the sum checked for binary curves: i64 and u64 overflow there is not modelled.
- Bootstrapping.LiquidityBootstrapping.SubmitProof: does not model u64 overflow of a participant's total, which proofs beyond all existing satoshis would need.
- Lock-up and block-height arithmetic on timestamps: not checked for overflow.
- Error texts: shortened, since the code builds them from values; the error variants are the code's.
