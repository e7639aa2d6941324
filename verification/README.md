# A verified model of the ledger's epoch machinery

This project models the epoch machinery of a Cardano node in Dafny and proves what it keeps:
the epoch accumulator as a state machine over selected blocks, the reward arithmetic and stake
snapshots behind its boundaries, the certificate and governance state, leadership freezing, the
canonical codecs of the bootstrap records, and the value checks beside them.

`dafny verify dfyconfig.toml` checks everything. The modules, from the bottom up:

- `LedgerTypes`, `Sums`, `Rationals`: 64-bit coins with the source's checked, saturating and
  wrapping operations; sums over maps; exact fractions and floors.
- `Snapshots`, `EpochRewards`: mark construction, rotation, retirement and the simple reward split
  of `epoch.rs`.
- `RewardFormula`, `RewardUpdates`, `RewardLaws`, `EpochBoundary`, `BoundaryLaws`: the Cardano reward formula of
  `rules.rs`, the same formula over the integers, and the whole boundary transition around it.
- `Certificates`, `CertificateLaws`, `GovernanceCerts`, `Deposits`, `CertHistory`: the certificate state machines,
  and what they hold and accept read off the history of certificates alone.
- `Votes`, `BlockScan`, `BlockEffects`: what one block's transactions do, gated by phase-2 validity.
- `Leadership`, `Accumulator`, `CrossingLaws`, `AccumulatorRuns`, `AccumulatorLaws`, `RunLaws`, `SnapshotRuns`,
  `ProposalRuns`, `AdaConservation`: boundaries, blocks and whole runs.
- `Cbor`, `CanonicalMaps`, `SeedAuthority`, `PoolCodecs`, `AccumulatorCodecs`, `Manifest`: the codecs.
- `ConwayBalance`, `Byron`, `Commitment`, `Demux`: the balance check, Byron blocks, the incremental UTxO
  commitment and the mux demuxer.

How the model is built:

- Loops of the source are methods with `while` or `for` loops, each proved equal to a specification
  function; state that the source mutates in place is a class (`CertLedger`, `VoteStore`,
  `UtxoSetCommitment`). Walking an ordered map is modelled as walking it in an arbitrary order, except in the
  codecs, where an ordered map is its strictly ascending list of entries. `Accumulator.ApplySelectedBlock` is
  composed of those methods: `CrossEpochBoundary` at each boundary, then `ApplyWithinEpoch`, which calls the index
  decoder, the fee walk, the certificate walk and the governance walk.
- Blake2b, the map from UTxO entries to group elements, and signature verdicts are parameters. So are
  ratification (what governance decides at a boundary) and, inside the accumulator, the reward calculation:
  most of the accumulator's theorems hold for every such calculation. `AdaConservation.RunConservesAda` is about
  the native one, which `EpochBoundary.ComputeRewardUpdate` computes exactly.
- Integers are unbounded; every 64-bit check, clamp or wrap of the source is written out. Plain additions are
  modelled as wrapping, which is what an optimised build does. A build with overflow checks stops instead, at the
  leader's `cost + share` (rules.rs:1245), at the `sum()` of the block counts (rules.rs:883) and at the running
  total `_sum_f` (rules.rs:1167). That total is never read and is not part of this model.

Facts about the code that its comments or documentation do not say:

- `AccumulatorLaws.BlockCertsSkipDiscarded`: the certificate walk decodes the invalid-transaction set with
  the lenient reader. It is safe only because the strict reader has already accepted the field.
- `CertificateLaws.StagedAndRetiringOverlap`: the comment above `apply_pool_reap` takes staged and retiring
  pools to be disjoint. They need not be: `StagedAndRetiringIff` says exactly when they overlap, and
  `AdoptionCommutesWithReap` that it does not matter.
- `ConwayBalance.RemovedTagCanBeMasked`: the sweep does not report a removed tag ahead of everything; an
  unresolved refund earlier in the list returns first. `RemovedTagReportedIff` gives the exact condition.
- `RewardUpdates.PotIsSafeIffSolvent`: the pot can be overdrawn exactly when the excess of active stake over
  circulation earns a whole lovelace of it, `pot * (active - circulation) >= circulation`. Performance is not the
  cause: two pools that make just their expected blocks suffice. A smaller excess does no harm.
- `Byron.TxConserves`, `Byron.TooManyOutputsLoseCoin`: output indices are truncated to 16 bits, so an accepted
  transaction loses coin from its 65537th output on.
- `Leadership.FrozenStakesWithinTotal`, `AccumulatorLaws.FreezeIsExactOnEveryRun`: the denominator saturates at 64
  bits. The frozen stakes add up to it if and only if what the delegators hold fits in 64 bits or all of them chose
  one pool; otherwise they exceed it (`CeilingCanBeExceeded`).
- `BlockEffects.CertificatesAreSafeIff`: the certificate walk silently skips a transaction whose body map has
  indefinite length, while the fee and governance walks read it. Blocks are safe from losing a certificate if and
  only if every kept body is a definite-length map; `RegistrationIsLost` shows a registration that disappears.
- `AccumulatorRuns.ParametersReadBackIff`: the boundary computes the enacted protocol parameters, but the accumulator
  never takes them over. It ends with the boundary's parameters if and only if none were enacted or they were those
  already held; `EnactedParametersAreLost` is an accepted boundary after which they differ.
- `CertHistory.ListAcceptedIff`: a DRep update needs no earlier registration; it registers the DRep.

## Model

| member | source | states |
|---|---|---|
| `AccumulatorRuns.BufferAccounting` | crates/ade_ledger/src/epoch_accumulator.rs:576-634 | After any accepted list of blocks over any number of epochs, the current buffer is the tally of this epoch's issuers and fees, the previous one the last epoch's, and the seed authority is pending only in the seed epoch |
| `AccumulatorRuns.RunKeepsBuffers` | crates/ade_ledger/src/epoch_accumulator.rs:602-633 | The same at every intermediate point, between any two boundaries, empty epochs included |
| `AccumulatorRuns.TallyCountsIssued` | crates/ade_ledger/src/epoch_accumulator.rs:1138-1147 | A tally counts exactly the blocks each pool issued in the epoch |
| `AccumulatorRuns.BlocksAreRun` | crates/ade_ledger/src/epoch_accumulator.rs:605-628 | A run of blocks is a run of single boundaries and block bodies that applies exactly those blocks |
| `AccumulatorRuns.RewardIsFedTheEpochBefore` | crates/ade_ledger/src/epoch_accumulator.rs:797-819 | The boundary into epoch e+1 is fed the blocks and fees of epoch e-1; at the seed boundary the typed authority decides |
| `AccumulatorRuns.FeesAreConserved` | crates/ade_ledger/src/epoch_accumulator.rs:761-802 | Seed pot plus all block fees equals what the boundaries were fed or an imported record accounts for, plus both buffers |
| `AccumulatorRuns.DrawnIsTaken` | crates/ade_ledger/src/epoch_accumulator.rs:761-819 | What a boundary's calculation is fed is what the buffers lose |
| `AccumulatorRuns.ParametersReadBackIff` | crates/ade_ledger/src/epoch_accumulator.rs:857-877 | A crossing leaves the accumulator with the parameters its boundary computed if and only if governance enacted none or those already held |
| `AccumulatorRuns.EnactedParametersAreLost` | crates/ade_ledger/src/rules.rs:1594-1600 | For any held and enacted parameters an accepted boundary computes the enacted ones while the accumulator goes on with the held ones |
| `AccumulatorRuns.EnactedParametersAreNotReadBack` | crates/ade_ledger/src/epoch_accumulator.rs:857-877 | Whatever governance enacts, every run keeps the parameters of the seed |
| `AccumulatorRuns.SeedAuthorityIsOneShot` | crates/ade_ledger/src/epoch_accumulator.rs:722-733 | A pending authority is consumed at the first boundary, only if that is its target plus one, and never reappears |
| `AccumulatorRuns.SeededRunConservesFees` | crates/ade_ledger/src/epoch_accumulator.rs:241-295 | From a bootstrapped ledger, its one fee pot plus all block fees equals what the boundaries drew plus both buffers, whatever seed authority came with it |
| `AccumulatorRuns.SeedBoundaryCanBeCrossed` | crates/ade_ledger/src/epoch_accumulator.rs:777-800 | A seed with a native authority crosses its boundary, keeps the fee pot less the snapshot's fees, and applies a block: the premises of the run theorems can be met |
| `AccumulatorRuns.CrossEffect` | crates/ade_ledger/src/epoch_accumulator.rs:671-877 | One crossing empties the current buffers, rotates them less the seed's draw, and leaves nothing pending |
| `AccumulatorRuns.WithinEffect` | crates/ade_ledger/src/epoch_accumulator.rs:1090-1165 | One block adds one to its issuer and its own fees, and touches neither the previous buffers nor the pending authority |
| `Accumulator.ApplySelectedBlock` | crates/ade_ledger/src/epoch_accumulator.rs:521-634 | Observe and effect paths succeed alike with one accumulator; effects are one per crossed boundary in ascending order; the batch-invariant error is unreachable |
| `Accumulator.CrossEpochBoundary` | crates/ade_ledger/src/epoch_accumulator.rs:671-927 | The staged steps of a crossing compute its specification, error by error |
| `CrossingLaws.CrossInstallsPlan` | crates/ade_ledger/src/epoch_accumulator.rs:862-869 | An accepted crossing goes on with exactly the proposals governance decided on for the staged state, returns exactly the deposits it decided on, and changes nothing else of the governance state |
| `CrossingLaws.CrossingIsFed` | crates/ade_ledger/src/epoch_accumulator.rs:777-835 | The reward calculation gets the held reserves, supply and parameters, the fed blocks and fees, the go snapshot and the slot count; the boundary gets its answer |
| `CrossingLaws.CrossRotates` | crates/ade_ledger/src/epoch.rs:203-212 | Over a crossing the mark becomes the set and the set becomes go |
| `CrossingLaws.MarkAfterCrossing` | crates/ade_ledger/src/epoch_accumulator.rs:1022-1048 | The new mark holds exactly the delegated credentials with stake: base stake, balance, imported reward and reward, clamped once |
| `CrossingLaws.AccountAfterCrossing` | crates/ade_ledger/src/epoch_accumulator.rs:671-877 | Every account's balance across a crossing: what an imported record adds, its reward, a deposit for each pool reaped for it, and what governance returns |
| `CrossingLaws.PotsAfterCrossing` | crates/ade_ledger/src/epoch_accumulator.rs:877-895 | Reserves and treasury are the boundary's, less and plus an imported record's |
| `CrossingLaws.FrozenAfterCrossing` | crates/ade_ledger/src/epoch_accumulator.rs:897-927 | A crossing freezes, for the epoch after, every delegated active pool with its stake in the new mark and its active VRF key, before the reap |
| `CrossingLaws.AuthorityIsChecked` | crates/ade_ledger/src/epoch_accumulator.rs:722-760 | A pending authority is refused first for a wrong boundary, then for a commitment that is not its own |
| `CrossingLaws.DecodedAuthorityIsCommitted` | crates/ade_ledger/src/bootstrap_reward_update.rs:304-505 | An authority that came through the decoder is never refused for its commitment |
| `CrossingLaws.CrossAcceptedIff` | crates/ade_ledger/src/epoch_accumulator.rs:671-927 | Exactly when a prepared crossing is accepted, in terms of what it was given |
| `CrossingLaws.EmptyPotIsRefused` | crates/ade_ledger/src/epoch_accumulator.rs:836-861 | A natively seeded boundary with blocks and no pot, and no other, is refused as a zero pot |
| `CrossingLaws.SeedIsBootstrap` | crates/ade_ledger/src/epoch_accumulator.rs:241-295 | Exactly when a bootstrapped ledger seeds the accumulator, and which counts and fees go into which buffer |
| `CrossingLaws.SeedBlocksArePaid` | crates/ade_ledger/src/epoch_accumulator.rs:241-295 | The first boundary is fed the imported counts with the authority's fees; the seed epoch's own counts wait for the next |
| `Accumulator.ApplyWithinEpoch` | crates/ade_ledger/src/epoch_accumulator.rs:1090-1165 | The decoder and the fee, certificate and governance walks, called in turn, compute the block body and report the first failure in the source's order |
| `Accumulator.CrossAllIsOnePerBoundary` | crates/ade_ledger/src/epoch_accumulator.rs:602-628 | Crossing to an epoch yields exactly one freeze per boundary e, for leadership epoch e+1 |
| `Accumulator.ValidateEffects` | crates/ade_ledger/src/epoch_accumulator.rs:483-511 | The batch check accepts exactly labelled, strictly ascending batches |
| `Accumulator.CollectedEffectsAreValid` | crates/ade_ledger/src/epoch_accumulator.rs:483-511 | Whatever the loop collects passes the batch check |
| `AccumulatorLaws.RunKeepsSound` | crates/ade_ledger/src/epoch_accumulator.rs:576-634 | Every reachable accumulator has a coherent certificate state and no dangling vote delegation |
| `AccumulatorLaws.FreezeIsExactOnEveryRun` | crates/ade_ledger/src/epoch_accumulator.rs:897-927 | At every boundary of every run from a sound seed the frozen stakes add up to the carried denominator if and only if what the delegators hold fits in 64 bits or all of them chose one pool |
| `AccumulatorLaws.CrossKeepsSnapshots` | crates/ade_ledger/src/epoch_accumulator.rs:832-877 | A boundary keeps mark, set and go well formed if and only if it clamps no pool's stake |
| `AccumulatorLaws.RunKeepsSnapshots` | crates/ade_ledger/src/epoch_accumulator.rs:832-877 | The snapshots are well formed at every point of a run, so that every boundary pays a go snapshot of per-pool sums, if and only if no boundary of the run clamps a pool's stake |
| `SnapshotRuns.RunHoldsLatest` | crates/ade_ledger/src/epoch.rs:203-212 | At every point of a run the three snapshots are the latest three of the seed's three and one mark a boundary |
| `SnapshotRuns.ThirdMarkIsPaid` | crates/ade_ledger/src/epoch_accumulator.rs:797-819 | Every boundary pays the mark built three boundaries before it; the first three pay the seed's go, set and mark |
| `RunLaws.RunTells` | crates/ade_ledger/src/epoch_accumulator.rs:576-634 | After any run every account's deposit and pool, every pool's activity and retirement, every DRep's expiry and every committee hot key are what the history of certificates and boundaries says |
| `RunLaws.RunReplaysStake` | crates/ade_ledger/src/delegation.rs:207-237 | An account's stake is with the pool of the last certificate that delegates it, unless it was unregistered or that pool reaped since |
| `RunLaws.AccountAfterBlock` | crates/ade_ledger/src/epoch_accumulator.rs:1090-1165 | A block empties the accounts its kept transactions withdraw from or its certificates open or close, leaves the others and both pots alone, and adds its kept donations |
| `RunLaws.RunReplaysVotes` | crates/ade_ledger/src/epoch_accumulator.rs:576-634 | Each account's vote delegation after any run is what the certificates the walk saw make of the earlier one, whatever boundaries, rewards, proposals and votes lie between |
| `RunLaws.RunBringsNoVoteBack` | crates/ade_ledger/src/gov_cert.rs:64-148 | Over whole runs: once an account or its DRep unregisters, a delegation to that DRep is in force only because a later certificate asked for it |
| `RunLaws.RunLeavesUndelegated` | crates/ade_ledger/src/epoch_accumulator.rs:576-634 | Whoever has no stake delegation has none after any run whose certificates do not delegate them |
| `RunLaws.ReapedStayUndelegated` | crates/ade_ledger/src/delegation.rs:315-343 | Delegators of a pool reaped at a boundary stay undelegated over any later run, re-registrations of the pool included, until a certificate delegates them |
| `ProposalRuns.RunKeepsTidy` | crates/ade_ledger/src/epoch_accumulator.rs:1661-1994 | Every run whose proposing transactions have fresh ids keeps distinct proposal ids and one entry a voter, given that governance only removes proposals |
| `ProposalRuns.PruningKeepsTidy` | crates/ade_ledger/src/governance.rs:999-1001 | Keeping some of the proposals, in order, keeps ids distinct and one entry a voter |
| `ProposalRuns.RemovedStaysRemoved` | crates/ade_ledger/src/rules.rs:1477-1498 | A proposal the plan of a boundary leaves out is gone and stays gone through every later run with fresh ids |
| `ProposalRuns.SubmissionsAreTracked` | crates/ade_ledger/src/epoch_accumulator.rs:1753-1790 | Submissions are tracked after the others, numbered under their transaction, with deposit, epoch and an expiry one lifetime later; of the others only votes change |
| `ProposalRuns.VotesFollowSubmissions` | crates/ade_ledger/src/epoch_accumulator.rs:1753-1809 | A transaction's votes count on its own submissions too; each record is the voter's last vote, or what it was before |
| `ProposalRuns.GovernanceRefusedIff` | crates/ade_ledger/src/epoch_accumulator.rs:1753-1790 | Submissions are refused exactly without an imported lifetime or when the expiry does not fit |
| `ProposalRuns.RunKeepsDated` | crates/ade_ledger/src/epoch_accumulator.rs:1661-1809 | Every reachable proposal was made by the current epoch and expires one lifetime after it was made |
| `RunLaws.BlockCertsAreFlat` | crates/ade_ledger/src/rules.rs:1716-1864 | Walking a block transaction by transaction is walking the one list of the certificates it shows |
| `AdaConservation.CrossConservesAda` | crates/ade_ledger/src/epoch_accumulator.rs:671-895 | Crossing conserves the ada of pots, both fee buffers and accounts, up to returned deposits and an imported record's own imbalance |
| `AdaConservation.WithinAda` | crates/ade_ledger/src/epoch_accumulator.rs:1090-1165 | A block brings in its fees and donations and takes out exactly what its withdrawals and cleared accounts held |
| `AdaConservation.RunConservesAda` | crates/ade_ledger/src/epoch_accumulator.rs:576-634 | Over every feasible run of the native ledger, final holdings are the seed's plus fees, donations, returned deposits and imbalance, less what left the accounts |
| `AdaConservation.NativeWorldIsNative` | crates/ade_ledger/src/rules.rs:874-1313 | The native calculation meets the soundness premise of the crossing |
| `AdaConservation.PayingRunExists` | crates/ade_ledger/src/epoch_accumulator.rs:671-877 | Those premises can be met by a run that pays: its pool's leader is credited with the whole pot |
| `AccumulatorLaws.BlockCertsSkipDiscarded` | crates/ade_ledger/src/rules.rs:1716-1791 | A block's certificates end as if its discarded transactions were not in it, although the walk reads the invalid set leniently |
| `BlockEffects.NothingLost` | crates/ade_ledger/src/rules.rs:1753-1764 | Where no kept body of indefinite length carries certificates, the walk ends as if every body were a definite-length map |
| `BlockEffects.RegistrationIsLost` | crates/ade_ledger/src/rules.rs:1753-1764 | A registration in a kept body of indefinite length leaves everybody unregistered; the definite reading registers the account |
| `BlockEffects.CertificatesAreSafeIff` | crates/ade_ledger/src/rules.rs:1753-1764 | No block of a given shape loses a certificate, from any state, if and only if every kept body is a definite-length map |
| `BlockEffects.IndefiniteBodiesPayFees` | crates/ade_ledger/src/epoch_accumulator.rs:1366-1396 | The fee walk gives what it gives on the definite reading |
| `Leadership.FreezeBoundary` | crates/ade_ledger/src/frozen_leadership.rs:168-199 | The insertion loop freezes exactly the delegated and registered pools with their mark stakes |
| `Leadership.FrozenObjectRoundTrips` | crates/ade_ledger/src/frozen_leadership.rs:268-356 | What a boundary freezes is what its encoding decodes to |
| `Leadership.RecordsAreDistributions` | crates/ade_ledger/src/frozen_leadership.rs:268-356 | Every written object is that of exactly one distribution |
| `Leadership.ClampedStakesSum` | crates/ade_ledger/src/epoch_accumulator.rs:1022-1048 | Pool stakes clamped one by one fit together in 64 bits if and only if the credentials' stakes do or there is one pool, and then their sum is the credentials' total clamped once |
| `Leadership.FrozenStakesWithinTotal` | crates/ade_ledger/src/frozen_leadership.rs:168-199 | Frozen stakes never exceed the stakes of the credentials behind registered pools; they stay within the carried 64-bit total if and only if those stakes fit in 64 bits or back a single pool |
| `Leadership.CeilingCanBeExceeded` | crates/ade_ledger/src/epoch.rs:67-71 | Two full-range credentials make the frozen stakes twice the clamped total |
| `Leadership.FrozenStakesAreTotal` | crates/ade_ledger/src/frozen_leadership.rs:168-199 | They equal the carried total if and only if that holds and either no stake-carrying delegation names an unregistered pool or the backed stake reaches the 64-bit ceiling |
| `Snapshots.BuildMark` | crates/ade_ledger/src/epoch_accumulator.rs:1022-1048 | The mark holds each delegated credential of positive stake and each pool's clamped sum, in whatever order the map is walked |
| `Snapshots.MarkIsWellFormed` | crates/ade_ledger/src/epoch_accumulator.rs:1022-1048 | A mark has per-pool sums and no zero entries if and only if no pool's stake was clamped |
| `Snapshots.RemovePoolsKeepsWellFormed` | crates/ade_ledger/src/epoch.rs:441-465 | Retiring pools removes exactly their stakes, parameters and delegations, and keeps stakes per-pool sums and the snapshot well formed |
| `Snapshots.PoolTotalIsCredentialTotal` | crates/ade_ledger/src/epoch.rs:67-71 | Pool side and credential side of a well-formed snapshot have one total |
| `EpochRewards.DistributeToMembers` | crates/ade_ledger/src/epoch.rs:295-318 | The member loop pays each delegator the floor of its share, in any order |
| `EpochRewards.ComputePoolReward` | crates/ade_ledger/src/epoch.rs:254-325 | The split into operator and members is the specified one |
| `EpochRewards.PoolPaysWhatItIsOwed` | crates/ade_ledger/src/epoch.rs:254-325 | Operator plus members get exactly the floor of the pool's share |
| `EpochRewards.MembersAndDust` | crates/ade_ledger/src/epoch.rs:295-325 | The rounding dust given to the operator is less than one lovelace a delegator |
| `EpochRewards.ComputeRewards` | crates/ade_ledger/src/epoch.rs:331-372 | Every staked pool with parameters is rewarded by its own share, and no other |
| `EpochRewards.RewardsWithinTotal` | crates/ade_ledger/src/epoch.rs:331-372 | All rewards together are at most the total reward |
| `EpochRewards.SumDistributed` | crates/ade_ledger/src/epoch.rs:559-569 | The saturating total is the sum of all operator and member rewards where it fits |
| `EpochRewards.ApplyEpochBoundary` | crates/ade_ledger/src/epoch.rs:480-535 | The snapshots rotate and lose the due pools, the old set is paid pool by pool, and reserves before equal reserves after plus what was distributed, with no clamp taken |
| `RewardFormula.EtaIsProportion` | crates/ade_ledger/src/rules.rs:874-912 | The expansion factor lies between zero and one |
| `RewardFormula.MaxPoolBound` | crates/ade_ledger/src/rules.rs:1058-1118 | A pool's cap is at most the pot's share for its stake, pledge influence included |
| `RewardFormula.PoolTotalBound` | crates/ade_ledger/src/rules.rs:1040-1147 | With uncapped performance a pool earns at most the pot's share for its blocks, scaled by active stake over circulation, for every active stake |
| `RewardFormula.SharesWithinReward` | crates/ade_ledger/src/rules.rs:1222-1305 | Leader and member rewards together never exceed what the pool earned |
| `RewardLaws.MaxPoolIsExact` | crates/ade_ledger/src/rules.rs:1058-1118 | The cap is the floor of one integer fraction in stake, pledge, pledge influence and desired pools, or nothing where the pledge term makes it negative |
| `RewardLaws.MaxPoolWithoutTarget` | crates/ade_ledger/src/rules.rs:1106-1118 | Without a desired number of pools it is ten thirteenths of the stake's share, rounded down twice |
| `RewardLaws.PoolTotalIsExact` | crates/ade_ledger/src/rules.rs:1139-1147 | A pool earns its cap times blocks over expected blocks, rounded down and cut to 64 bits |
| `RewardLaws.ExpansionIsExact` | crates/ade_ledger/src/rules.rs:874-927 | The reserves release the floor of their part, in full when decentralised production meets its expectation and in proportion below it |
| `RewardLaws.TreasuryShareIsExact` | crates/ade_ledger/src/rules.rs:929-949 | The treasury takes the floor of its part of expansion and fees, and the pot is the rest |
| `RewardLaws.PaidIff` | crates/ade_ledger/src/rules.rs:997-1147 | Exactly which pools are paid, and which stop the calculation |
| `RewardLaws.PayoutIsExact` | crates/ade_ledger/src/rules.rs:1222-1305 | Each non-owner gets the floor of its fraction of what cost and margin leave, the leader the cost and the floor of margin and owners' fraction, and less than the members plus one lovelace is left over |
| `RewardLaws.CreditIsExact` | crates/ade_ledger/src/rules.rs:1185-1305 | An account is credited the leader rewards of the pools that pay to it and its member reward from its own pool, clamped once |
| `RewardUpdates.ComputePoolPayout` | crates/ade_ledger/src/rules.rs:997-1312 | One pool's payout is the specified one, through all the early exits |
| `RewardUpdates.PayoutBound` | crates/ade_ledger/src/rules.rs:997-1312 | A pool hands out at most the pot's share for its blocks, scaled by active stake over circulation |
| `RewardUpdates.PaidAgainstCirculation` | crates/ade_ledger/src/rules.rs:996-1313 | All payouts together relate to the pot at most as active stake does to circulation, for every view |
| `RewardUpdates.PaidWithinPot` | crates/ade_ledger/src/rules.rs:996-1313 | All payouts together stay within the pot whenever the excess of active stake over circulation earns less than one lovelace |
| `RewardUpdates.CreditMembers` | crates/ade_ledger/src/rules.rs:1274-1303 | The member loop adds every positive reward to its account, in any order, with saturation |
| `RewardUpdates.AllocateRewards` | crates/ade_ledger/src/rules.rs:985-1313 | For every view the loop stops exactly at an earning pool without frozen parameters; otherwise each account gets the clamped sum of its credits, in any order |
| `RewardUpdates.AllocationWithinPot` | crates/ade_ledger/src/rules.rs:985-1313 | On feasible views the credits are exactly the payouts, account by account and in total, and at most the pot |
| `RewardUpdates.PotIsSafeIffSolvent` | crates/ade_ledger/src/rules.rs:963-1054 | For every pot, circulation and active stake: no view overdraws the pot if and only if pot * (active - circulation) < circulation |
| `RewardUpdates.OverdrawnWhenInsolvent` | crates/ade_ledger/src/rules.rs:963-1054 | Above that, two pools that perform exactly as expected draw more than the pot |
| `EpochBoundary.ComputeRewardUpdate` | crates/ade_ledger/src/rules.rs:874-1313 | The calculation yields exactly the specified expansion, treasury share, pot and credits, or stops |
| `EpochBoundary.NativeUpdateIsSound` | crates/ade_ledger/src/rules.rs:874-1313 | On feasible inputs it draws what it hands out and never more than there is |
| `EpochBoundary.WithinCirculationIsSolvent` | crates/ade_ledger/src/rules.rs:963-984 | Active stake within circulation keeps every pot solvent |
| `EpochBoundary.CreditEach` | crates/ade_ledger/src/rules.rs:1322-1343 | Crediting one by one with saturation, in any order, is crediting each account its sum |
| `EpochBoundary.DeliveryConserves` | crates/ade_ledger/src/rules.rs:1316-1343 | Registered accounts and the treasury together receive exactly what is handed out |
| `EpochBoundary.ReturnDeposits` | crates/ade_ledger/src/rules.rs:1469-1492 | Governance returns go to accounts and treasury as listed |
| `EpochBoundary.ReturnsConserve` | crates/ade_ledger/src/rules.rs:1469-1492 | Nothing of the returned deposits is lost |
| `EpochBoundary.ApplyBoundary` | crates/ade_ledger/src/rules.rs:1316-1602 | The boundary's loops compute its specification |
| `BoundaryLaws.BoundaryRotates` | crates/ade_ledger/src/epoch.rs:203-212 | The mark becomes the set, the set becomes go, and the new mark comes in |
| `BoundaryLaws.AccountAfterBoundary` | crates/ade_ledger/src/rules.rs:1313-1500 | Every account's balance after the boundary over the integers: its reward and one deposit for each pool reaped to it if it is registered, and what governance returns |
| `BoundaryLaws.MarkAfterBoundary` | crates/ade_ledger/src/epoch_accumulator.rs:1022-1048 | The mark holds exactly the delegated credentials with stake, at base stake plus post-reward balance |
| `BoundaryLaws.ParamsFrozenAtBoundary` | crates/ade_ledger/src/epoch_accumulator.rs:1057-1087 | The mark freezes every active pool's parameters as they stand before the reap, with the owners that delegate to it |
| `BoundaryLaws.HeadersInUse` | crates/ade_ledger/src/rules.rs:1431-1445 | The four reward-account headers in use denote stake keys and stake scripts |
| `EpochBoundary.BoundaryConservesAda` | crates/ade_ledger/src/rules.rs:801-1602 | A sound update makes the boundary accept and conserve ada, up to the deposits that flow back |
| `EpochBoundary.RunBoundary` | crates/ade_ledger/src/rules.rs:801-1602 | Native calculation and boundary: when they stop, what they compute, and that they conserve ada on feasible inputs |
| `Certificates.CertLedger.ApplyPoolReap` | crates/ade_ledger/src/delegation.rs:315-343 | The in-place reap adopts staged registrations and removes exactly the pools due at that epoch |
| `Certificates.CertLedger.ApplyBootstrapRewardDeltas` | crates/ade_ledger/src/delegation.rs:351-363 | Deltas are added account by account, or refused exactly when one overflows |
| `CertificateLaws.RunKeepsCoherent` | crates/ade_ledger/src/delegation.rs:124-363 | Every run of certificates, reaps, deltas and withdrawals keeps delegators registered, accounts present and delegations, retirements and staged updates on active pools |
| `CertificateLaws.ConwayCertsKeepCoherent` | crates/ade_ledger/src/delegation.rs:510-592 | So does every Conway certificate list |
| `CertificateLaws.ReapedDelegatorsStayUndelegated` | crates/ade_ledger/src/delegation.rs:315-343 | Delegators of a reaped pool stay undelegated until a delegation certificate names them |
| `CertificateLaws.ActivePoolUnchanged` | crates/ade_ledger/src/delegation.rs:243-300 | Before a reap an active pool keeps its parameters; staged and retiring entries are those of the last certificates |
| `CertificateLaws.ReapTakesLastStaged` | crates/ade_ledger/src/delegation.rs:243-343 | At the reap it takes its last staged registration unless its surviving retirement is due |
| `CertificateLaws.AdoptionCommutesWithReap` | crates/ade_ledger/src/delegation.rs:302-343 | Adopting before reaping equals reaping before adopting, on every state |
| `CertificateLaws.PoolEntriesAfter` | crates/ade_ledger/src/delegation.rs:243-300 | After any accepted list, for every pool active at the start or not: whether it is active, its staged entry and its retirement |
| `CertificateLaws.StagedAndRetiringIff` | crates/ade_ledger/src/delegation.rs:243-314 | Exactly when a list leaves a pool both staged and retiring |
| `CertificateLaws.StagedAndRetiringOverlap` | crates/ade_ledger/src/delegation.rs:302-314 | Register, re-register, retire puts one pool in both maps |
| `CertHistory.ListTells` | crates/ade_ledger/src/delegation.rs:510-592 | After any accepted list, deposits, delegations, activity, retirements, DRep expiries and hot keys are those the certificates alone tell |
| `CertHistory.ReapTells` | crates/ade_ledger/src/delegation.rs:315-343 | The reap into an epoch ends exactly the pools retiring then, and the delegations to them |
| `CertHistory.ListAcceptedIff` | crates/ade_ledger/src/rules.rs:1831-1864 | A list is accepted if and only if each certificate is admissible after those before it, by the history alone |
| `GovernanceCerts.RunKeepsNoDanglingVotes` | crates/ade_ledger/src/gov_cert.rs:64-148 | Every run keeps vote delegations on registered DReps |
| `GovernanceCerts.VotesComeFromCertificates` | crates/ade_ledger/src/gov_cert.rs:64-148 | A delegation in force was there before or was made by a certificate of the run |
| `GovernanceCerts.NoVoteReturnsToDRep` | crates/ade_ledger/src/gov_cert.rs:64-148 | After a DRep unregisters, no old delegation returns on re-registration |
| `GovernanceCerts.NoVoteReturnsToAccount` | crates/ade_ledger/src/gov_cert.rs:64-148 | After either unregistration certificate an account has no vote delegation until a new certificate gives it one |
| `GovernanceCerts.ResignedStaysResigned` | crates/ade_ledger/src/gov_cert.rs:64-148 | After a cold key resigns, no hot key maps to it until re-authorised |
| `Deposits.DepositAuthoritiesAgree` | crates/ade_ledger/src/cert_classify.rs:22-92 | Classified key deposits less refunds equal the change in recorded deposits exactly when explicit refunds match, and pool deposits equal the growth of the pool set |
| `Deposits.Untouched` | crates/ade_ledger/src/delegation.rs:510-592 | Accounts and pools no certificate touches keep their record |
| `Votes.VoteStore.ApplyOneVote` | crates/ade_ledger/src/epoch_accumulator.rs:1943-1994 | The in-place vote lists change as specified, or the vote is refused |
| `Votes.UpsertIsUpdate` | crates/ade_ledger/src/epoch_accumulator.rs:1984-1994 | An upsert on a list with one entry each is a map update |
| `Votes.StoreIsLastWriteWins` | crates/ade_ledger/src/epoch_accumulator.rs:1943-1994 | After any votes each role list holds one entry a voter, its last vote, and roles never mix |
| `Votes.UntrackedVotesIgnored` | crates/ade_ledger/src/epoch_accumulator.rs:1943-1994 | Votes on untracked proposals change nothing |
| `Votes.EachKindIsRecorded` | crates/ade_ledger/src/epoch_accumulator.rs:1951-1981 | Each of the five voter kinds is recorded in its own list, for a key, a script or a pool; others are refused |
| `BlockScan.CollateralBalance` | crates/ade_ledger/src/collateral.rs:72-104 | The checked loop computes the resolved total less the return, or the first refusal |
| `BlockScan.BalancePlusReturnIsSum` | crates/ade_ledger/src/alonzo.rs:179-211 | The balance plus the return is what the other valuation sums |
| `BlockScan.BalanceIsWorth` | crates/ade_ledger/src/collateral.rs:72-104 | Collateral has a balance if and only if every input resolves, together they fit in 64 bits and cover the return; the balance is their worth less the return |
| `BlockScan.ScanOne` | crates/ade_ledger/src/epoch_accumulator.rs:1402-1459 | One transaction's fee or forfeited collateral, donation and withdrawals are added, or the first refusal is reported |
| `BlockScan.ScanBlock` | crates/ade_ledger/src/epoch_accumulator.rs:1296-1459 | The transaction walk computes its specification, stopping at the first refusal |
| `BlockScan.ScanSplitsByValidity` | crates/ade_ledger/src/epoch_accumulator.rs:1402-1459 | Fees are the kept transactions' declared fees plus the discarded ones' forfeited collateral; donations and withdrawals come from kept ones only |
| `BlockScan.ScanWithoutInvalid` | crates/ade_ledger/src/epoch_accumulator.rs:1296-1459 | With nothing discarded the walk accepts exactly when the totals fit in 64 bits |
| `BlockScan.ScanAcceptedIff` | crates/ade_ledger/src/epoch_accumulator.rs:1296-1459 | A block is accepted if and only if the collateral of what it discards can be valued and both totals fit in 64 bits |
| `BlockScan.DeletingInvalidKeepsTheRest` | crates/ade_ledger/src/epoch_accumulator.rs:1296-1459 | Deleting the discarded transactions changes only the forfeited fees |
| `BlockEffects.AccumulateTxCerts` | crates/ade_ledger/src/rules.rs:1831-1864 | The certificate loop moves both states one certificate after another |
| `BlockEffects.CollectBlockCerts` | crates/ade_ledger/src/rules.rs:1716-1791 | The certificate walk over a block computes its specification, passing over what was discarded |
| `BlockEffects.ApplyGovernanceFields` | crates/ade_ledger/src/epoch_accumulator.rs:1714-1809 | One transaction's proposals are appended and its votes cast in place, or the transaction is refused |
| `BlockEffects.CollectGovernance` | crates/ade_ledger/src/epoch_accumulator.rs:1661-1712 | The governance walk over a block computes its specification |
| `BlockEffects.BlockCertsKeepSound` | crates/ade_ledger/src/rules.rs:1716-1864 | A block's certificates keep certificate and governance state sound |
| `BlockEffects.GovernanceKeepsDelegations` | crates/ade_ledger/src/epoch_accumulator.rs:1661-1809 | Proposals and votes of a block change nothing but the proposals |
| `BlockEffects.DiscardedTransactionsHaveNoEffect` | crates/ade_ledger/src/epoch_accumulator.rs:1661-1809 | Certificates and governance equal those of the block without its discarded transactions |
| `Cbor.HeadReadsBack` | crates/ade_codec/src/cbor/mod.rs:85-148 | A head written in the shortest form reads back with that width |
| `Cbor.ShortestIsWritten` | crates/ade_codec/src/cbor/mod.rs:493-530 | A head read in the shortest form is what the writer writes |
| `Cbor.ItemReadsBack` | crates/ade_codec/src/cbor/mod.rs:159-302 | An item reads back in the shortest form exactly where it was written |
| `Cbor.ItemsReadBack` | crates/ade_codec/src/cbor/mod.rs:159-302 | Items written in a row read back one after another |
| `Cbor.AnyWidthReads` | crates/ade_codec/src/cbor/mod.rs:85-148 | Every argument form is read, shortest or not, and its width reported |
| `Cbor.ReservedForms` | crates/ade_codec/src/cbor/mod.rs:85-148 | Reserved forms are not read, and the indefinite one only for containers |
| `Cbor.HeadLayout` | crates/ade_codec/src/cbor/mod.rs:493-530 | Every head byte by byte, in the five forms of section 3 of RFC 8949 |
| `Cbor.KnownAnswers` | crates/ade_codec/src/cbor/mod.rs:493-530 | Examples of Appendix A of RFC 8949 |
| `CanonicalMaps.DecodeEntries` | crates/ade_ledger/src/bootstrap_reward_update.rs:534-564 | The decoder's loop with offset and previous key computes its specification |
| `CanonicalMaps.EntriesReadBack` | crates/ade_ledger/src/bootstrap_reward_update.rs:534-564 | An ascending list of entries reads back where it was written |
| `CanonicalMaps.EntriesAreWritten` | crates/ade_ledger/src/bootstrap_bridge.rs:362-398 | Whatever list is read is ascending, and in a strict format is what was written |
| `CanonicalMaps.BelowIsLexicographic` | crates/ade_ledger/src/bootstrap_bridge.rs:362-398 | Keys ascend lexicographically: the first byte that differs decides, a proper prefix comes first |
| `CanonicalMaps.SortedListIsSorted` | crates/ade_ledger/src/bootstrap_reward_update.rs:283-291 | Every map has an ascending list of entries |
| `CanonicalMaps.SortedListIsUnique` | crates/ade_ledger/src/bootstrap_reward_update.rs:283-291 | It has no other |
| `SeedAuthority.RewardFormatIsFaithful` | crates/ade_ledger/src/bootstrap_reward_update.rs:507-534 | Reading a credential and its coin undoes writing them |
| `SeedAuthority.CredentialOrder` | crates/ade_ledger/src/bootstrap_reward_update.rs:507-534 | Keys come before scripts, each kind in the order of its hashes |
| `SeedAuthority.DecodesExactlyEncodings` | crates/ade_ledger/src/bootstrap_reward_update.rs:304-505 | Decoding yields a record exactly on its encoding and only when its commitment matches, for both variants |
| `SeedAuthority.EncodeIsInjective` | crates/ade_ledger/src/bootstrap_reward_update.rs:304-333 | Two records never share an encoding, across variants too |
| `SeedAuthority.CommitmentBinds` | crates/ade_ledger/src/bootstrap_reward_update.rs:196-250 | The commitment binds every other field and the variant: equal preimages come from one record |
| `SeedAuthority.FirstBytes` | crates/ade_ledger/src/bootstrap_reward_update.rs:304-333 | Length, schema version and variant tag of each variant, byte by byte |
| `SeedAuthority.DeltaIsItsMap` | crates/ade_ledger/src/bootstrap_reward_update.rs:283-291 | A reward delta on the wire is the one ascending list of its map |
| `PoolCodecs.FrozenDecodesExactlyEncodings` | crates/ade_ledger/src/frozen_leadership.rs:268-356 | Decoding yields a frozen object exactly on its encoding |
| `PoolCodecs.BridgeDecodesExactlyEncodings` | crates/ade_ledger/src/bootstrap_bridge.rs:259-398 | Decoding yields a bridge record exactly on its encoding and only when its commitment matches |
| `PoolCodecs.BridgeCommitmentBinds` | crates/ade_ledger/src/bootstrap_bridge.rs:126-200 | The bridge commitment binds every other field |
| `PoolCodecs.DomainsDiffer` | crates/ade_ledger/src/bootstrap_bridge.rs:126-200 | No bridge record and seed authority share a preimage |
| `PoolCodecs.PoolRecordsBegin` | crates/ade_ledger/src/frozen_leadership.rs:268-356 | Length and version of the two records, byte by byte |
| `AccumulatorCodecs.DecodeCounts` | crates/ade_ledger/src/epoch_accumulator.rs:2205-2233 | The lenient map loop inserts what it reads into an ordered map |
| `AccumulatorCodecs.LenientWithBackstopIsStrict` | crates/ade_ledger/src/epoch_accumulator.rs:2185-2233 | The lenient reader with the re-encode comparison accepts exactly what a strict reader accepts, with the same map |
| `AccumulatorCodecs.CountMapRoundTrips` | crates/ade_ledger/src/epoch_accumulator.rs:2194-2233 | The count map an accumulator holds is the one its encoding yields |
| `AccumulatorCodecs.DecodeInvalidIndices` | crates/ade_ledger/src/epoch_accumulator.rs:1210-1260 | The strict index loop computes its specification |
| `AccumulatorCodecs.AcceptsExactlyCanonical` | crates/ade_ledger/src/epoch_accumulator.rs:1210-1260 | Among non-empty fields exactly the canonical encodings of ascending in-range index lists are accepted |
| `AccumulatorCodecs.LenientAgreesWithStrict` | crates/ade_ledger/src/plutus_eval.rs:55-86 | Wherever the strict reader accepts, the lenient one yields the same set |
| `AccumulatorCodecs.LenientUnderReports` | crates/ade_ledger/src/plutus_eval.rs:55-86 | On every field truncated after some index the strict reader refuses and the lenient one reports only the indices before the cut |
| `AccumulatorCodecs.IndefiniteIsRefusedStrictly` | crates/ade_ledger/src/plutus_eval.rs:55-86 | A list of indefinite length is refused by the strict reader and taken in full by the lenient one, whatever its order |
| `Manifest.DecodesExactlyEncodings` | crates/ade_ledger/src/bootstrap_manifest.rs:79-130 | Both manifest versions: bytes decode to a manifest exactly when they are its encoding, from the layout alone |
| `ConwayBalance.SweepCerts` | crates/ade_ledger/src/conway.rs:198-210 | The sweep reports the first problem in list order |
| `ConwayBalance.CheckConservation` | crates/ade_ledger/src/conway.rs:175-254 | A certificate problem beats a value mismatch; otherwise bounded transactions are accepted exactly when the value equation holds over the integers |
| `ConwayBalance.NothingSaturates` | crates/ade_ledger/src/conway.rs:226-244 | Under the list-length bounds no 128-bit sum saturates |
| `ConwayBalance.BalanceIsRecorded` | crates/ade_ledger/src/conway.rs:226-254 | A transaction balances if and only if it pays for what the ledger then records: grown account deposits, new pools and DReps, up to explicit refunds above what was recorded |
| `ConwayBalance.RemovedTagReportedIff` | crates/ade_ledger/src/conway.rs:198-210 | The first removed tag is reported exactly when no refund before it is unresolved |
| `ConwayBalance.RemovedTagCanBeMasked` | crates/ade_ledger/src/conway.rs:198-210 | An unresolved refund before a removed tag masks it |
| `Byron.ValidateByronTx` | crates/ade_ledger/src/byron.rs:63-125 | The transaction's checks and loops compute their specification, error by error |
| `Byron.ResolveSpends` | crates/ade_ledger/src/byron.rs:144-167 | Every input was live, no two are equal, they are gone, and their coin is what was consumed |
| `Byron.TxConserves` | crates/ade_ledger/src/byron.rs:63-125 | A transaction never creates coin, conserves it exactly when no output overwrites value, and pays at least a price a byte plus a constant |
| `Byron.FeeRefusedIff` | crates/ade_ledger/src/byron.rs:95-102 | Once inputs, outputs and coverage are in order, the fee is refused exactly below the price of the size plus the constant, clamped to 64 bits |
| `Byron.OutputsCanBeSpent` | crates/ade_ledger/src/byron.rs:105-167 | An accepted output is what an input naming its index, taken modulo 65536, then spends |
| `Byron.TooManyOutputsLoseCoin` | crates/ade_ledger/src/byron.rs:105-122 | For every count above 65536 an accepted transaction with that many outputs loses coin |
| `Byron.ValidateByronBlock` | crates/ade_ledger/src/byron.rs:36-60 | The block loop threads the UTxO through its transactions |
| `Byron.BlockConserves` | crates/ade_ledger/src/byron.rs:36-125 | With fresh ids and at most 65536 outputs a transaction, the UTxO before is worth the UTxO after plus fees |
| `Byron.BlockCreatesNothing` | crates/ade_ledger/src/byron.rs:36-125 | Without those premises a block still creates nothing |
| `Byron.InputsSpentOnce` | crates/ade_ledger/src/byron.rs:127-167 | No entry is spent twice in a block |
| `Byron.SpentStaysSpent` | crates/ade_ledger/src/byron.rs:36-125 | With fresh ids a spent entry never comes back |
| `Commitment.UtxoSetCommitment.Update` | crates/ade_crypto/src/utxo_set_commitment.rs:55-62 | A sequence of in-place updates moves the element by exactly their net effect |
| `Commitment.RunIsNetEffect` | crates/ade_crypto/src/utxo_set_commitment.rs:36-62 | The element is the integer sum of the adds less the removes modulo the group order, and nothing coarser |
| `Commitment.IncrementalIsRecomputed` | crates/ade_crypto/src/utxo_set_commitment.rs:36-62 | After any adds and removes of live entries the commitment is the one recomputed from the multiset in any order |
| `Commitment.HistoriesDoNotMatter` | crates/ade_crypto/src/utxo_set_commitment.rs:36-62 | Histories with the same live entries commit to the same element |
| `Demux.ParseMuxFrames` | corpus/tools/demux_transcript.py:38-71 | The offset loop computes the recursive parse |
| `Demux.ParseOfSerialised` | corpus/tools/demux_transcript.py:38-71 | Parsing the serialisation of any frames returns them |
| `Demux.TruncatedParseIsPrefix` | corpus/tools/demux_transcript.py:38-71 | A truncated stream parses to a prefix of the full parse |
| `Demux.SerialisedParseIsPrefix` | corpus/tools/demux_transcript.py:38-71 | What parses is the stream, byte for byte, up to the first incomplete frame |
| `Demux.DemuxFrames` | corpus/tools/demux_transcript.py:75-83 | Each group is the in-order subsequence of its protocol's frames |
| `Demux.OrderIsKept` | corpus/tools/demux_transcript.py:75-83 | Two frames of one protocol keep their order |
| `Demux.FrameIsInItsGroup` | corpus/tools/demux_transcript.py:75-83 | Every frame stands in its own protocol's group |
| `Demux.GroupsPartition` | corpus/tools/demux_transcript.py:75-83 | The groups together are as many as the frames |

## Left out

- Ratification, enactment and the freezing of the ratification record: what governance decides is a parameter, universally quantified.
- Reward branches for protocol versions up to 6 (pre-filtering, active stake as denominator) and instantaneous rewards: only the Conway path is modelled.
- The performance ratio's i128 products of two 64-bit values: exact here. The rationals themselves hold big integers and never overflow; their reduction to lowest terms is unobservable.
- Decoding blocks and transaction bodies from bytes: the walks start from decoded fields.
- The full accumulator codec: it embeds snapshot sub-codecs that are not part of this model; only its count map and its seed authority are.
- The linear encoders' buffers: encoders are functions from records to byte strings, not appends to a mutable buffer.
- Error payloads such as transaction indices and human-readable reasons; the error kinds and their precedence are kept.
- `retire_pools`' sorted list of retired ids: modelled as a set.
- `conway_cert_action`'s owner tags, `canonical_hash`, `to_pool_distr_view` and the import constructors: one match or one expression each.
- The full-ledger boundary entry, reduced projections and MIR: they are wrappers around the modelled boundary or other eras.
- Byron and Conway witness checks, network ids and the other phase-1 rules.
- Withdrawal sums beyond 128 bits: the source's plain `sum` is modelled as exact, which the length bounds make true.
- pcap extraction, JSON output, fork choice, mempool adapters and cryptography.
